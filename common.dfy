/** Shared result types and the HTTP exception taxonomy the services throw. */
module Common {

  datatype Option<+T> = None | Some(value: T)

  /** The value of a call that either returns or throws. */
  datatype Result<+T, +E> = Ok(value: T) | Err(error: E)

  /** The exceptions of the core: the NestJS HTTP exceptions it throws, and
      a plain `Error` for the ones thrown with `new Error(...)`. */
  datatype Exception =
    | NotFound(message: string)
    | Unauthorized(message: string)
    | UnprocessableEntity(message: string)
    | InternalServerError(message: string)
    | Error(message: string)
}
