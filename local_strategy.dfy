/** apps/auth/src/strategies/local.strategy.ts: email/password login, where
    every failure of `verifyUser` becomes the same Unauthorized. */
module LocalStrategy {
  import opened Common
  import opened Database
  import opened Users

  function Validate(service: UserService, email: string, password: string): (r: Result<Record<User>, Exception>)
    reads service.users
    ensures service.VerifyUser(email, password).Ok? ==> r == service.VerifyUser(email, password)
    ensures service.VerifyUser(email, password).Err? ==> r == Err(Unauthorized(InvalidCredentials))
    ensures r.Ok? || r == Err(Unauthorized(InvalidCredentials))
  {
    match service.VerifyUser(email, password)
    case Ok(user) => Ok(user)
    case Err(_) => Err(Unauthorized(InvalidCredentials))
  }

  /** An unknown email and a wrong password give the caller the same answer. */
  lemma UnknownEmailLikeWrongPassword(service: UserService, unknown: string, known: nat, password: string)
    requires forall k :: 0 <= k < |service.users.docs| ==> service.users.docs[k].body.email != unknown
    requires known < |service.users.docs| && UniqueEmails(service.users.docs)
    requires !service.bcrypt.compareSync(password, service.users.docs[known].body.password)
    ensures Validate(service, unknown, password) == Err(Unauthorized(InvalidCredentials))
    ensures Validate(service, service.users.docs[known].body.email, password) == Validate(service, unknown, password)
  {
  }

  /** The right password of a registered user logs that user in. */
  lemma RightPasswordLogsIn(service: UserService, known: nat, password: string)
    requires known < |service.users.docs| && UniqueEmails(service.users.docs)
    requires service.bcrypt.compareSync(password, service.users.docs[known].body.password)
    ensures Validate(service, service.users.docs[known].body.email, password) == Ok(service.users.docs[known])
  {
  }
}
