/** libs/common/src/auth/jwt-auth.guard.ts: the guard of the peer services.
    It reads the `Authentication` cookie, asks the auth service to
    `authenticate` it, and attaches the answer to the request as `user`. */
module JwtAuthGuard {
  import opened Common
  import opened Tokens
  import opened ClientProxy

  /** The user as the auth service sends it over the wire. */
  datatype UserDto = UserDto(id: string, email: string, password: string)

  /** The message payload `{ Authentication: jwt }`. */
  datatype AuthenticatePayload = AuthenticatePayload(authentication: string)

  const AuthenticatePattern := "authenticate"

  /** The incoming HTTP request, as far as the guard touches it. */
  class Request {
    var cookies: Option<map<string, string>>
    var user: Option<UserDto>

    constructor (cookies: Option<map<string, string>>)
      ensures this.cookies == cookies && user == None
    {
      this.cookies := cookies;
      user := None;
    }
  }

  /** `canActivate`: false, with no call, when there is no token; otherwise
      one `authenticate` call, whose answer becomes `request.user` before
      true is returned, and whose error is passed on with `user` untouched. */
  method CanActivate(request: Request, authClient: Client<AuthenticatePayload, UserDto>) returns (r: Result<bool, Exception>)
    modifies request, authClient
    ensures request.cookies == old(request.cookies)
    ensures !Truthy(CookieToken(old(request.cookies))) ==>
      && r == Ok(false)
      && authClient.sent == old(authClient.sent)
      && request.user == old(request.user)
    ensures Truthy(CookieToken(old(request.cookies))) ==>
      var payload := AuthenticatePayload(CookieToken(old(request.cookies)).value);
      var reply := authClient.reply(|old(authClient.sent)|, AuthenticatePattern, payload);
      && authClient.sent == old(authClient.sent) + [Message(AuthenticatePattern, payload)]
      && (reply.Ok? ==> request.user == Some(reply.value) && r == Ok(true))
      && (reply.Err? ==> request.user == old(request.user) && r == Err(reply.error))
    ensures r == Ok(true) ==> request.user.Some?
  {
    var jwt := CookieToken(request.cookies);
    if !Truthy(jwt) {
      return Ok(false);
    }
    var res := authClient.Send(AuthenticatePattern, AuthenticatePayload(jwt.value));
    match res
    case Err(e) =>
      r := Err(e);
    case Ok(user) =>
      request.user := Some(user);
      r := Ok(true);
  }
}
