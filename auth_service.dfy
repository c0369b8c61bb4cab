/** apps/auth/src/auth.service.ts: issuing the `Authentication` cookie at
    login, with its expiry from JWT_EXPIRATION and its flags from the
    environment. Time is whole seconds since the epoch. */
module Auth {
  import opened Common
  import opened Database
  import opened Users
  import opened Tokens
  import JwtTime

  /** The configuration keys the service reads; None is an unset key. */
  datatype Config = Config(jwtExpiration: Option<string>, nodeEnv: Option<string>, jwtSecureCookie: Option<bool>)

  datatype CookieOptions = CookieOptions(expires: int, httpOnly: bool, sameSite: string, path: string, secure: bool)

  /** One `Set-Cookie` the response carries. */
  datatype SetCookie = SetCookie(name: string, value: string, options: CookieOptions)

  const ExpirationRequired := "JWT_EXPIRATION is required but not configured"
  const LoginFailed := "Login failed"

  /** `getJwtExpirationInSeconds`: an unset or empty JWT_EXPIRATION is an
      error; otherwise the parsed TTL, whose errors pass through. */
  function GetJwtExpirationInSeconds(config: Config): (r: Result<nat, Exception>)
    ensures config.jwtExpiration == None || config.jwtExpiration == Some("") ==>
      r == Err(InternalServerError(ExpirationRequired))
    ensures r.Ok? ==>
      && r.value > 0 && config.jwtExpiration.Some?
      && JwtTime.ParseJwtExpirationToSeconds(config.jwtExpiration.value) == Ok(r.value)
    ensures (&& config.jwtExpiration.Some? && config.jwtExpiration.value != ""
             && JwtTime.ParseJwtExpirationToSeconds(config.jwtExpiration.value).Err?) ==>
      r == Err(Error(JwtTime.Message(JwtTime.ParseJwtExpirationToSeconds(config.jwtExpiration.value).error)))
  {
    match config.jwtExpiration
    case None => Err(InternalServerError(ExpirationRequired))
    case Some(s) =>
      if s == "" then Err(InternalServerError(ExpirationRequired))
      else match JwtTime.ParseJwtExpirationToSeconds(s)
        case Ok(seconds) => Ok(seconds)
        case Err(e) => Err(Error(JwtTime.Message(e)))
  }

  /** `configService.get('NODE_ENV', 'development')`. */
  function Environment(config: Config): (env: string)
    ensures config.nodeEnv.None? ==> env == "development"
    ensures config.nodeEnv.Some? ==> env == config.nodeEnv.value
  {
    match config.nodeEnv
    case None => "development"
    case Some(env) => env
  }

  /** `getCookieSecurityOptions`: the given Expires (section 4.1.2.1 of
      RFC 6265), HttpOnly (section 4.1.2.6), Path=/ (section 4.1.2.4) and
      SameSite=Lax always; Secure as JWT_SECURE_COOKIE says, or when it is
      unset exactly in production. */
  function GetCookieSecurityOptions(config: Config, expires: int): (o: CookieOptions)
    ensures o.expires == expires
    ensures o.httpOnly && o.sameSite == "lax" && o.path == "/"
    ensures config.jwtSecureCookie.Some? ==> o.secure == config.jwtSecureCookie.value
    ensures config.jwtSecureCookie.None? ==> (o.secure <==> Environment(config) == "production")
  {
    var isProduction := Environment(config) == "production";
    CookieOptions(
      expires := expires,
      httpOnly := true,
      sameSite := "lax",
      path := "/",
      secure := match config.jwtSecureCookie case Some(b) => b case None => isProduction)
  }

  /** With neither NODE_ENV nor JWT_SECURE_COOKIE set, the environment is
      development and the cookie is not Secure. */
  lemma DefaultIsDevelopment(config: Config, expires: int)
    requires config.nodeEnv.None? && config.jwtSecureCookie.None?
    ensures !GetCookieSecurityOptions(config, expires).secure
  {
  }

  /** The payload signed at login: `{ userId: user._id.toHexString() }`. */
  function PayloadOf(user: Record<User>): (p: TokenPayload)
    ensures |p.userId| >= 24
  {
    TokenPayload(ToHexString(user.id))
  }

  /** A login payload names one user: two users with the same payload have
      the same id. */
  lemma PayloadNamesOneUser(a: Record<User>, b: Record<User>)
    requires PayloadOf(a) == PayloadOf(b)
    ensures a.id == b.id
  {
    HexStringInjective(a.id, b.id);
  }

  /** The cookie `login` sets, or the one error it throws. */
  function LoginCookie(user: Record<User>, config: Config, now: int): (r: Result<SetCookie, Exception>)
    ensures r.Err? <==> GetJwtExpirationInSeconds(config).Err?
    ensures r.Err? ==> r.error == InternalServerError(LoginFailed)
    ensures r.Ok? ==> r.value.name == AuthenticationCookie
    ensures r.Ok? ==> Decode(r.value.value) == Some(PayloadOf(user))
    ensures r.Ok? ==> r.value.options == GetCookieSecurityOptions(config, r.value.options.expires)
    ensures r.Ok? ==> r.value.options.expires == now + GetJwtExpirationInSeconds(config).value
    ensures r.Ok? ==> r.value.options.expires > now
  {
    var token := Sign(PayloadOf(user));
    DecodeSign(PayloadOf(user));
    match GetJwtExpirationInSeconds(config)
    case Err(_) => Err(InternalServerError(LoginFailed))
    case Ok(ttl) => Ok(SetCookie(AuthenticationCookie, token, GetCookieSecurityOptions(config, now + ttl)))
  }

  /** The Express response: the cookies `response.cookie` has set. */
  class Response {
    var cookies: seq<SetCookie>

    constructor ()
      ensures cookies == []
    {
      cookies := [];
    }

    method Cookie(name: string, value: string, options: CookieOptions)
      modifies this
      ensures cookies == old(cookies) + [SetCookie(name, value, options)]
    {
      cookies := cookies + [SetCookie(name, value, options)];
    }
  }

  /** `login`: sets the cookie, or sets nothing and throws "Login failed"
      whatever went wrong. */
  method Login(user: Record<User>, response: Response, config: Config, now: int) returns (r: Result<(), Exception>)
    modifies response
    ensures LoginCookie(user, config, now).Ok? ==>
      r == Ok(()) && response.cookies == old(response.cookies) + [LoginCookie(user, config, now).value]
    ensures LoginCookie(user, config, now).Err? ==>
      r == Err(InternalServerError(LoginFailed)) && response.cookies == old(response.cookies)
  {
    var cookie := LoginCookie(user, config, now);
    if cookie.Err? {
      return Err(cookie.error);
    }
    response.Cookie(cookie.value.name, cookie.value.value, cookie.value.options);
    r := Ok(());
  }
}
