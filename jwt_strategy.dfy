/** apps/auth/src/strategies/jwt.strategy.ts: where the token is looked for,
    and how its payload is resolved to a stored user. */
module JwtStrategy {
  import opened Common
  import opened Database
  import opened Users
  import opened Tokens
  import Auth

  /** What the extractor is handed: an HTTP request with its parsed cookies,
      or the payload of an RPC message such as `{ Authentication: jwt }`. */
  datatype IncomingRequest = IncomingRequest(cookies: Option<map<string, string>>, authentication: Option<string>)

  /** The extractor `req?.cookies?.Authentication || req?.Authentication`:
      the cookie when it is non-empty, else the top-level field; undefined
      (None), without failing, for a null request. */
  function ExtractJwt(req: Option<IncomingRequest>): (token: Option<string>)
    ensures req.None? ==> token.None?
    ensures req.Some? && Truthy(CookieToken(req.value.cookies)) ==> token == CookieToken(req.value.cookies)
    ensures req.Some? && !Truthy(CookieToken(req.value.cookies)) ==> token == req.value.authentication
  {
    match req
    case None => None
    case Some(r) => if Truthy(CookieToken(r.cookies)) then CookieToken(r.cookies) else r.authentication
  }

  /** The payload a peer service's guard sends is read back by the extractor. */
  lemma ExtractsRpcPayload(jwt: string)
    ensures ExtractJwt(Some(IncomingRequest(None, Some(jwt)))) == Some(jwt)
  {
  }

  /** `validate({ userId })`: the stored user with that id. A lookup that
      finds nothing fails inside `getUser` with NotFound, so the
      "User not found" error below it is never thrown. */
  function Validate(service: UserService, payload: TokenPayload): (r: Result<Record<User>, Exception>)
    reads service.users
    ensures r.Ok? ==> r.value in service.users.docs && ToHexString(r.value.id) == payload.userId
    ensures r.Err? <==> forall k :: 0 <= k < |service.users.docs| ==> ToHexString(service.users.docs[k].id) != payload.userId
    ensures r.Err? ==> r.error == NotFound(NotFoundMessage)
  {
    match service.GetUser(payload.userId)
    case Err(e) => Err(e)
    case Ok(user) => Ok(user)
  }

  /** The `authenticate` endpoint behind the strategy: extract, decode
      (signature and expiry checks are not modelled), then validate. */
  function Authenticate(service: UserService, req: Option<IncomingRequest>): (r: Result<Record<User>, Exception>)
    reads service.users
    ensures !Truthy(ExtractJwt(req)) ==> r == Err(Unauthorized("Unauthorized"))
    ensures Truthy(ExtractJwt(req)) && Decode(ExtractJwt(req).value).None? ==>
      r == Err(Unauthorized("Unauthorized"))
    ensures Truthy(ExtractJwt(req)) && Decode(ExtractJwt(req).value).Some? ==>
      r == Validate(service, Decode(ExtractJwt(req).value).value)
    ensures r.Ok? ==> r.value in service.users.docs
    ensures r.Ok? ==> ToHexString(r.value.id) == Decode(ExtractJwt(req).value).value.userId
  {
    match ExtractJwt(req)
    case None => Err(Unauthorized("Unauthorized"))
    case Some(token) =>
      if token == "" then Err(Unauthorized("Unauthorized"))
      else match Decode(token)
        case None => Err(Unauthorized("Unauthorized"))
        case Some(payload) => Validate(service, payload)
  }

  /** A token issued at login resolves back to the user who logged in,
      whether it arrives as the HTTP cookie or as the RPC payload field. */
  lemma LoginTokenResolvesToUser(service: UserService, k: nat, config: Auth.Config, now: int)
    requires service.users.Valid() && k < |service.users.docs|
    requires Auth.LoginCookie(service.users.docs[k], config, now).Ok?
    ensures var token := Auth.LoginCookie(service.users.docs[k], config, now).value.value;
      && Authenticate(service, Some(IncomingRequest(None, Some(token)))) == Ok(service.users.docs[k])
      && Authenticate(service, Some(IncomingRequest(Some(map[AuthenticationCookie := token]), None))) == Ok(service.users.docs[k])
  {
    var docs := service.users.docs;
    var user := docs[k];
    var payload := Auth.PayloadOf(user);
    var r := Validate(service, payload);
    assert ToHexString(docs[k].id) == payload.userId;
    assert r.Ok?;
    var i :| 0 <= i < |docs| && docs[i] == r.value;
    HexStringInjective(docs[i].id, user.id);
    assert i == k;
  }
}
