/** Stand-in for `JwtService.sign` and passport-jwt's decoding, and where a
    token travels. A token is an opaque non-empty string from which the
    signed payload can be read back. Signatures and the `exp` claim are not
    modelled. */
module Tokens {
  import opened Common

  /** `TokenPayload`: the hex id of the user the token was issued to. */
  datatype TokenPayload = TokenPayload(userId: string)

  const Header := "jwt."

  function Sign(payload: TokenPayload): (token: string)
    ensures token != ""
  {
    Header + payload.userId
  }

  /** Reads the payload back; None for a string no `Sign` produced. */
  function Decode(token: string): (p: Option<TokenPayload>)
    ensures p.Some? ==> Sign(p.value) == token
  {
    if |token| >= |Header| && token[..|Header|] == Header then Some(TokenPayload(token[|Header|..]))
    else None
  }

  /** A signed token decodes to the payload it was signed with. */
  lemma DecodeSign(payload: TokenPayload)
    ensures Decode(Sign(payload)) == Some(payload)
  {
  }

  /** The cookie, and the RPC payload field, that carry the token. */
  const AuthenticationCookie := "Authentication"

  /** `cookies?.Authentication`. */
  function CookieToken(cookies: Option<map<string, string>>): (r: Option<string>)
    ensures r.Some? <==> cookies.Some? && AuthenticationCookie in cookies.value
    ensures r.Some? ==> r.value == cookies.value[AuthenticationCookie]
  {
    match cookies
    case None => None
    case Some(jar) => if AuthenticationCookie in jar then Some(jar[AuthenticationCookie]) else None
  }

  /** JavaScript truthiness of an optional string. */
  function Truthy(s: Option<string>): (b: bool)
    ensures b ==> s.Some? && |s.value| > 0
    ensures s.Some? && |s.value| > 0 ==> b
  {
    s.Some? && s.value != ""
  }
}
