/**
 * `generateToken`: a token for the user id, signed to expire in thirty
 * days, set as the `jwt` cookie with options that depend only on the
 * environment.
 */
module Tokens {
  import opened Wrappers
  import opened Strings
  import opened Js
  import opened Http

  const CookieName: string := "jwt"
  const TokenExpiry: string := "30d"
  const Production: string := "production"
  const MsPerDay: int := 24 * 60 * 60 * 1000

  /** The cookie options for a `NODE_ENV`: always `httpOnly`, `sameSite` lax and thirty days long; `secure` only in production. */
  function CookieOptionsFor(nodeEnv: Option<string>): (o: CookieOptions)
    ensures o.httpOnly && o.sameSite == "lax" && o.maxAge == 2592000000
    ensures o.secure.Some? <==> nodeEnv == Some(Production)
    ensures o.secure.Some? ==> o.secure.value
  {
    var options := CookieOptions(true, "lax", 30 * 24 * 60 * 60 * 1000, None);
    if nodeEnv == Some(Production) then options.(secure := Some(true)) else options
  }

  /** The number of days in a `jsonwebtoken` expiry written as digits followed by `d`. */
  function ExpiryDays(expiresIn: string): (r: Option<nat>)
    ensures r.Some? ==> |expiresIn| >= 2 && expiresIn[|expiresIn| - 1] == 'd'
  {
    if |expiresIn| >= 2 && expiresIn[|expiresIn| - 1] == 'd' && AllDigits(expiresIn[..|expiresIn| - 1]) then
      Some(ParseDecimal(expiresIn[..|expiresIn| - 1]))
    else None
  }

  /** The cookie lives exactly as long as the token it carries, in every environment. */
  lemma CookieLivesAsLongAsToken(nodeEnv: Option<string>)
    ensures ExpiryDays(TokenExpiry) == Some(30)
    ensures CookieOptionsFor(nodeEnv).maxAge == ExpiryDays(TokenExpiry).value * MsPerDay
  {
    assert TokenExpiry[..1] == "3" && TokenExpiry[..2] == "30";
    assert AllDigits("30");
    assert ParseDecimal("30") == ParseDecimal("3") * 10 + 0;
  }

  /**
   * `generateToken(res, userId)`: signs `{ userId }` for thirty days and
   * sets it as the `jwt` cookie, leaving status and body alone.
   */
  method GenerateToken(res: Response, userId: Oid, nodeEnv: Option<string>) returns (token: Token)
    modifies res
    ensures token == Token(userId, TokenExpiry)
    ensures res.cookies == old(res.cookies) + [CookieSet(CookieName, token, CookieOptionsFor(nodeEnv))]
    ensures res.statusCode == old(res.statusCode) && res.body == old(res.body) && res.sent == old(res.sent)
  {
    token := Token(userId, TokenExpiry);
    var options := CookieOptions(true, "lax", 30 * 24 * 60 * 60 * 1000, None);
    if nodeEnv == Some(Production) {
      options := options.(secure := Some(true));
    }
    res.Cookie(CookieName, token, options);
  }
}
