/**
 * The parts of an Express request and response the cookie-session server
 * touches: the `jwt` cookie and body of the request and the user attached
 * to it, and the status, JSON body and cookie operations of the response.
 * Signed tokens are symbolic: the secret and the signature are not
 * modelled, only what was signed and for how long.
 */
module Http {
  import opened Wrappers
  import opened Js
  import opened ServerStore

  /** `jwt.sign({ userId }, secret, { expiresIn })`. */
  datatype Token = Token(userId: Oid, expiresIn: string)

  /** The options of `res.cookie`; `secure` is absent unless it was set. */
  datatype CookieOptions = CookieOptions(httpOnly: bool, sameSite: string, maxAge: int, secure: Option<bool>)

  /** One cookie operation on the response, in the order made. */
  datatype CookieOp = CookieSet(name: string, token: Token, options: CookieOptions) | CookieCleared(name: string)

  /** The user `protect` attaches to the request: the document without its password. */
  datatype SessionUser = SessionUser(id: Oid, account: Account)

  /** `{ message }`, the body of every error response. */
  function MessageBody(message: string): Value {
    Obj(map["message" := Str(message)])
  }

  class Request {
    /** `req.cookies.jwt`. */
    const jwtCookie: Value
    /** `req.body`. */
    const body: Record
    /** `req.user`. */
    var user: Option<SessionUser>

    constructor (jwtCookie: Value, body: Record)
      ensures this.jwtCookie == jwtCookie && this.body == body && user == None
    {
      this.jwtCookie := jwtCookie;
      this.body := body;
      user := None;
    }
  }

  class Response {
    var statusCode: int
    var body: Value
    var sent: bool
    var cookies: seq<CookieOp>

    constructor ()
      ensures statusCode == 200 && body == Undefined && !sent && cookies == []
    {
      statusCode, body, sent, cookies := 200, Undefined, false, [];
    }

    /** `res.status(code)`. */
    method Status(code: int)
      modifies this
      ensures statusCode == code
      ensures body == old(body) && sent == old(sent) && cookies == old(cookies)
    {
      statusCode := code;
    }

    /** `res.json(value)`: the body is sent. */
    method Json(value: Value)
      modifies this
      ensures body == value && sent
      ensures statusCode == old(statusCode) && cookies == old(cookies)
    {
      body, sent := value, true;
    }

    /** `res.cookie(name, token, options)`. */
    method Cookie(name: string, token: Token, options: CookieOptions)
      modifies this
      ensures cookies == old(cookies) + [CookieSet(name, token, options)]
      ensures statusCode == old(statusCode) && body == old(body) && sent == old(sent)
    {
      cookies := cookies + [CookieSet(name, token, options)];
    }

    /** `res.clearCookie(name)`. */
    method ClearCookie(name: string)
      modifies this
      ensures cookies == old(cookies) + [CookieCleared(name)]
      ensures statusCode == old(statusCode) && body == old(body) && sent == old(sent)
    {
      cookies := cookies + [CookieCleared(name)];
    }
  }
}
