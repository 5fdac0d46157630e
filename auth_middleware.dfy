/**
 * The two middleware functions of the cookie-session server: `protect`,
 * which resolves the `jwt` cookie to a user or answers 401, and
 * `isAdmin`, which lets only admins through. Verifying the token is
 * abstract: its outcome is an input, the id it was signed for, or
 * nothing when `jwt.verify` throws.
 */
module AuthMiddleware {
  import opened Wrappers
  import opened Js
  import opened ServerStore
  import opened Http
  import opened Tokens

  const NotAuthorized: string := "Not authorized"
  const NotAdmin: string := "Not authorized as an admin"

  /** `select("-password")`. */
  function WithoutPassword(a: Account): (r: Account)
    ensures r.password.Undefined?
    ensures r.(password := a.password) == a
  {
    a.(password := Undefined)
  }

  /** How `protect` ends: the user it attaches, or the 401 with or without clearing the cookie. */
  datatype Outcome = Pass(user: SessionUser) | Reject(clearCookie: bool)

  /**
   * The decision of `protect`: no cookie value, a token that does not
   * verify, or one whose user no longer exists, each reject; otherwise the
   * user, without the password, passes. Only a missing cookie leaves the
   * cookie in place.
   */
  function ProtectOutcome(token: Value, verified: Option<Oid>, users: map<Oid, Account>): (r: Outcome)
    ensures r.Pass? <==> Truthy(token) && verified.Some? && verified.value in users
    ensures r.Pass? ==> r.user == SessionUser(verified.value, WithoutPassword(users[verified.value]))
    ensures r.Reject? ==> (r.clearCookie <==> Truthy(token))
  {
    if !Truthy(token) then Reject(false)
    else if verified.None? then Reject(true)
    else if verified.value !in users then Reject(true)
    else Pass(SessionUser(verified.value, WithoutPassword(users[verified.value])))
  }

  /** A request `protect` lets through never carries a password, whatever the stored one is. */
  lemma ProtectHidesPassword(token: Value, verified: Option<Oid>, users: map<Oid, Account>, id: Oid, password: Value)
    requires id in users
    ensures ProtectOutcome(token, verified, users[id := users[id].(password := password)])
      == ProtectOutcome(token, verified, users)
  {
    var users' := users[id := users[id].(password := password)];
    if Truthy(token) && verified.Some? && verified.value in users {
      assert WithoutPassword(users'[verified.value]) == WithoutPassword(users[verified.value]);
    }
  }

  /**
   * `protect`: either attaches the user and calls `next` (returned as
   * `next`) with the response untouched, or answers 401 "Not authorized",
   * clearing the cookie unless there was none, and does not call `next`.
   */
  method Protect(req: Request, res: Response, db: Db, verified: Option<Oid>) returns (next: bool)
    modifies req, res
    ensures var outcome := ProtectOutcome(req.jwtCookie, verified, db.users);
      && (next <==> outcome.Pass?)
      && (outcome.Pass? ==> req.user == Some(outcome.user))
      && (outcome.Reject? ==> req.user == old(req.user))
      && (outcome.Reject? ==> res.statusCode == 401 && res.body == MessageBody(NotAuthorized) && res.sent)
      && (outcome.Reject? ==> res.cookies == old(res.cookies) + if outcome.clearCookie then [CookieCleared(CookieName)] else [])
    ensures next ==>
      (res.statusCode == old(res.statusCode) && res.body == old(res.body) && res.sent == old(res.sent) && res.cookies == old(res.cookies))
  {
    var token := req.jwtCookie;
    if !Truthy(token) {
      res.Status(401);
      res.Json(MessageBody(NotAuthorized));
      return false;
    }
    if verified.None? {
      res.ClearCookie(CookieName);
      res.Status(401);
      res.Json(MessageBody(NotAuthorized));
      return false;
    }
    var userId := verified.value;
    if userId !in db.users {
      res.ClearCookie(CookieName);
      res.Status(401);
      res.Json(MessageBody(NotAuthorized));
      return false;
    }
    req.user := Some(SessionUser(userId, WithoutPassword(db.users[userId])));
    next := true;
  }

  /** `isAdmin`: calls `next` exactly when a user is attached and their role is "admin"; otherwise 401. */
  method IsAdminGate(req: Request, res: Response) returns (next: bool)
    modifies res
    ensures next <==> req.user.Some? && req.user.value.account.role == Str(AdminRole)
    ensures next ==>
      (res.statusCode == old(res.statusCode) && res.body == old(res.body) && res.sent == old(res.sent) && res.cookies == old(res.cookies))
    ensures !next ==> res.statusCode == 401 && res.body == MessageBody(NotAdmin) && res.sent && res.cookies == old(res.cookies)
  {
    if req.user.Some? && req.user.value.account.role == Str(AdminRole) {
      next := true;
    } else {
      res.Status(401);
      res.Json(MessageBody(NotAdmin));
      next := false;
    }
  }

  /** The caller the controllers see: the attached user's id and role. */
  function CallerOf(user: SessionUser): (c: Caller)
    ensures c.id == user.id
    ensures IsAdmin(c) <==> user.account.role == Str(AdminRole)
  {
    Caller(user.id, user.account.role)
  }
}
