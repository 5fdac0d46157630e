/**
 * The auth controller of the cookie-session server: registration with a
 * duplicate-address check, login with one generic failure, logout, and
 * the current user's profile. Comparing a password with the stored one
 * is bcrypt's work and abstract here: `passwordMatches` stands for it.
 */
module AuthController {
  import opened Wrappers
  import opened Js
  import opened ServerStore
  import opened Http
  import opened Tokens

  const UserExists: string := "User already exists"
  const InvalidCredentials: string := "Invalid email or password"
  const LoggedOut: string := "Logged out successfully"
  const NotAuthenticated: string := "Not authenticated"

  /** `{ _id, name, email, role }`, the user as register, login and profile answer it. */
  function Profile(id: Oid, a: Account): (v: Value)
    ensures v.Obj? && v.fields.Keys == {"_id", "name", "email", "role"}
    ensures "password" !in v.fields
  {
    Obj(map["_id" := Num(id), "name" := a.name, "email" := a.email, "role" := a.role])
  }

  /** The profile says nothing about the password. */
  lemma ProfileIgnoresPassword(id: Oid, a: Account, password: Value)
    ensures Profile(id, a.(password := password)) == Profile(id, a)
  {
  }

  /** The user `registerUser` creates: name, address and password from the body, the default role. */
  function NewAccount(body: Record, now: Value): (a: Account)
    ensures a.role == Str(DefaultRole)
    ensures a.name == Get(body, "name") && a.email == Get(body, "email") && a.password == Get(body, "password")
    ensures a.createdAt == now && a.updatedAt == now
  {
    Account(Get(body, "name"), Get(body, "email"), Get(body, "password"), Str(DefaultRole), now, now)
  }

  /** Registering cannot make an admin: a role in the body is ignored. */
  lemma RegisterIgnoresRole(body: Record, now: Value, role: Value)
    ensures NewAccount(body["role" := role], now) == NewAccount(body, now)
  {
  }

  /**
   * `registerUser`: 400 "User already exists" for a taken address,
   * creating nothing and setting no cookie; otherwise the new user under a
   * fresh id, its token as the cookie, and 201 with its profile.
   */
  method RegisterUser(db: Db, req: Request, res: Response, id: Oid, now: Value, nodeEnv: Option<string>)
    requires db.Valid() && id !in db.users
    modifies db, res
    ensures db.Valid()
    ensures db.celebrants == old(db.celebrants) && db.events == old(db.events) && db.messages == old(db.messages)
    ensures EmailTaken(old(db.users), None, Get(req.body, "email")) ==>
      && db.users == old(db.users)
      && res.statusCode == 400 && res.body == MessageBody(UserExists) && res.sent
      && res.cookies == old(res.cookies)
    ensures !EmailTaken(old(db.users), None, Get(req.body, "email")) ==>
      && db.users == old(db.users)[id := NewAccount(req.body, now)]
      && res.statusCode == 201 && res.body == Profile(id, NewAccount(req.body, now)) && res.sent
      && res.cookies == old(res.cookies) + [CookieSet(CookieName, Token(id, TokenExpiry), CookieOptionsFor(nodeEnv))]
  {
    var email := Get(req.body, "email");
    if exists other :: other in db.users && db.users[other].email == email {
      res.Status(400);
      res.Json(MessageBody(UserExists));
      return;
    }
    var user := NewAccount(req.body, now);
    db.PutUser(id, user);
    var _ := GenerateToken(res, id, nodeEnv);
    res.Status(201);
    res.Json(Profile(id, user));
  }

  /**
   * `loginUser`: when a user holds the address and the password matches,
   * their token as the cookie and their profile; otherwise, whichever of
   * the two failed, the same 401 and no cookie.
   */
  method LoginUser(db: Db, req: Request, res: Response, nodeEnv: Option<string>, passwordMatches: (Account, Value) -> bool)
    requires db.Valid()
    modifies res
    ensures var found := UserWithEmail(db.users, Get(req.body, "email"));
      if found.Some? && passwordMatches(db.users[found.value], Get(req.body, "password")) then
        && res.statusCode == old(res.statusCode) && res.body == Profile(found.value, db.users[found.value]) && res.sent
        && res.cookies == old(res.cookies) + [CookieSet(CookieName, Token(found.value, TokenExpiry), CookieOptionsFor(nodeEnv))]
      else
        && res.statusCode == 401 && res.body == MessageBody(InvalidCredentials) && res.sent
        && res.cookies == old(res.cookies)
  {
    var email := Get(req.body, "email");
    if exists id :: id in db.users && db.users[id].email == email {
      var id :| id in db.users && db.users[id].email == email;
      assert UserWithEmail(db.users, email) == Some(id);
      if passwordMatches(db.users[id], Get(req.body, "password")) {
        var _ := GenerateToken(res, id, nodeEnv);
        res.Json(Profile(id, db.users[id]));
        return;
      }
    }
    res.Status(401);
    res.Json(MessageBody(InvalidCredentials));
  }

  /** `logoutUser`: clears the `jwt` cookie and answers 200. */
  method LogoutUser(res: Response)
    modifies res
    ensures res.cookies == old(res.cookies) + [CookieCleared(CookieName)]
    ensures res.statusCode == 200 && res.body == MessageBody(LoggedOut) && res.sent
  {
    res.ClearCookie(CookieName);
    res.Status(200);
    res.Json(MessageBody(LoggedOut));
  }

  /** `getCurrentUser`: 401 without an attached user, else 200 with its profile. */
  method GetCurrentUser(req: Request, res: Response)
    modifies res
    ensures res.cookies == old(res.cookies) && res.sent
    ensures req.user.None? ==> res.statusCode == 401 && res.body == MessageBody(NotAuthenticated)
    ensures req.user.Some? ==> res.statusCode == 200 && res.body == Profile(req.user.value.id, req.user.value.account)
  {
    if req.user.None? {
      res.Status(401);
      res.Json(MessageBody(NotAuthenticated));
      return;
    }
    res.Status(200);
    res.Json(Profile(req.user.value.id, req.user.value.account));
  }
}
