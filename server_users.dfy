/**
 * The user controller of the cookie-session server: every user it
 * returns goes through `sanitizeUser`, which keeps six properties and
 * never the password. The user schema itself is not part of this model:
 * passwords are stored as given, and the one rule of that schema the
 * handlers depend on, unique e-mail addresses, is the store's invariant.
 */
module ServerUsers {
  import opened Wrappers
  import opened Js
  import opened ServerStore
  import opened AuthMiddleware

  const Listed: string := "Users fetched successfully"
  const Fetched: string := "User fetched successfully"
  const Created: string := "User created successfully"
  const Updated: string := "User updated successfully"
  const Deleted: string := "User deleted successfully"
  const ProfileUpdated: string := "Profile updated successfully"
  const NotFound: string := "User not found"
  const UserExists: string := "User already exists"

  /** The properties `sanitizeUser` keeps. */
  const SafeFields: set<string> := {"_id", "name", "email", "role", "createdAt", "updatedAt"}

  /** `sanitizeUser`: null for no user, else exactly the six safe properties. */
  function SanitizeUser(user: Option<(Oid, Account)>): (v: Value)
    ensures user.None? <==> v == Null
    ensures user.Some? ==> v.Obj? && v.fields.Keys == SafeFields && "password" !in v.fields
    ensures user.Some? ==>
      (v.fields["_id"] == Num(user.value.0) && v.fields["name"] == user.value.1.name
       && v.fields["email"] == user.value.1.email && v.fields["role"] == user.value.1.role)
  {
    match user
    case None => Null
    case Some((id, a)) =>
      Obj(map["_id" := Num(id), "name" := a.name, "email" := a.email, "role" := a.role,
              "createdAt" := a.createdAt, "updatedAt" := a.updatedAt])
  }

  /** What `sanitizeUser` returns does not depend on the password, whether it was selected or not. */
  lemma SanitizeIgnoresPassword(id: Oid, a: Account, password: Value)
    ensures SanitizeUser(Some((id, a.(password := password)))) == SanitizeUser(Some((id, a)))
    ensures SanitizeUser(Some((id, WithoutPassword(a)))) == SanitizeUser(Some((id, a)))
  {
  }

  /** `getUsers`: every user, sanitised. */
  method GetUsers(db: Db) returns (reply: Reply<map<Oid, Value>>)
    ensures reply.Success? && reply.status == 200 && reply.message == Listed
    ensures reply.data.Keys == db.users.Keys
    ensures forall id :: id in reply.data ==> reply.data[id] == SanitizeUser(Some((id, db.users[id])))
  {
    var users := map id | id in db.users :: SanitizeUser(Some((id, WithoutPassword(db.users[id]))));
    reply := Success(200, Listed, users);
  }

  /** `getUserById`: the sanitised user, or 404 when there is none. */
  method GetUserById(db: Db, id: Oid) returns (reply: Reply<Value>)
    ensures id in db.users ==> reply == Success(200, Fetched, SanitizeUser(Some((id, db.users[id]))))
    ensures id !in db.users ==> reply == Failure(404, NotFound)
  {
    if id !in db.users {
      return Failure(404, NotFound);
    }
    reply := Success(200, Fetched, SanitizeUser(Some((id, WithoutPassword(db.users[id])))));
  }

  /** The role of a new user: the given one, or "user" when none is given. */
  function RoleOrDefault(role: Value): (r: Value)
    ensures role.Undefined? ==> r == Str(DefaultRole)
    ensures !role.Undefined? ==> r == role
  {
    if role.Undefined? then Str(DefaultRole) else role
  }

  /** `createUser`: 400 for a taken address, creating nothing; otherwise the new user under a fresh id. */
  method CreateUser(db: Db, body: Record, id: Oid, now: Value) returns (reply: Reply<Value>)
    requires db.Valid() && id !in db.users
    modifies db
    ensures db.Valid()
    ensures db.celebrants == old(db.celebrants) && db.events == old(db.events) && db.messages == old(db.messages)
    ensures EmailTaken(old(db.users), None, Get(body, "email")) ==>
      reply == Failure(400, UserExists) && db.users == old(db.users)
    ensures !EmailTaken(old(db.users), None, Get(body, "email")) ==>
      var a := Account(Get(body, "name"), Get(body, "email"), Get(body, "password"), RoleOrDefault(Get(body, "role")), now, now);
      db.users == old(db.users)[id := a] && reply == Success(201, Created, SanitizeUser(Some((id, a))))
  {
    var email := Get(body, "email");
    if exists other :: other in db.users && db.users[other].email == email {
      return Failure(400, UserExists);
    }
    var a := Account(Get(body, "name"), email, Get(body, "password"), RoleOrDefault(Get(body, "role")), now, now);
    db.PutUser(id, a);
    reply := Success(201, Created, SanitizeUser(Some((id, a))));
  }

  /** `findByIdAndUpdate` with the body: each of the four properties the body defines is set. */
  function ApplyUpdate(a: Account, body: Record): (r: Account)
    ensures r.createdAt == a.createdAt && r.updatedAt == a.updatedAt
    ensures Get(body, "email").Undefined? ==> r.email == a.email
    ensures !Get(body, "email").Undefined? ==> r.email == body["email"]
    ensures Get(body, "name").Undefined? ==> r.name == a.name
    ensures !Get(body, "name").Undefined? ==> r.name == body["name"]
    ensures Get(body, "password").Undefined? ==> r.password == a.password
    ensures !Get(body, "password").Undefined? ==> r.password == body["password"]
    ensures Get(body, "role").Undefined? ==> r.role == a.role
    ensures !Get(body, "role").Undefined? ==> r.role == body["role"]
  {
    a.(name := if Get(body, "name").Undefined? then a.name else body["name"],
       email := if Get(body, "email").Undefined? then a.email else body["email"],
       password := if Get(body, "password").Undefined? then a.password else body["password"],
       role := if Get(body, "role").Undefined? then a.role else body["role"])
  }

  /**
   * `updateUser`: applies the body to the user if there is one, then
   * answers 200 with the user read back, sanitised: null when there was
   * none. An address another user holds makes the update throw.
   */
  method UpdateUser(db: Db, id: Oid, body: Record) returns (reply: Reply<Value>)
    requires db.Valid()
    modifies db
    ensures db.Valid()
    ensures db.celebrants == old(db.celebrants) && db.events == old(db.events) && db.messages == old(db.messages)
    ensures id !in old(db.users) ==> reply == Success(200, Updated, Null) && db.users == old(db.users)
    ensures id in old(db.users) ==>
      var a := ApplyUpdate(old(db.users)[id], body);
      if EmailTaken(old(db.users), Some(id), a.email) then reply == Thrown(DuplicateKeyError) && db.users == old(db.users)
      else reply == Success(200, Updated, SanitizeUser(Some((id, a)))) && db.users == old(db.users)[id := a]
  {
    if id !in db.users {
      return Success(200, Updated, SanitizeUser(None));
    }
    var a := ApplyUpdate(db.users[id], body);
    if exists other :: other in db.users && other != id && db.users[other].email == a.email {
      return Thrown(DuplicateKeyError);
    }
    db.PutUser(id, a);
    reply := Success(200, Updated, SanitizeUser(Some((id, WithoutPassword(db.users[id])))));
  }

  /** `deleteUser`: removes the user if there is one, and answers 200 either way. */
  method DeleteUser(db: Db, id: Oid) returns (reply: Reply<()>)
    requires db.Valid()
    modifies db
    ensures db.Valid()
    ensures reply == Success(200, Deleted, ())
    ensures db.users == old(db.users) - {id}
    ensures db.celebrants == old(db.celebrants) && db.events == old(db.events) && db.messages == old(db.messages)
  {
    db.RemoveUser(id);
    reply := Success(200, Deleted, ());
  }

  /** `updateCurrentUser`'s assignments: name and e-mail by `||`, the password only when a truthy one is given. */
  function MergeProfile(a: Account, body: Record): (r: Account)
    ensures r.role == a.role && r.createdAt == a.createdAt
    ensures Truthy(Get(body, "name")) ==> r.name == body["name"]
    ensures !Truthy(Get(body, "name")) ==> r.name == a.name
    ensures Truthy(Get(body, "email")) ==> r.email == body["email"]
    ensures !Truthy(Get(body, "email")) ==> r.email == a.email
    ensures Truthy(Get(body, "password")) ==> r.password == body["password"]
    ensures !Truthy(Get(body, "password")) ==> r.password == a.password
  {
    a.(name := Or(Get(body, "name"), a.name),
       email := Or(Get(body, "email"), a.email),
       password := if Truthy(Get(body, "password")) then body["password"] else a.password)
  }

  /** A profile update cannot change the role, whatever the body holds. */
  lemma ProfileKeepsRole(a: Account, body: Record, role: Value)
    ensures MergeProfile(a, body["role" := role]) == MergeProfile(a, body)
  {
  }

  /**
   * `updateCurrentUser`: 404 when the caller's own record is gone;
   * otherwise the merged profile is saved and returned sanitised. An
   * address another user holds makes the save throw.
   */
  method UpdateCurrentUser(db: Db, caller: Caller, body: Record) returns (reply: Reply<Value>)
    requires db.Valid()
    modifies db
    ensures db.Valid()
    ensures db.celebrants == old(db.celebrants) && db.events == old(db.events) && db.messages == old(db.messages)
    ensures caller.id !in old(db.users) ==> reply == Failure(404, NotFound) && db.users == old(db.users)
    ensures caller.id in old(db.users) ==>
      var a := MergeProfile(old(db.users)[caller.id], body);
      if EmailTaken(old(db.users), Some(caller.id), a.email) then reply == Thrown(DuplicateKeyError) && db.users == old(db.users)
      else reply == Success(200, ProfileUpdated, SanitizeUser(Some((caller.id, a)))) && db.users == old(db.users)[caller.id := a]
  {
    if caller.id !in db.users {
      return Failure(404, NotFound);
    }
    var user := db.users[caller.id];
    user := user.(name := Or(Get(body, "name"), user.name));
    user := user.(email := Or(Get(body, "email"), user.email));
    if Truthy(Get(body, "password")) {
      user := user.(password := body["password"]);
    }
    if exists other :: other in db.users && other != caller.id && db.users[other].email == user.email {
      return Thrown(DuplicateKeyError);
    }
    db.PutUser(caller.id, user);
    reply := Success(200, ProfileUpdated, SanitizeUser(Some((caller.id, user))));
  }
}
