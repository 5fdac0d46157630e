/**
 * The user document of the JWT backend: its string paths and their
 * validators, the `fullName` virtual, the pre-save hook that hashes the
 * password only when it was modified, `comparePassword`, `toSafeObject`
 * and the `findByEmailWithPassword` lookup. bcrypt is symbolic: a hash
 * records what it hashed and with which salt, and the salt is an input.
 */
module UserSchema {
  import opened Wrappers
  import opened Strings
  import opened Js
  import opened SchemaString

  /** A password as bcrypt sees it: the text typed, or a hash of a secret under a salt. */
  datatype Secret = Plain(text: string) | Hashed(inner: Secret, salt: nat)

  /** Every bcrypt hash is a 60-character string. */
  const HashLength: nat := 60

  /** The length of the stored string in UTF-16 code units, which is what `minlength` measures. */
  function SecretLength(s: Secret): nat {
    match s
    case Plain(t) => CodeUnits(t)
    case Hashed(_, _) => HashLength
  }

  /** `bcrypt.hash(secret, salt)`. */
  function Hash(s: Secret, salt: nat): Secret {
    Hashed(s, salt)
  }

  /** `bcrypt.compare(candidate, stored)`: the stored value is a hash of exactly the candidate text. */
  predicate Compare(candidate: string, stored: Secret) {
    stored.Hashed? && stored.inner == Plain(candidate)
  }

  /** A hash accepts the text it was made from and nothing else; a hash of a hash accepts no text at all. */
  lemma CompareHash(candidate: string, text: string, salt: nat, salt2: nat)
    ensures Compare(candidate, Hash(Plain(text), salt)) <==> candidate == text
    ensures !Compare(candidate, Hash(Hash(Plain(text), salt), salt2))
    ensures !Compare(candidate, Plain(text))
  {
  }

  /** The default query leaves the password out (`select: false`). */
  datatype User = User(
    id: Oid,
    firstName: Value,
    lastName: Value,
    email: Value,
    password: Option<Secret>,
    isActive: bool,
    version: nat)

  /** `new User({...})`: the setters run on assignment, and `isActive` defaults to true. */
  function FromInput(id: Oid, firstName: Value, lastName: Value, email: Value, password: Value, isActive: Option<bool>): (u: User)
    ensures u.id == id && u.version == 0
    ensures u.firstName == TrimValue(firstName) && u.lastName == TrimValue(lastName)
    ensures u.email == LowerTrimValue(email)
    ensures u.password.Some? <==> password.Str?
    ensures password.Str? ==> u.password == Some(Plain(password.s))
    ensures u.isActive == isActive.GetOr(true)
  {
    User(id, TrimValue(firstName), TrimValue(lastName), LowerTrimValue(email),
      if password.Str? then Some(Plain(password.s)) else None,
      isActive.GetOr(true), 0)
  }

  /** The schema's validators: both names required and at most 50 long, the e-mail required and matching, the password required and at least 6 long. */
  predicate Valid(u: User) {
    && RequiredString(u.firstName) && CodeUnits(u.firstName.s) <= 50
    && RequiredString(u.lastName) && CodeUnits(u.lastName.s) <= 50
    && RequiredString(u.email) && EmailMatch(u.email)
    && u.password.Some? && SecretLength(u.password.value) >= 6
  }

  /** A valid e-mail is a non-empty string the pattern accepts. */
  lemma ValidEmail(u: User)
    requires Valid(u)
    ensures u.email.Str? && EmailRegex.Matches(u.email.s)
  {
  }

  /**
   * A password of at least 6 code units passes, so 6 characters always do
   * and 3 characters outside the Basic Multilingual Plane already do; once
   * hashed, any password passes the length rule.
   */
  lemma PasswordLengthRule(u: User, salt: nat)
    requires u.password.Some?
    ensures u.password.value.Plain? ==> (SecretLength(u.password.value) >= 6 <==> CodeUnits(u.password.value.text) >= 6)
    ensures u.password.value.Plain? && |u.password.value.text| >= 6 ==> SecretLength(u.password.value) >= 6
    ensures u.password.value.Plain? && |u.password.value.text| < 3 ==> SecretLength(u.password.value) < 6
    ensures SecretLength(Hash(u.password.value, salt)) >= 6
  {
  }

  /**
   * The pre-save hook. When the password was not modified it is left
   * alone; otherwise it is replaced by its hash under a fresh salt.
   */
  function PreSave(u: User, passwordModified: bool, salt: nat): (r: User)
    ensures r.(password := u.password) == u
    ensures !passwordModified || u.password.None? ==> r.password == u.password
    ensures passwordModified && u.password.Some? ==> r.password == Some(Hash(u.password.value, salt))
  {
    if passwordModified && u.password.Some? then u.(password := Some(Hash(u.password.value, salt))) else u
  }

  /**
   * Successive successful saves of one document: the first with the
   * password marked modified, every later one without.
   */
  function SaveAll(u: User, passwordModified: bool, salts: seq<nat>): User
    decreases |salts|
  {
    if salts == [] then u else SaveAll(PreSave(u, passwordModified, salts[0]), false, salts[1..])
  }

  /** A password set once still logs in after any number of later saves: it is hashed exactly once. */
  lemma {:induction false} LoginSurvivesSaves(text: string, u: User, salts: seq<nat>)
    requires u.password == Some(Plain(text)) && |salts| >= 1
    ensures SaveAll(u, true, salts).password.Some?
    ensures Compare(text, SaveAll(u, true, salts).password.value)
  {
    var v := PreSave(u, true, salts[0]);
    assert Compare(text, v.password.value);
    SavesKeepPassword(v, salts[1..]);
  }

  /** Saves with an unmodified password never touch it. */
  lemma {:induction false} SavesKeepPassword(u: User, salts: seq<nat>)
    ensures SaveAll(u, false, salts).password == u.password
    ensures SaveAll(u, false, salts).(password := u.password) == u
    decreases |salts|
  {
    if salts != [] {
      SavesKeepPassword(PreSave(u, false, salts[0]), salts[1..]);
    }
  }

  /** Without the `isModified` guard a second save would hash the hash, and the user could no longer log in. */
  lemma UnguardedHashBreaksLogin(text: string, u: User, salt1: nat, salt2: nat)
    requires u.password == Some(Plain(text))
    ensures !Compare(text, PreSave(PreSave(u, true, salt1), true, salt2).password.value)
  {
  }

  /** bcrypt's rejection of a missing hash. */
  const IllegalArguments: string := "Illegal arguments: string, undefined"

  /** A user document as Mongoose tracks it: the current values and whether the password path was modified. */
  class UserDocument {
    var data: User
    var passwordModified: bool

    /** A new document: every path it was given counts as modified. */
    constructor (id: Oid, firstName: Value, lastName: Value, email: Value, password: Value, isActive: Option<bool>)
      ensures data == FromInput(id, firstName, lastName, email, password, isActive)
      ensures passwordModified
    {
      data := FromInput(id, firstName, lastName, email, password, isActive);
      passwordModified := true;
    }

    /** `user.password = text`. */
    method SetPassword(text: string)
      modifies this
      ensures data == old(data).(password := Some(Plain(text)))
      ensures passwordModified
    {
      data := data.(password := Some(Plain(text)));
      passwordModified := true;
    }

    /**
     * `save()`: validation comes first and a failure leaves the document
     * as it was; then the pre-save hook runs and the document is clean.
     */
    method Save(salt: nat) returns (r: Result<(), string>)
      modifies this
      ensures r.Ok? <==> Valid(old(data))
      ensures r.Err? ==> data == old(data) && passwordModified == old(passwordModified)
      ensures r.Ok? ==> data == PreSave(old(data), old(passwordModified), salt) && !passwordModified
    {
      if !Valid(data) {
        return Err("ValidationError");
      }
      if passwordModified && data.password.Some? {
        data := data.(password := Some(Hash(data.password.value, salt)));
      }
      passwordModified := false;
      return Ok(());
    }

    /**
     * `comparePassword`: bcrypt's answer for a loaded password. When the
     * password was not selected, bcrypt rejects its arguments and the call
     * throws.
     */
    function ComparePassword(candidate: string): (r: Result<bool, string>)
      reads this
      ensures r.Err? <==> data.password.None?
      ensures r.Err? ==> r.error == IllegalArguments
      ensures r.Ok? ==> (r.value <==> Compare(candidate, data.password.value))
    {
      if data.password.Some? then Ok(Compare(candidate, data.password.value)) else Err(IllegalArguments)
    }
  }

  /** The `fullName` virtual: the two names as a template literal prints them, joined by one space. */
  function FullName(u: User): (r: string)
    ensures |r| == |ToString(u.firstName)| + 1 + |ToString(u.lastName)|
    ensures r[..|ToString(u.firstName)|] == ToString(u.firstName)
    ensures r[|ToString(u.firstName)|] == ' '
    ensures r[|ToString(u.firstName)| + 1..] == ToString(u.lastName)
  {
    ToString(u.firstName) + " " + ToString(u.lastName)
  }

  /** When the first name has no space, the first space of the full name separates the two names again. */
  lemma FullNameSplits(u: User)
    requires ' ' !in ToString(u.firstName)
    ensures ' ' in FullName(u)
    ensures IndexOf(FullName(u), ' ') == |ToString(u.firstName)|
    ensures FullName(u)[..IndexOf(FullName(u), ' ')] == ToString(u.firstName)
    ensures FullName(u)[IndexOf(FullName(u), ' ') + 1..] == ToString(u.lastName)
  {
    var f := ToString(u.firstName);
    var r := FullName(u);
    assert r[..|f|] == f;
    IndexOfFirst(r, ' ', |f|);
  }

  /**
   * `toObject()` with the schema's `virtuals: true`: the stored paths
   * that are set, the version key, and the `id` and `fullName` virtuals;
   * the password only when it was loaded.
   */
  function ToObject(u: User): (r: Record)
    ensures ("password" in r) <==> u.password.Some?
  {
    var base := map[
      "_id" := Num(u.id), "id" := Str(NatToString(u.id)), "isActive" := Bool(u.isActive),
      "__v" := Num(u.version), "fullName" := Str(FullName(u))];
    var named := PutDefined(PutDefined(PutDefined(base, "firstName", u.firstName), "lastName", u.lastName), "email", u.email);
    if u.password.Some? then named["password" := Str(SecretText(u.password.value))] else named
  }

  /** The stored password string: the text itself, or a symbolic stand-in for bcrypt's output. */
  function SecretText(s: Secret): string {
    match s
    case Plain(t) => t
    case Hashed(inner, salt) => "$2a$12$" + NatToString(salt) + "$" + SecretText(inner)
  }

  /** `toSafeObject`: every property of `toObject()` except `password` and `__v`, unchanged. */
  function ToSafeObject(u: User): (r: Record)
    ensures "password" !in r && "__v" !in r
    ensures forall k :: k in ToObject(u) && k != "password" && k != "__v" ==> k in r && r[k] == ToObject(u)[k]
    ensures forall k :: k in r ==> k in ToObject(u)
  {
    Omit(ToObject(u), {"password", "__v"})
  }

  /** The object carries the stored names and e-mail of a valid user, and its identity. */
  lemma ObjectHasProfile(u: User)
    requires Valid(u)
    ensures "email" in ToObject(u) && ToObject(u)["email"] == u.email
    ensures "firstName" in ToObject(u) && ToObject(u)["firstName"] == u.firstName
    ensures "lastName" in ToObject(u) && ToObject(u)["lastName"] == u.lastName
    ensures "_id" in ToObject(u) && ToObject(u)["_id"] == Num(u.id)
  {
  }

  /** The safe object keeps the identity, the names and the e-mail of a valid user. */
  lemma SafeObjectKeepsProfile(u: User)
    requires Valid(u)
    ensures Get(ToSafeObject(u), "email") == u.email
    ensures Get(ToSafeObject(u), "firstName") == u.firstName && Get(ToSafeObject(u), "lastName") == u.lastName
    ensures Get(ToSafeObject(u), "_id") == Num(u.id)
  {
    ObjectHasProfile(u);
  }

  /** `select: false`: a default query returns the document without its password. */
  function Selected(u: User, withPassword: bool): User {
    if withPassword then u else u.(password := None)
  }

  /**
   * `findOne({ email })` over the collection in its natural order. The
   * query value goes through the same `lowercase` and `trim` setters as
   * the stored path.
   */
  function FindOne(users: seq<User>, email: Value, withPassword: bool): (r: Option<User>)
    ensures r.None? <==> forall i :: 0 <= i < |users| ==> users[i].email != LowerTrimValue(email)
    ensures r.Some? ==> exists i :: (0 <= i < |users| && users[i].email == LowerTrimValue(email) && r.value == Selected(users[i], withPassword)
      && forall j :: 0 <= j < i ==> users[j].email != LowerTrimValue(email))
  {
    if users == [] then None
    else if users[0].email == LowerTrimValue(email) then Some(Selected(users[0], withPassword))
    else
      var rest := FindOne(users[1..], email, withPassword);
      if rest.Some? then
        ghost var i :| (0 <= i < |users| - 1 && users[1..][i].email == LowerTrimValue(email) && rest.value == Selected(users[1..][i], withPassword)
          && forall j :: 0 <= j < i ==> users[1..][j].email != LowerTrimValue(email));
        assert users[i + 1].email == LowerTrimValue(email);
        rest
      else rest
  }

  /** `findByEmailWithPassword`: the same lookup with the password selected back in. */
  function FindByEmailWithPassword(users: seq<User>, email: Value): Option<User> {
    FindOne(users, email, true)
  }

  /** No two stored users share an e-mail: the `unique` index. */
  predicate EmailsUnique(users: seq<User>) {
    forall i, j :: 0 <= i < j < |users| ==> users[i].email != users[j].email
  }

  /** With unique e-mails, the lookup by a user's own e-mail finds exactly that user, password included; the default lookup finds it without. */
  lemma FindOwnEmail(users: seq<User>, k: nat)
    requires EmailsUnique(users) && k < |users|
    requires LowerTrimValue(users[k].email) == users[k].email
    ensures FindByEmailWithPassword(users, users[k].email) == Some(users[k])
    ensures FindOne(users, users[k].email, false) == Some(users[k].(password := None))
  {
  }

  /** Spelling the e-mail with different case or surrounding white space finds the same user. */
  lemma FindIgnoresCaseAndSpace(users: seq<User>, email: string)
    ensures FindByEmailWithPassword(users, Str(email)) == FindByEmailWithPassword(users, LowerTrimValue(Str(email)))
  {
    LowerTrimValueIdempotent(Str(email));
  }

  /**
   * `User.create`: validate, hash the new password, then insert; the
   * unique index refuses a second document with the same e-mail.
   */
  function Create(users: seq<User>, u: User, salt: nat): (r: Result<seq<User>, string>)
    ensures r.Ok? <==> Valid(u) && forall i :: 0 <= i < |users| ==> users[i].email != u.email
    ensures r.Ok? ==> r.value == users + [PreSave(u, true, salt)]
  {
    if !Valid(u) then Err("ValidationError")
    else if exists i :: 0 <= i < |users| && users[i].email == u.email then Err("E11000 duplicate key error")
    else Ok(users + [PreSave(u, true, salt)])
  }

  /** Creating keeps the e-mails unique. */
  lemma CreateKeepsUnique(users: seq<User>, u: User, salt: nat)
    requires EmailsUnique(users) && Create(users, u, salt).Ok?
    ensures EmailsUnique(Create(users, u, salt).value)
  {
  }

  /** A user created from a sign-up form can log in with the password typed, looking it up by the e-mail typed. */
  lemma {:induction false} CreatedUserCanLogIn(users: seq<User>, u: User, email: string, password: string, salt: nat)
    requires EmailsUnique(users)
    requires u.email == LowerTrimValue(Str(email)) && u.password == Some(Plain(password))
    requires Create(users, u, salt).Ok?
    ensures FindByEmailWithPassword(Create(users, u, salt).value, Str(email)).Some?
    ensures FindByEmailWithPassword(Create(users, u, salt).value, Str(email)).value.id == u.id
    ensures Compare(password, FindByEmailWithPassword(Create(users, u, salt).value, Str(email)).value.password.value)
  {
    var stored := Create(users, u, salt).value;
    CreateKeepsUnique(users, u, salt);
    LowerTrimValueIdempotent(Str(email));
    FindOwnEmail(stored, |users|);
  }
}
