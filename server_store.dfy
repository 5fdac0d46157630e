/**
 * The collections of the cookie-session server, held in memory: users,
 * celebrants, events and messages by id, the two schemas' casting and
 * validation, and the owner-or-admin guard its controllers share.
 */
module ServerStore {
  import opened Wrappers
  import opened Strings
  import opened Js
  import opened SchemaString

  const AdminRole: string := "admin"
  const DefaultRole: string := "user"

  /** The authenticated user a handler acts for: `req.user._id` and `req.user.role`. */
  datatype Caller = Caller(id: Oid, role: Value)

  predicate IsAdmin(caller: Caller) {
    caller.role == Str(AdminRole)
  }

  /** The guard: the caller owns the document or is an admin. */
  predicate CanAccess(caller: Caller, owner: Oid) {
    owner == caller.id || IsAdmin(caller)
  }

  /**
   * `findById` followed by the guard: the document when it exists and the
   * caller may see it; nothing otherwise, whether it is missing or someone
   * else's.
   */
  function Find<T>(m: map<Oid, T>, ownerOf: T -> Oid, caller: Caller, id: Oid): Option<T> {
    if id in m && CanAccess(caller, ownerOf(m[id])) then Some(m[id]) else None
  }

  /** The documents whose owner is `uid`. */
  function OwnedBy<T>(m: map<Oid, T>, ownerOf: T -> Oid, uid: Oid): (r: map<Oid, T>)
    ensures forall id :: id in r <==> id in m && ownerOf(m[id]) == uid
    ensures forall id :: id in r ==> r[id] == m[id]
  {
    map id | id in m && ownerOf(m[id]) == uid :: m[id]
  }

  /** The list query: `{}` for an admin, `{ user: caller }` for anyone else. */
  function Listing<T>(m: map<Oid, T>, ownerOf: T -> Oid, caller: Caller): map<Oid, T> {
    if IsAdmin(caller) then m else OwnedBy(m, ownerOf, caller.id)
  }

  /** Listing and the guard agree: a document is listed exactly when the caller may fetch it, as it is. */
  lemma ListingAgreesWithFind<T>(m: map<Oid, T>, ownerOf: T -> Oid, caller: Caller, id: Oid)
    ensures id in Listing(m, ownerOf, caller) <==> Find(m, ownerOf, caller, id).Some?
    ensures id in Listing(m, ownerOf, caller) ==> Listing(m, ownerOf, caller)[id] == Find(m, ownerOf, caller, id).value
  {
  }

  /** An admin sees every document; an owner sees each of their own. */
  lemma FindGrants<T>(m: map<Oid, T>, ownerOf: T -> Oid, caller: Caller, id: Oid)
    requires id in m && (IsAdmin(caller) || ownerOf(m[id]) == caller.id)
    ensures Find(m, ownerOf, caller, id) == Some(m[id])
  {
  }

  /**
   * What a caller who is not an admin gets from the guard and from the list
   * query depends on their own documents only: two stores that agree on
   * those answer them alike, so a missing document and someone else's are
   * indistinguishable.
   */
  lemma {:induction false} NonAdminSeesOnlyOwn<T>(m1: map<Oid, T>, m2: map<Oid, T>, ownerOf: T -> Oid, caller: Caller, id: Oid)
    requires !IsAdmin(caller)
    requires OwnedBy(m1, ownerOf, caller.id) == OwnedBy(m2, ownerOf, caller.id)
    ensures Find(m1, ownerOf, caller, id) == Find(m2, ownerOf, caller, id)
    ensures Listing(m1, ownerOf, caller) == Listing(m2, ownerOf, caller)
  {
    var own := OwnedBy(m1, ownerOf, caller.id);
    if id in m1 && ownerOf(m1[id]) == caller.id {
      assert id in own && own[id] == m1[id];
      assert id in m2 && m2[id] == m1[id];
    } else if id in m2 && ownerOf(m2[id]) == caller.id {
      assert id in OwnedBy(m2, ownerOf, caller.id);
      assert id in own;
    }
  }

  /** Removing a document someone else owns changes nothing a caller who is not an admin can observe. */
  lemma UnownedIsInvisible<T>(m: map<Oid, T>, ownerOf: T -> Oid, caller: Caller, other: Oid, id: Oid)
    requires !IsAdmin(caller) && other in m && ownerOf(m[other]) != caller.id
    ensures Find(m, ownerOf, caller, id) == Find(m - {other}, ownerOf, caller, id)
    ensures Listing(m, ownerOf, caller) == Listing(m - {other}, ownerOf, caller)
  {
    assert OwnedBy(m, ownerOf, caller.id) == OwnedBy(m - {other}, ownerOf, caller.id);
    NonAdminSeesOnlyOwn(m, m - {other}, ownerOf, caller, id);
  }

  /** What a controller answers: a status with a message and data, a status with an error message, or a thrown error that no handler catches. */
  datatype Reply<T> = Success(status: int, message: string, data: T) | Failure(status: int, message: string) | Thrown(error: string)

  const ValidationError: string := "ValidationError"
  const DuplicateKeyError: string := "E11000 duplicate key error"

  // ---------------------------------------------------------------- users

  /** A user document; the password is absent (`Undefined`) once `select("-password")` has left it out. */
  datatype Account = Account(name: Value, email: Value, password: Value, role: Value, createdAt: Value, updatedAt: Value)

  /** No two users share an e-mail address: the unique index the user collection relies on. */
  predicate EmailsUnique(users: map<Oid, Account>) {
    forall a, b :: a in users && b in users && a != b ==> users[a].email != users[b].email
  }

  /** Some user other than `self` holds the address. */
  predicate EmailTaken(users: map<Oid, Account>, self: Option<Oid>, email: Value) {
    exists id :: id in users && Some(id) != self && users[id].email == email
  }

  /** `findOne({ email })`: the user holding the address, unique by the index. */
  ghost function UserWithEmail(users: map<Oid, Account>, email: Value): (r: Option<Oid>)
    requires EmailsUnique(users)
    ensures r.None? <==> !EmailTaken(users, None, email)
    ensures r.Some? ==> r.value in users && users[r.value].email == email
  {
    if EmailTaken(users, None, email) then
      var id :| id in users && users[id].email == email; Some(id)
    else None
  }

  /** Writing a user whose address nobody else holds keeps the addresses unique. */
  lemma PutUserKeepsUnique(users: map<Oid, Account>, id: Oid, a: Account)
    requires EmailsUnique(users) && !EmailTaken(users, Some(id), a.email)
    ensures EmailsUnique(users[id := a])
  {
    var m := users[id := a];
    forall x, y | x in m && y in m && x != y ensures m[x].email != m[y].email {
      if x == id {
        assert y in users && Some(y) != Some(id);
      } else if y == id {
        assert x in users && Some(x) != Some(id);
      }
    }
  }

  // ---------------------------------------------------------- celebrants

  /** The `type` of a key date. */
  datatype KeyDateType = Birthday | Anniversary | Wedding | NamingCeremony | Holiday

  function KeyDateTypeName(t: KeyDateType): string {
    match t
    case Birthday => "Birthday"
    case Anniversary => "Anniversary"
    case Wedding => "Wedding"
    case NamingCeremony => "Naming Ceremony"
    case Holiday => "Holiday"
  }

  /** The `enum` of the key-date type path. */
  function ParseKeyDateType(s: string): (r: Option<KeyDateType>)
    ensures r.Some? ==> KeyDateTypeName(r.value) == s
  {
    if s == "Birthday" then Some(Birthday)
    else if s == "Anniversary" then Some(Anniversary)
    else if s == "Wedding" then Some(Wedding)
    else if s == "Naming Ceremony" then Some(NamingCeremony)
    else if s == "Holiday" then Some(Holiday)
    else None
  }

  /** Every key-date type is accepted under its own name. */
  lemma KeyDateTypeRoundTrip(t: KeyDateType)
    ensures ParseKeyDateType(KeyDateTypeName(t)) == Some(t)
  {
  }

  /** A celebrant document. */
  datatype CelebrantDoc = CelebrantDoc(
    user: Oid,
    name: Value,
    photoUrl: Value,
    relationship: Value,
    favouriteTags: Value,
    keyDates: Value,
    notes: Value)

  /** A `required` path that is not a string: present and not null. */
  predicate Present(v: Value) {
    !v.Undefined? && !v.Null?
  }

  /** One key-date subdocument: a listed type and a date. */
  predicate KeyDateValid(v: Value) {
    v.Obj? && Get(v.fields, "type").Str? && ParseKeyDateType(Get(v.fields, "type").s).Some? && Present(Get(v.fields, "date"))
  }

  predicate KeyDatesValid(v: Value) {
    !v.Arr? || forall i :: 0 <= i < |v.items| ==> KeyDateValid(v.items[i])
  }

  /** A celebrant as saving leaves it: the name trimmed and present, a relationship, valid key dates. */
  predicate CelebrantStored(c: CelebrantDoc) {
    RequiredString(c.name) && Trim(c.name.s) == c.name.s && RequiredString(c.relationship) && KeyDatesValid(c.keyDates)
  }

  /** `celebrant.save()`: the name trimmed by its setter, then the validators. */
  function SaveCelebrant(c: CelebrantDoc): (r: Result<CelebrantDoc, string>)
    ensures r.Ok? ==> CelebrantStored(r.value) && r.value == c.(name := r.value.name)
    ensures r.Ok? <==> c.name.Str? && Trim(c.name.s) != "" && RequiredString(c.relationship) && KeyDatesValid(c.keyDates)
  {
    var d := c.(name := TrimValue(c.name));
    if RequiredString(d.name) && RequiredString(d.relationship) && KeyDatesValid(d.keyDates) then
      TrimIdempotent(c.name.s);
      Ok(d)
    else Err(ValidationError)
  }

  /** Saving a stored celebrant again leaves it as it is. */
  lemma SaveStoredCelebrant(c: CelebrantDoc)
    requires CelebrantStored(c)
    ensures SaveCelebrant(c) == Ok(c)
  {
  }

  // -------------------------------------------------------------- events

  /** The `status` of an event. */
  datatype EventStatus = Upcoming | Past | Cancelled

  function EventStatusName(s: EventStatus): string {
    match s
    case Upcoming => "upcoming"
    case Past => "past"
    case Cancelled => "cancelled"
  }

  /** The `enum` of the status path. */
  function ParseEventStatus(s: string): (r: Option<EventStatus>)
    ensures r.Some? ==> EventStatusName(r.value) == s
  {
    if s == "upcoming" then Some(Upcoming)
    else if s == "past" then Some(Past)
    else if s == "cancelled" then Some(Cancelled)
    else None
  }

  lemma EventStatusRoundTrip(s: EventStatus)
    ensures ParseEventStatus(EventStatusName(s)) == Some(s)
  {
  }

  /** An event document. */
  datatype EventDoc = EventDoc(
    user: Oid,
    celebrant: Value,
    title: Value,
    date: Value,
    reminderSettings: Value,
    status: Value)

  /** The `enum` validator skips an absent or null value. */
  predicate StatusAllowed(v: Value) {
    !Present(v) || (v.Str? && ParseEventStatus(v.s).Some?)
  }

  /** An event as saving leaves it: a celebrant, a trimmed title, a date, an allowed status. */
  predicate EventStored(e: EventDoc) {
    Present(e.celebrant) && RequiredString(e.title) && Trim(e.title.s) == e.title.s && Present(e.date) && StatusAllowed(e.status)
  }

  /** `event.save()`: the title trimmed by its setter, then the validators. */
  function SaveEvent(e: EventDoc): (r: Result<EventDoc, string>)
    ensures r.Ok? ==> EventStored(r.value) && r.value == e.(title := r.value.title)
    ensures r.Ok? <==> Present(e.celebrant) && e.title.Str? && Trim(e.title.s) != "" && Present(e.date) && StatusAllowed(e.status)
  {
    var d := e.(title := TrimValue(e.title));
    if Present(d.celebrant) && RequiredString(d.title) && Present(d.date) && StatusAllowed(d.status) then
      TrimIdempotent(e.title.s);
      Ok(d)
    else Err(ValidationError)
  }

  /** Saving a stored event again leaves it as it is. */
  lemma SaveStoredEvent(e: EventDoc)
    requires EventStored(e)
    ensures SaveEvent(e) == Ok(e)
  {
  }

  // ------------------------------------------------------------ messages

  /** A message document: its author, the event it belongs to, its text. */
  datatype MessageDoc = MessageDoc(user: Oid, event: Oid, content: Value)

  function CelebrantOwner(c: CelebrantDoc): Oid { c.user }
  function EventOwner(e: EventDoc): Oid { e.user }
  function MessageOwner(m: MessageDoc): Oid { m.user }

  // --------------------------------------------------------------- store

  /** The four collections. */
  class Db {
    var users: map<Oid, Account>
    var celebrants: map<Oid, CelebrantDoc>
    var events: map<Oid, EventDoc>
    var messages: map<Oid, MessageDoc>

    /** E-mail addresses are unique, and every celebrant and event passed its schema on save. */
    predicate Valid()
      reads this
    {
      && EmailsUnique(users)
      && (forall id :: id in celebrants ==> CelebrantStored(celebrants[id]))
      && (forall id :: id in events ==> EventStored(events[id]))
    }

    constructor ()
      ensures Valid()
      ensures users == map[] && celebrants == map[] && events == map[] && messages == map[]
    {
      users, celebrants, events, messages := map[], map[], map[], map[];
    }

    /** Inserting or overwriting a user whose address nobody else holds. */
    method PutUser(id: Oid, a: Account)
      requires Valid() && !EmailTaken(users, Some(id), a.email)
      modifies this
      ensures Valid()
      ensures users == old(users)[id := a]
      ensures celebrants == old(celebrants) && events == old(events) && messages == old(messages)
    {
      PutUserKeepsUnique(users, id, a);
      users := users[id := a];
    }

    method RemoveUser(id: Oid)
      requires Valid()
      modifies this
      ensures Valid()
      ensures users == old(users) - {id}
      ensures celebrants == old(celebrants) && events == old(events) && messages == old(messages)
    {
      users := users - {id};
    }

    method PutCelebrant(id: Oid, c: CelebrantDoc)
      requires Valid() && CelebrantStored(c)
      modifies this
      ensures Valid()
      ensures celebrants == old(celebrants)[id := c]
      ensures users == old(users) && events == old(events) && messages == old(messages)
    {
      celebrants := celebrants[id := c];
    }

    method RemoveCelebrant(id: Oid)
      requires Valid()
      modifies this
      ensures Valid()
      ensures celebrants == old(celebrants) - {id}
      ensures users == old(users) && events == old(events) && messages == old(messages)
    {
      celebrants := celebrants - {id};
    }

    method PutEvent(id: Oid, e: EventDoc)
      requires Valid() && EventStored(e)
      modifies this
      ensures Valid()
      ensures events == old(events)[id := e]
      ensures users == old(users) && celebrants == old(celebrants) && messages == old(messages)
    {
      events := events[id := e];
    }

    method RemoveEvent(id: Oid)
      requires Valid()
      modifies this
      ensures Valid()
      ensures events == old(events) - {id}
      ensures users == old(users) && celebrants == old(celebrants) && messages == old(messages)
    {
      events := events - {id};
    }

    method PutMessage(id: Oid, m: MessageDoc)
      requires Valid()
      modifies this
      ensures Valid()
      ensures messages == old(messages)[id := m]
      ensures users == old(users) && celebrants == old(celebrants) && events == old(events)
    {
      messages := messages[id := m];
    }

    method RemoveMessage(id: Oid)
      requires Valid()
      modifies this
      ensures Valid()
      ensures messages == old(messages) - {id}
      ensures users == old(users) && celebrants == old(celebrants) && events == old(events)
    {
      messages := messages - {id};
    }
  }
}
