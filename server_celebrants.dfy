/**
 * The celebrant controller of the cookie-session server: listing scoped
 * to the caller unless they are an admin, and get, update and delete
 * behind the owner-or-admin guard, with one 404 for a missing celebrant
 * and for someone else's.
 */
module ServerCelebrants {
  import opened Wrappers
  import opened Js
  import opened ServerStore

  const Listed: string := "Celebrants fetched successfully"
  const Fetched: string := "Celebrant fetched successfully"
  const Created: string := "Celebrant created successfully"
  const Updated: string := "Celebrant updated successfully"
  const Deleted: string := "Celebrant deleted successfully"
  const NotFound: string := "Celebrant not found"

  /** The document `createCelebrant` builds: the six fields from the body, the owner from the session. */
  function NewCelebrant(caller: Caller, body: Record): (c: CelebrantDoc)
    ensures c.user == caller.id
  {
    CelebrantDoc(caller.id, Get(body, "name"), Get(body, "photoUrl"), Get(body, "relationship"),
      Get(body, "favouriteTags"), Get(body, "keyDates"), Get(body, "notes"))
  }

  /** `field = body.field || field` for the six fields; the owner is not among them. */
  function MergeCelebrant(c: CelebrantDoc, body: Record): (r: CelebrantDoc)
    ensures r.user == c.user
  {
    c.(name := Or(Get(body, "name"), c.name),
       photoUrl := Or(Get(body, "photoUrl"), c.photoUrl),
       relationship := Or(Get(body, "relationship"), c.relationship),
       favouriteTags := Or(Get(body, "favouriteTags"), c.favouriteTags),
       keyDates := Or(Get(body, "keyDates"), c.keyDates),
       notes := Or(Get(body, "notes"), c.notes))
  }

  /** The six properties an update reads. */
  const UpdatedFields: set<string> := {"name", "photoUrl", "relationship", "favouriteTags", "keyDates", "notes"}

  /**
   * A field of the merge is the body's value exactly when that value is
   * truthy; otherwise it keeps the stored one.
   */
  lemma MergeTakesTruthy(c: CelebrantDoc, body: Record)
    ensures Truthy(Get(body, "name")) ==> MergeCelebrant(c, body).name == body["name"]
    ensures !Truthy(Get(body, "name")) ==> MergeCelebrant(c, body).name == c.name
    ensures Truthy(Get(body, "relationship")) ==> MergeCelebrant(c, body).relationship == body["relationship"]
    ensures !Truthy(Get(body, "relationship")) ==> MergeCelebrant(c, body).relationship == c.relationship
    ensures Truthy(Get(body, "notes")) ==> MergeCelebrant(c, body).notes == body["notes"]
    ensures !Truthy(Get(body, "notes")) ==> MergeCelebrant(c, body).notes == c.notes
    ensures Truthy(Get(body, "photoUrl")) ==> MergeCelebrant(c, body).photoUrl == body["photoUrl"]
    ensures !Truthy(Get(body, "photoUrl")) ==> MergeCelebrant(c, body).photoUrl == c.photoUrl
    ensures Truthy(Get(body, "favouriteTags")) ==> MergeCelebrant(c, body).favouriteTags == body["favouriteTags"]
    ensures !Truthy(Get(body, "favouriteTags")) ==> MergeCelebrant(c, body).favouriteTags == c.favouriteTags
    ensures Truthy(Get(body, "keyDates")) ==> MergeCelebrant(c, body).keyDates == body["keyDates"]
    ensures !Truthy(Get(body, "keyDates")) ==> MergeCelebrant(c, body).keyDates == c.keyDates
  {
  }

  /** A body with no truthy field among the six leaves a stored celebrant exactly as it is. */
  lemma EmptyUpdateKeeps(c: CelebrantDoc, body: Record)
    requires CelebrantStored(c)
    requires forall k :: k in UpdatedFields ==> !Truthy(Get(body, k))
    ensures SaveCelebrant(MergeCelebrant(c, body)) == Ok(c)
  {
    assert !Truthy(Get(body, "name")) && !Truthy(Get(body, "photoUrl")) && !Truthy(Get(body, "relationship"));
    assert !Truthy(Get(body, "favouriteTags")) && !Truthy(Get(body, "keyDates")) && !Truthy(Get(body, "notes"));
    assert MergeCelebrant(c, body) == c;
    SaveStoredCelebrant(c);
  }

  /** The body cannot choose the owner, on create or on update. */
  lemma BodyCannotSetOwner(caller: Caller, c: CelebrantDoc, body: Record, owner: Value)
    ensures NewCelebrant(caller, body["user" := owner]) == NewCelebrant(caller, body)
    ensures MergeCelebrant(c, body["user" := owner]) == MergeCelebrant(c, body)
  {
  }

  /** The guard on one celebrant: it exists and the caller owns it or is an admin. */
  predicate Visible(celebrants: map<Oid, CelebrantDoc>, caller: Caller, id: Oid) {
    id in celebrants && CanAccess(caller, celebrants[id].user)
  }

  /** The guard is `Find` on the celebrant collection. */
  lemma VisibleIsFind(celebrants: map<Oid, CelebrantDoc>, caller: Caller, id: Oid)
    ensures Visible(celebrants, caller, id) <==> Find(celebrants, CelebrantOwner, caller, id).Some?
  {
  }

  /** `getCelebrants`: every celebrant for an admin, the caller's own for anyone else. */
  method GetCelebrants(db: Db, caller: Caller) returns (reply: Reply<map<Oid, CelebrantDoc>>)
    ensures reply.Success? && reply.status == 200 && reply.message == Listed
    ensures reply.data == Listing(db.celebrants, CelebrantOwner, caller)
    ensures !IsAdmin(caller) ==> forall id :: id in reply.data ==> reply.data[id].user == caller.id
  {
    var query := if IsAdmin(caller) then db.celebrants else OwnedBy(db.celebrants, CelebrantOwner, caller.id);
    reply := Success(200, Listed, query);
  }

  /** `getCelebrantById`: the celebrant when the guard lets the caller see it, else the 404. */
  method GetCelebrantById(db: Db, caller: Caller, id: Oid) returns (reply: Reply<CelebrantDoc>)
    ensures reply.Success? <==> Visible(db.celebrants, caller, id)
    ensures reply.Success? ==> reply == Success(200, Fetched, db.celebrants[id])
    ensures !reply.Success? ==> reply == Failure(404, NotFound)
  {
    if id in db.celebrants && (db.celebrants[id].user == caller.id || caller.role == Str(AdminRole)) {
      reply := Success(200, Fetched, db.celebrants[id]);
    } else {
      reply := Failure(404, NotFound);
    }
  }

  /** `createCelebrant`: saves the new celebrant under a fresh id, owned by the caller; a validation failure is thrown. */
  method CreateCelebrant(db: Db, caller: Caller, body: Record, id: Oid) returns (reply: Reply<CelebrantDoc>)
    requires db.Valid() && id !in db.celebrants
    modifies db
    ensures db.Valid()
    ensures db.users == old(db.users) && db.events == old(db.events) && db.messages == old(db.messages)
    ensures match SaveCelebrant(NewCelebrant(caller, body))
      case Ok(c) => reply == Success(201, Created, c) && db.celebrants == old(db.celebrants)[id := c]
      case Err(e) => reply == Thrown(e) && db.celebrants == old(db.celebrants)
    ensures reply.Success? ==> reply.data.user == caller.id
  {
    var saved := SaveCelebrant(NewCelebrant(caller, body));
    match saved
    case Ok(c) =>
      db.PutCelebrant(id, c);
      reply := Success(201, Created, c);
    case Err(e) =>
      reply := Thrown(e);
  }

  /**
   * `updateCelebrant`: behind the guard, the truthy fields of the body
   * replace the stored ones and the result is saved; the owner never
   * changes.
   */
  method UpdateCelebrant(db: Db, caller: Caller, id: Oid, body: Record) returns (reply: Reply<CelebrantDoc>)
    requires db.Valid()
    modifies db
    ensures db.Valid()
    ensures db.users == old(db.users) && db.events == old(db.events) && db.messages == old(db.messages)
    ensures !Visible(old(db.celebrants), caller, id) ==> reply == Failure(404, NotFound) && db.celebrants == old(db.celebrants)
    ensures Visible(old(db.celebrants), caller, id) ==>
      match SaveCelebrant(MergeCelebrant(old(db.celebrants)[id], body))
      case Ok(d) => reply == Success(200, Updated, d) && db.celebrants == old(db.celebrants)[id := d]
      case Err(e) => reply == Thrown(e) && db.celebrants == old(db.celebrants)
    ensures reply.Success? ==> id in old(db.celebrants) && reply.data.user == old(db.celebrants)[id].user
  {
    if id in db.celebrants && (db.celebrants[id].user == caller.id || caller.role == Str(AdminRole)) {
      var c := db.celebrants[id];
      var saved := SaveCelebrant(MergeCelebrant(c, body));
      match saved
      case Ok(d) =>
        db.PutCelebrant(id, d);
        reply := Success(200, Updated, d);
      case Err(e) =>
        reply := Thrown(e);
    } else {
      reply := Failure(404, NotFound);
    }
  }

  /** `deleteCelebrant`: behind the guard, removes that one celebrant and nothing else. */
  method DeleteCelebrant(db: Db, caller: Caller, id: Oid) returns (reply: Reply<()>)
    requires db.Valid()
    modifies db
    ensures db.Valid()
    ensures db.users == old(db.users) && db.events == old(db.events) && db.messages == old(db.messages)
    ensures Visible(old(db.celebrants), caller, id) ==>
      reply == Success(200, Deleted, ()) && db.celebrants == old(db.celebrants) - {id}
    ensures !Visible(old(db.celebrants), caller, id) ==>
      reply == Failure(404, NotFound) && db.celebrants == old(db.celebrants)
  {
    if id in db.celebrants && (db.celebrants[id].user == caller.id || caller.role == Str(AdminRole)) {
      db.RemoveCelebrant(id);
      reply := Success(200, Deleted, ());
    } else {
      reply := Failure(404, NotFound);
    }
  }
}
