/**
 * The event controller of the cookie-session server: the same scoped
 * listing and owner-or-admin guard as for celebrants, over events.
 */
module ServerEvents {
  import opened Wrappers
  import opened Js
  import opened ServerStore

  const Listed: string := "Events fetched successfully"
  const Fetched: string := "Event fetched successfully"
  const Created: string := "Event created successfully"
  const Updated: string := "Event updated successfully"
  const Deleted: string := "Event deleted successfully"
  const NotFound: string := "Event not found"

  /** The document `createEvent` builds; an absent status takes the schema default. */
  function NewEvent(caller: Caller, body: Record): (e: EventDoc)
    ensures e.user == caller.id
    ensures Get(body, "status").Undefined? ==> e.status == Str(EventStatusName(Upcoming))
  {
    var status := Get(body, "status");
    EventDoc(caller.id, Get(body, "celebrant"), Get(body, "title"), Get(body, "date"),
      Get(body, "reminderSettings"), if status.Undefined? then Str(EventStatusName(Upcoming)) else status)
  }

  /** `field = body.field || field` for title, date, reminder settings and status. */
  function MergeEvent(e: EventDoc, body: Record): (r: EventDoc)
    ensures r.user == e.user && r.celebrant == e.celebrant
  {
    e.(title := Or(Get(body, "title"), e.title),
       date := Or(Get(body, "date"), e.date),
       reminderSettings := Or(Get(body, "reminderSettings"), e.reminderSettings),
       status := Or(Get(body, "status"), e.status))
  }

  /** The four properties an update reads. */
  const UpdatedFields: set<string> := {"title", "date", "reminderSettings", "status"}

  /** A field of the merge is the body's value exactly when that value is truthy. */
  lemma MergeTakesTruthy(e: EventDoc, body: Record)
    ensures Truthy(Get(body, "title")) ==> MergeEvent(e, body).title == body["title"]
    ensures !Truthy(Get(body, "title")) ==> MergeEvent(e, body).title == e.title
    ensures Truthy(Get(body, "status")) ==> MergeEvent(e, body).status == body["status"]
    ensures !Truthy(Get(body, "status")) ==> MergeEvent(e, body).status == e.status
    ensures Truthy(Get(body, "date")) ==> MergeEvent(e, body).date == body["date"]
    ensures !Truthy(Get(body, "date")) ==> MergeEvent(e, body).date == e.date
    ensures Truthy(Get(body, "reminderSettings")) ==> MergeEvent(e, body).reminderSettings == body["reminderSettings"]
    ensures !Truthy(Get(body, "reminderSettings")) ==> MergeEvent(e, body).reminderSettings == e.reminderSettings
  {
  }

  /** A body with no truthy field among the four leaves a stored event exactly as it is. */
  lemma EmptyUpdateKeeps(e: EventDoc, body: Record)
    requires EventStored(e)
    requires forall k :: k in UpdatedFields ==> !Truthy(Get(body, k))
    ensures SaveEvent(MergeEvent(e, body)) == Ok(e)
  {
    assert !Truthy(Get(body, "title")) && !Truthy(Get(body, "date"));
    assert !Truthy(Get(body, "reminderSettings")) && !Truthy(Get(body, "status"));
    assert MergeEvent(e, body) == e;
    SaveStoredEvent(e);
  }

  /** An update cannot move an event to another celebrant or another owner, whatever the body holds. */
  lemma UpdateIgnoresOwnership(e: EventDoc, body: Record, celebrant: Value, owner: Value)
    ensures MergeEvent(e, body["celebrant" := celebrant]["user" := owner]) == MergeEvent(e, body)
  {
  }

  /** The guard on one event: it exists and the caller owns it or is an admin. */
  predicate Visible(events: map<Oid, EventDoc>, caller: Caller, id: Oid) {
    id in events && CanAccess(caller, events[id].user)
  }

  /** The guard is `Find` on the event collection. */
  lemma VisibleIsFind(events: map<Oid, EventDoc>, caller: Caller, id: Oid)
    ensures Visible(events, caller, id) <==> Find(events, EventOwner, caller, id).Some?
  {
  }

  /** `getEvents`: every event for an admin, the caller's own for anyone else. */
  method GetEvents(db: Db, caller: Caller) returns (reply: Reply<map<Oid, EventDoc>>)
    ensures reply.Success? && reply.status == 200 && reply.message == Listed
    ensures reply.data == Listing(db.events, EventOwner, caller)
    ensures !IsAdmin(caller) ==> forall id :: id in reply.data ==> reply.data[id].user == caller.id
  {
    var query := if IsAdmin(caller) then db.events else OwnedBy(db.events, EventOwner, caller.id);
    reply := Success(200, Listed, query);
  }

  /** `getEventById`: the event when the guard lets the caller see it, else the 404. */
  method GetEventById(db: Db, caller: Caller, id: Oid) returns (reply: Reply<EventDoc>)
    ensures reply.Success? <==> Visible(db.events, caller, id)
    ensures reply.Success? ==> reply == Success(200, Fetched, db.events[id])
    ensures !reply.Success? ==> reply == Failure(404, NotFound)
  {
    if id in db.events && (db.events[id].user == caller.id || caller.role == Str(AdminRole)) {
      reply := Success(200, Fetched, db.events[id]);
    } else {
      reply := Failure(404, NotFound);
    }
  }

  /** `createEvent`: saves the new event under a fresh id, owned by the caller; a validation failure is thrown. */
  method CreateEvent(db: Db, caller: Caller, body: Record, id: Oid) returns (reply: Reply<EventDoc>)
    requires db.Valid() && id !in db.events
    modifies db
    ensures db.Valid()
    ensures db.users == old(db.users) && db.celebrants == old(db.celebrants) && db.messages == old(db.messages)
    ensures match SaveEvent(NewEvent(caller, body))
      case Ok(e) => reply == Success(201, Created, e) && db.events == old(db.events)[id := e]
      case Err(err) => reply == Thrown(err) && db.events == old(db.events)
    ensures reply.Success? ==> reply.data.user == caller.id
  {
    var saved := SaveEvent(NewEvent(caller, body));
    match saved
    case Ok(e) =>
      db.PutEvent(id, e);
      reply := Success(201, Created, e);
    case Err(err) =>
      reply := Thrown(err);
  }

  /**
   * `updateEvent`: behind the guard, the truthy fields of the body replace
   * the stored ones and the result is saved; the owner and the celebrant
   * never change.
   */
  method UpdateEvent(db: Db, caller: Caller, id: Oid, body: Record) returns (reply: Reply<EventDoc>)
    requires db.Valid()
    modifies db
    ensures db.Valid()
    ensures db.users == old(db.users) && db.celebrants == old(db.celebrants) && db.messages == old(db.messages)
    ensures !Visible(old(db.events), caller, id) ==> reply == Failure(404, NotFound) && db.events == old(db.events)
    ensures Visible(old(db.events), caller, id) ==>
      match SaveEvent(MergeEvent(old(db.events)[id], body))
      case Ok(d) => reply == Success(200, Updated, d) && db.events == old(db.events)[id := d]
      case Err(err) => reply == Thrown(err) && db.events == old(db.events)
    ensures reply.Success? ==>
      (id in old(db.events) && reply.data.user == old(db.events)[id].user && reply.data.celebrant == old(db.events)[id].celebrant)
  {
    if id in db.events && (db.events[id].user == caller.id || caller.role == Str(AdminRole)) {
      var e := db.events[id];
      var saved := SaveEvent(MergeEvent(e, body));
      match saved
      case Ok(d) =>
        db.PutEvent(id, d);
        reply := Success(200, Updated, d);
      case Err(err) =>
        reply := Thrown(err);
    } else {
      reply := Failure(404, NotFound);
    }
  }

  /** `deleteEvent`: behind the guard, removes that one event and nothing else. */
  method DeleteEvent(db: Db, caller: Caller, id: Oid) returns (reply: Reply<()>)
    requires db.Valid()
    modifies db
    ensures db.Valid()
    ensures db.users == old(db.users) && db.celebrants == old(db.celebrants) && db.messages == old(db.messages)
    ensures Visible(old(db.events), caller, id) ==>
      reply == Success(200, Deleted, ()) && db.events == old(db.events) - {id}
    ensures !Visible(old(db.events), caller, id) ==>
      reply == Failure(404, NotFound) && db.events == old(db.events)
  {
    if id in db.events && (db.events[id].user == caller.id || caller.role == Str(AdminRole)) {
      db.RemoveEvent(id);
      reply := Success(200, Deleted, ());
    } else {
      reply := Failure(404, NotFound);
    }
  }
}
