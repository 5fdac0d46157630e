/**
 * The collections of the JWT backend, held in memory: celebrants and
 * events by id, with the event schema's casting and validation, the
 * invariants the route handlers keep, and the pagination arithmetic the
 * two listing routes share.
 */
module BackendStore {
  import opened Wrappers
  import opened Strings
  import opened Js
  import opened SchemaString
  import CelebrantSchema

  const EventStatuses: seq<string> := ["upcoming", "completed", "cancelled"]
  const DefaultStatus: string := "upcoming"

  /** An event document. `celebrantId` is an optional reference to a celebrant. */
  datatype EventDoc = EventDoc(
    userId: Oid,
    event: Value,
    celebrant: Value,
    celebrantId: Option<Oid>,
    date: Value,
    message: Value,
    status: Value)

  /** The event schema's setters: `event`, `celebrant` and `message` are trimmed. */
  function CastEvent(e: EventDoc): EventDoc {
    e.(event := TrimValue(e.event), celebrant := TrimValue(e.celebrant), message := TrimValue(e.message))
  }

  /** The event schema's validators, on a cast document. */
  predicate ValidEvent(e: EventDoc) {
    && RequiredString(e.event) && RequiredString(e.celebrant) && RequiredString(e.date) && RequiredString(e.message)
    && StatusValid(e.status)
  }

  /** The `enum` validator of the status path; a path that is not required may be absent. */
  predicate StatusValid(v: Value) {
    v.Undefined? || (v.Str? && v.s in EventStatuses)
  }

  /** Saving an event: cast, then validate. */
  function AdmitEvent(e: EventDoc): Result<EventDoc, string> {
    var d := CastEvent(e);
    if ValidEvent(d) then Ok(d) else Err("Validation failed")
  }

  /** Saving a stored event again changes nothing. */
  lemma AdmitEventIdempotent(e: EventDoc)
    requires AdmitEvent(e).Ok?
    ensures AdmitEvent(AdmitEvent(e).value) == AdmitEvent(e)
  {
    TrimValueIdempotent(e.event);
    TrimValueIdempotent(e.celebrant);
    TrimValueIdempotent(e.message);
  }

  /** What a handler answers: a status with data, or a status with an error message. */
  datatype Reply<T> = Success(status: int, data: T) | Failure(status: int, message: string)

  /** A celebrant as saving can leave it: every validator of the schema holds. */
  predicate CelebrantStored(c: CelebrantSchema.Celebrant) {
    CelebrantSchema.Valid(c)
  }

  /** An event as saving can leave it: every validator of the schema holds. */
  predicate EventStored(e: EventDoc) {
    ValidEvent(e)
  }

  /** Every stored celebrant passes the schema's validators. */
  predicate CelebrantsAdmitted(celebrants: map<Oid, CelebrantSchema.Celebrant>) {
    forall id :: id in celebrants ==> CelebrantStored(celebrants[id])
  }

  /** Every stored event passes the schema's validators. */
  predicate EventsAdmitted(events: map<Oid, EventDoc>) {
    forall id :: id in events ==> EventStored(events[id])
  }

  /** Whether `owner` has a celebrant called `name`, other than `except`. */
  predicate NameTaken(celebrants: map<Oid, CelebrantSchema.Celebrant>, owner: Oid, name: Value, except: Option<Oid>) {
    exists id :: id in celebrants && except != Some(id) && celebrants[id].userId == owner && celebrants[id].name == name
  }

  /** No owner has two celebrants with the same name. */
  predicate NamesUnique(celebrants: map<Oid, CelebrantSchema.Celebrant>) {
    forall id :: id in celebrants ==> !NameTaken(celebrants, celebrants[id].userId, celebrants[id].name, Some(id))
  }

  /** Every event's celebrant reference names a celebrant of the event's owner. */
  predicate References(celebrants: map<Oid, CelebrantSchema.Celebrant>, events: map<Oid, EventDoc>) {
    forall id :: id in events && events[id].celebrantId.Some? ==> ReferenceOwned(celebrants, events[id])
  }

  /** An event's reference, if any, names a celebrant of the event's owner. */
  predicate ReferenceOwned(celebrants: map<Oid, CelebrantSchema.Celebrant>, e: EventDoc) {
    e.celebrantId.Some? ==> e.celebrantId.value in celebrants && celebrants[e.celebrantId.value].userId == e.userId
  }

  /** What every route handler keeps. */
  predicate ValidState(celebrants: map<Oid, CelebrantSchema.Celebrant>, events: map<Oid, EventDoc>) {
    CelebrantsAdmitted(celebrants) && EventsAdmitted(events) && NamesUnique(celebrants) && References(celebrants, events)
  }

  /** The events of `owner` that reference celebrant `id`. */
  function EventsOf(events: map<Oid, EventDoc>, owner: Oid, id: Oid): (r: set<Oid>)
    ensures forall e :: e in r <==> e in events && events[e].celebrantId == Some(id) && events[e].userId == owner
  {
    set e | e in events && events[e].celebrantId == Some(id) && events[e].userId == owner
  }

  /** Every event, of any owner, that references celebrant `id`. */
  function EventsReferencing(events: map<Oid, EventDoc>, id: Oid): (r: set<Oid>)
    ensures forall e :: e in r <==> e in events && events[e].celebrantId == Some(id)
  {
    set e | e in events && events[e].celebrantId == Some(id)
  }

  /** Under the reference invariant only a celebrant's owner has events that reference it. */
  lemma ReferencesOnlyByOwner(celebrants: map<Oid, CelebrantSchema.Celebrant>, events: map<Oid, EventDoc>, id: Oid)
    requires References(celebrants, events) && id in celebrants
    ensures EventsReferencing(events, id) == EventsOf(events, celebrants[id].userId, id)
  {
    forall e | e in EventsReferencing(events, id) ensures e in EventsOf(events, celebrants[id].userId, id) {
      assert ReferenceOwned(celebrants, events[e]);
    }
  }

  /** Saving a new, admitted celebrant under a fresh id, with a name its owner does not use yet, keeps the invariant. */
  lemma InsertKeepsValid(celebrants: map<Oid, CelebrantSchema.Celebrant>, events: map<Oid, EventDoc>, newId: Oid, d: CelebrantSchema.Celebrant)
    requires ValidState(celebrants, events) && newId !in celebrants
    requires CelebrantStored(d) && !NameTaken(celebrants, d.userId, d.name, None)
    ensures ValidState(celebrants[newId := d], events)
  {
    AdmittedAfterPut(celebrants, newId, d);
    UniqueAfterInsert(celebrants, newId, d);
    ReferencesAfterGrow(celebrants, events, newId, d);
  }

  /** Replacing a celebrant by an admitted document of the same owner, with a name no other of its celebrants has, keeps the invariant. */
  lemma ReplaceKeepsValid(celebrants: map<Oid, CelebrantSchema.Celebrant>, events: map<Oid, EventDoc>, id: Oid, d: CelebrantSchema.Celebrant)
    requires ValidState(celebrants, events) && id in celebrants && d.userId == celebrants[id].userId
    requires CelebrantStored(d) && !NameTaken(celebrants, d.userId, d.name, Some(id))
    ensures ValidState(celebrants[id := d], events)
  {
    AdmittedAfterPut(celebrants, id, d);
    UniqueAfterReplace(celebrants, id, d);
    ReferencesAfterGrow(celebrants, events, id, d);
  }

  /** Removing a celebrant no event references keeps the invariant. */
  lemma RemoveKeepsValid(celebrants: map<Oid, CelebrantSchema.Celebrant>, events: map<Oid, EventDoc>, id: Oid)
    requires ValidState(celebrants, events) && EventsReferencing(events, id) == {}
    ensures ValidState(celebrants - {id}, events)
  {
    AdmittedAfterRemove(celebrants, id);
    UniqueAfterRemove(celebrants, id);
    ReferencesAfterRemove(celebrants, events, id);
  }

  /** Storing an admitted event whose reference, if any, is to one of its owner's celebrants keeps the invariant. */
  lemma PutEventKeepsValid(celebrants: map<Oid, CelebrantSchema.Celebrant>, events: map<Oid, EventDoc>, id: Oid, e: EventDoc)
    requires ValidState(celebrants, events)
    requires EventStored(e) && ReferenceOwned(celebrants, e)
    ensures ValidState(celebrants, events[id := e])
  {
    EventsAdmittedAfterPut(events, id, e);
    ReferencesAfterPutEvent(celebrants, events, id, e);
  }

  /** Removing an event keeps the invariant. */
  lemma RemoveEventKeepsValid(celebrants: map<Oid, CelebrantSchema.Celebrant>, events: map<Oid, EventDoc>, id: Oid)
    requires ValidState(celebrants, events)
    ensures ValidState(celebrants, events - {id})
  {
    EventsAdmittedAfterRemove(events, id);
    ReferencesAfterRemoveEvent(celebrants, events, id);
  }

  lemma AdmittedAfterPut(celebrants: map<Oid, CelebrantSchema.Celebrant>, id: Oid, d: CelebrantSchema.Celebrant)
    requires CelebrantsAdmitted(celebrants) && CelebrantStored(d)
    ensures CelebrantsAdmitted(celebrants[id := d])
  {
  }

  lemma AdmittedAfterRemove(celebrants: map<Oid, CelebrantSchema.Celebrant>, id: Oid)
    requires CelebrantsAdmitted(celebrants)
    ensures CelebrantsAdmitted(celebrants - {id})
  {
  }

  lemma EventsAdmittedAfterPut(events: map<Oid, EventDoc>, id: Oid, e: EventDoc)
    requires EventsAdmitted(events) && EventStored(e)
    ensures EventsAdmitted(events[id := e])
  {
  }

  lemma EventsAdmittedAfterRemove(events: map<Oid, EventDoc>, id: Oid)
    requires EventsAdmitted(events)
    ensures EventsAdmitted(events - {id})
  {
  }

  lemma UniqueAfterInsert(celebrants: map<Oid, CelebrantSchema.Celebrant>, newId: Oid, d: CelebrantSchema.Celebrant)
    requires NamesUnique(celebrants) && newId !in celebrants && !NameTaken(celebrants, d.userId, d.name, None)
    ensures NamesUnique(celebrants[newId := d])
  {
    var after := celebrants[newId := d];
    forall id | id in after ensures !NameTaken(after, after[id].userId, after[id].name, Some(id)) {
      if id != newId {
        assert !NameTaken(celebrants, celebrants[id].userId, celebrants[id].name, Some(id));
        assert after[newId].userId != after[id].userId || after[newId].name != after[id].name;
      }
    }
  }

  lemma UniqueAfterReplace(celebrants: map<Oid, CelebrantSchema.Celebrant>, id: Oid, d: CelebrantSchema.Celebrant)
    requires NamesUnique(celebrants) && id in celebrants && !NameTaken(celebrants, d.userId, d.name, Some(id))
    ensures NamesUnique(celebrants[id := d])
  {
    var after := celebrants[id := d];
    forall k | k in after ensures !NameTaken(after, after[k].userId, after[k].name, Some(k)) {
      if k != id {
        assert !NameTaken(celebrants, celebrants[k].userId, celebrants[k].name, Some(k));
        assert after[id].userId != after[k].userId || after[id].name != after[k].name;
      }
    }
  }

  lemma UniqueAfterRemove(celebrants: map<Oid, CelebrantSchema.Celebrant>, id: Oid)
    requires NamesUnique(celebrants)
    ensures NamesUnique(celebrants - {id})
  {
    var after := celebrants - {id};
    forall k | k in after ensures !NameTaken(after, after[k].userId, after[k].name, Some(k)) {
      assert !NameTaken(celebrants, celebrants[k].userId, celebrants[k].name, Some(k));
    }
  }

  /** A celebrant put under an id that was free, or that keeps its owner, leaves every reference owned. */
  lemma ReferencesAfterGrow(celebrants: map<Oid, CelebrantSchema.Celebrant>, events: map<Oid, EventDoc>, id: Oid, d: CelebrantSchema.Celebrant)
    requires References(celebrants, events)
    requires id in celebrants ==> celebrants[id].userId == d.userId
    ensures References(celebrants[id := d], events)
  {
    var after := celebrants[id := d];
    forall e | e in events && events[e].celebrantId.Some? ensures ReferenceOwned(after, events[e]) {
      assert ReferenceOwned(celebrants, events[e]);
    }
  }

  lemma ReferencesAfterRemove(celebrants: map<Oid, CelebrantSchema.Celebrant>, events: map<Oid, EventDoc>, id: Oid)
    requires References(celebrants, events) && EventsReferencing(events, id) == {}
    ensures References(celebrants - {id}, events)
  {
    var after := celebrants - {id};
    forall e | e in events && events[e].celebrantId.Some? ensures ReferenceOwned(after, events[e]) {
      assert ReferenceOwned(celebrants, events[e]);
      assert e !in EventsReferencing(events, id);
    }
  }

  lemma ReferencesAfterPutEvent(celebrants: map<Oid, CelebrantSchema.Celebrant>, events: map<Oid, EventDoc>, id: Oid, e: EventDoc)
    requires References(celebrants, events) && ReferenceOwned(celebrants, e)
    ensures References(celebrants, events[id := e])
  {
    var after := events[id := e];
    forall k | k in after && after[k].celebrantId.Some? ensures ReferenceOwned(celebrants, after[k]) {
      if k != id {
        assert ReferenceOwned(celebrants, events[k]);
      }
    }
  }

  lemma ReferencesAfterRemoveEvent(celebrants: map<Oid, CelebrantSchema.Celebrant>, events: map<Oid, EventDoc>, id: Oid)
    requires References(celebrants, events)
    ensures References(celebrants, events - {id})
  {
    var after := events - {id};
    forall k | k in after && after[k].celebrantId.Some? ensures ReferenceOwned(celebrants, after[k]) {
      assert ReferenceOwned(celebrants, events[k]);
    }
  }

  /** Both collections. */
  class Store {
    var celebrants: map<Oid, CelebrantSchema.Celebrant>
    var events: map<Oid, EventDoc>

    constructor ()
      ensures celebrants == map[] && events == map[]
    {
      celebrants, events := map[], map[];
    }

    predicate Valid()
      reads this
    {
      ValidState(celebrants, events)
    }

    /** Saves a new celebrant under a fresh id. */
    method InsertCelebrant(id: Oid, d: CelebrantSchema.Celebrant)
      requires Valid() && id !in celebrants
      requires CelebrantStored(d) && !NameTaken(celebrants, d.userId, d.name, None)
      modifies this
      ensures Valid() && celebrants == old(celebrants)[id := d] && events == old(events)
    {
      InsertKeepsValid(celebrants, events, id, d);
      celebrants := celebrants[id := d];
    }

    /** Replaces a celebrant by an updated document of the same owner. */
    method ReplaceCelebrant(id: Oid, d: CelebrantSchema.Celebrant)
      requires Valid() && id in celebrants && d.userId == celebrants[id].userId
      requires CelebrantStored(d) && !NameTaken(celebrants, d.userId, d.name, Some(id))
      modifies this
      ensures Valid() && celebrants == old(celebrants)[id := d] && events == old(events)
    {
      ReplaceKeepsValid(celebrants, events, id, d);
      celebrants := celebrants[id := d];
    }

    /** Removes a celebrant that no event references. */
    method RemoveCelebrant(id: Oid)
      requires Valid() && EventsReferencing(events, id) == {}
      modifies this
      ensures Valid() && celebrants == old(celebrants) - {id} && events == old(events)
    {
      RemoveKeepsValid(celebrants, events, id);
      celebrants := celebrants - {id};
    }

    /** Stores an event, new or updated, whose reference is to one of its owner's celebrants. */
    method PutEvent(id: Oid, e: EventDoc)
      requires Valid() && EventStored(e) && ReferenceOwned(celebrants, e)
      modifies this
      ensures Valid() && events == old(events)[id := e] && celebrants == old(celebrants)
    {
      PutEventKeepsValid(celebrants, events, id, e);
      events := events[id := e];
    }

    /** Removes an event. */
    method RemoveEvent(id: Oid)
      requires Valid()
      modifies this
      ensures Valid() && events == old(events) - {id} && celebrants == old(celebrants)
    {
      RemoveEventKeepsValid(celebrants, events, id);
      events := events - {id};
    }
  }

  /** `Math.ceil(total / limit)`: infinite or not a number for a zero limit. */
  function PageCount(total: nat, limit: int): (pages: Option<int>)
    ensures limit == 0 <==> pages.None?
    ensures limit > 0 ==> (pages.value - 1) * limit < total <= pages.value * limit
    ensures limit < 0 ==> pages.value <= 0 && pages.value * limit <= total < (pages.value - 1) * limit
  {
    if limit == 0 then None
    else if limit > 0 then Some((total + limit - 1) / limit)
    else Some(-(total / -limit))
  }

  /** The number of documents the list routes skip: `(page - 1) * limit`. */
  function Skip(page: int, limit: int): int {
    (page - 1) * limit
  }

  /** With a positive limit, the pages before the last hold fewer documents than there are, and all pages together hold them all. */
  lemma PagesCoverTotal(total: nat, limit: int)
    requires limit > 0 && total > 0
    ensures PageCount(total, limit).value >= 1
    ensures Skip(PageCount(total, limit).value, limit) < total <= Skip(PageCount(total, limit).value + 1, limit)
  {
  }
}
