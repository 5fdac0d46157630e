/**
 * The owner-scoped event routes of the JWT backend. The caller is the
 * authenticated user the token middleware resolved; ids of new documents
 * and the query's numbers are inputs.
 */
module EventRoutes {
  import opened Wrappers
  import opened Js
  import opened SchemaString
  import opened BackendStore

  const RequiredMessage: string := "Please provide all required fields: event, celebrant, date, message"
  const InvalidCelebrantMessage: string := "Invalid celebrant ID or celebrant does not belong to user"
  const NotFoundMessage: string := "Event not found"
  const CreateErrorMessage: string := "Error creating event"
  const UpdateErrorMessage: string := "Error updating event"

  /** A celebrant reference in a request body: absent, null (or another falsy value), or an id. */
  datatype RefInput = RefAbsent | RefNull | RefTo(id: Oid)

  /** The fields the create and update routes read from the request body. */
  datatype EventBody = EventBody(event: Value, celebrant: Value, date: Value, message: Value, status: Value, celebrantId: RefInput)

  /** Whether a supplied reference is acceptable: none, or one of the caller's celebrants. */
  predicate RefAllowed(celebrants: map<Oid, CelebrantSchema.Celebrant>, caller: Oid, ref: RefInput) {
    ref.RefTo? ==> ref.id in celebrants && celebrants[ref.id].userId == caller
  }

  /** The reference a new event stores: `celebrantId || null`. */
  function NewRef(ref: RefInput): Option<Oid> {
    if ref.RefTo? then Some(ref.id) else None
  }

  /** The document the create route builds, before the schema casts it; the status takes its default. */
  function NewEvent(caller: Oid, body: EventBody): EventDoc {
    EventDoc(caller, body.event, body.celebrant, NewRef(body.celebrantId), body.date, body.message, Str(DefaultStatus))
  }

  /** The update route's object of supplied fields applied to a stored event, each value through its setter. */
  function MergeEvent(doc: EventDoc, body: EventBody): (r: EventDoc)
    ensures r.userId == doc.userId
  {
    doc.(
      event := if Truthy(body.event) then TrimValue(body.event) else doc.event,
      celebrant := if Truthy(body.celebrant) then TrimValue(body.celebrant) else doc.celebrant,
      date := if Truthy(body.date) then body.date else doc.date,
      message := if Truthy(body.message) then TrimValue(body.message) else doc.message,
      status := if Truthy(body.status) then body.status else doc.status,
      celebrantId := match body.celebrantId
        case RefAbsent => doc.celebrantId
        case RefNull => None
        case RefTo(id) => Some(id))
  }

  /** The update validators: those of the supplied paths only, on their cast values. */
  predicate SuppliedEventValid(body: EventBody) {
    && (Truthy(body.event) ==> RequiredString(TrimValue(body.event)))
    && (Truthy(body.celebrant) ==> RequiredString(TrimValue(body.celebrant)))
    && (Truthy(body.date) ==> RequiredString(body.date))
    && (Truthy(body.message) ==> RequiredString(TrimValue(body.message)))
    && (Truthy(body.status) ==> StatusValid(body.status))
  }

  /**
   * Checking only the supplied paths is enough: merged into a valid event,
   * an update gives a valid event exactly when its own paths pass.
   */
  lemma EventUpdateValidatorsSuffice(doc: EventDoc, body: EventBody)
    requires ValidEvent(doc)
    ensures ValidEvent(MergeEvent(doc, body)) <==> SuppliedEventValid(body)
  {
  }

  /** One page of the listing: which documents match, how many, and the page arithmetic. */
  datatype Listing = Listing(ids: set<Oid>, total: nat, pages: Option<int>, skip: int)

  /** The date filter: none, or the exact date string. */
  predicate DatePasses(filter: Value, stored: Value) {
    !Truthy(filter) || stored == filter
  }

  /**
   * `GET /`: the caller's events on the filtered date, with the page
   * arithmetic. Page and limit default to 1 and 10.
   */
  method List(db: Store, caller: Oid, page: Option<int>, limit: Option<int>, date: Value) returns (reply: Reply<Listing>)
    ensures reply.Success? && reply.status == 200
    ensures forall id :: id in reply.data.ids <==> (id in db.events && db.events[id].userId == caller && DatePasses(date, db.events[id].date))
    ensures reply.data.total == |reply.data.ids|
    ensures reply.data.pages == PageCount(reply.data.total, limit.GetOr(10))
    ensures reply.data.skip == Skip(page.GetOr(1), limit.GetOr(10))
  {
    var ids := set id | id in db.events && db.events[id].userId == caller && DatePasses(date, db.events[id].date);
    var pageSize := limit.GetOr(10);
    reply := Success(200, Listing(ids, |ids|, PageCount(|ids|, pageSize), Skip(page.GetOr(1), pageSize)));
  }

  /** `GET /:id`: only the caller's own event; anything else is the same 404. */
  method GetOne(db: Store, caller: Oid, id: Oid) returns (reply: Reply<EventDoc>)
    ensures reply.Success? <==> id in db.events && db.events[id].userId == caller
    ensures reply.Failure? ==> reply == Failure(404, NotFoundMessage)
    ensures reply.Success? ==> reply == Success(200, db.events[id])
  {
    if id !in db.events || db.events[id].userId != caller {
      return Failure(404, NotFoundMessage);
    }
    reply := Success(200, db.events[id]);
  }

  /**
   * `POST /`: event, celebrant, date and message must be given; a
   * reference, if given, must be to one of the caller's celebrants; then
   * the event is saved with status "upcoming" under a fresh id.
   */
  method Create(db: Store, caller: Oid, body: EventBody, newId: Oid) returns (reply: Reply<EventDoc>)
    requires db.Valid() && newId !in db.events
    modifies db
    ensures db.Valid() && db.celebrants == old(db.celebrants)
    ensures reply.Failure? ==> db.events == old(db.events)
    ensures (!Truthy(body.event) || !Truthy(body.celebrant) || !Truthy(body.date) || !Truthy(body.message))
      ==> reply == Failure(400, RequiredMessage)
    ensures (Truthy(body.event) && Truthy(body.celebrant) && Truthy(body.date) && Truthy(body.message)
      && !RefAllowed(old(db.celebrants), caller, body.celebrantId)) ==> reply == Failure(400, InvalidCelebrantMessage)
    ensures reply.Success? ==> (reply.status == 201 && db.events == old(db.events)[newId := reply.data]
      && AdmitEvent(NewEvent(caller, body)) == Ok(reply.data))
    ensures reply.Success? ==> (reply.data.userId == caller && reply.data.status == Str(DefaultStatus)
      && reply.data.celebrantId == NewRef(body.celebrantId))
    ensures (Truthy(body.event) && Truthy(body.celebrant) && Truthy(body.date) && Truthy(body.message)
      && RefAllowed(old(db.celebrants), caller, body.celebrantId))
      ==> reply == (match AdmitEvent(NewEvent(caller, body))
        case Ok(e) => Success(201, e)
        case Err(_) => Failure(500, CreateErrorMessage))
  {
    if !Truthy(body.event) || !Truthy(body.celebrant) || !Truthy(body.date) || !Truthy(body.message) {
      return Failure(400, RequiredMessage);
    }
    if !RefAllowed(db.celebrants, caller, body.celebrantId) {
      return Failure(400, InvalidCelebrantMessage);
    }
    var saved := AdmitEvent(NewEvent(caller, body));
    if saved.Err? {
      return Failure(500, CreateErrorMessage);
    }
    db.PutEvent(newId, saved.value);
    reply := Success(201, saved.value);
  }

  /**
   * `PUT /:id`: a reference, if given, must be to one of the caller's
   * celebrants; the supplied paths must pass their validators; then only
   * the caller's own event is updated, each field only when supplied.
   */
  method Update(db: Store, caller: Oid, id: Oid, body: EventBody) returns (reply: Reply<EventDoc>)
    requires db.Valid()
    modifies db
    ensures db.Valid() && db.celebrants == old(db.celebrants)
    ensures reply.Failure? ==> db.events == old(db.events)
    ensures !RefAllowed(old(db.celebrants), caller, body.celebrantId) ==> reply == Failure(400, InvalidCelebrantMessage)
    ensures (RefAllowed(old(db.celebrants), caller, body.celebrantId) && !SuppliedEventValid(body))
      ==> reply == Failure(500, UpdateErrorMessage)
    ensures (RefAllowed(old(db.celebrants), caller, body.celebrantId) && SuppliedEventValid(body)
      && (id !in old(db.events) || old(db.events)[id].userId != caller)) ==> reply == Failure(404, NotFoundMessage)
    ensures reply.Success? ==> (id in old(db.events) && old(db.events)[id].userId == caller && reply.status == 200
      && reply.data == MergeEvent(old(db.events)[id], body) && db.events == old(db.events)[id := reply.data])
    ensures (RefAllowed(old(db.celebrants), caller, body.celebrantId) && SuppliedEventValid(body)
      && id in old(db.events) && old(db.events)[id].userId == caller)
      ==> reply == Success(200, MergeEvent(old(db.events)[id], body))
  {
    if !RefAllowed(db.celebrants, caller, body.celebrantId) {
      return Failure(400, InvalidCelebrantMessage);
    }
    if !SuppliedEventValid(body) {
      return Failure(500, UpdateErrorMessage);
    }
    if id !in db.events || db.events[id].userId != caller {
      return Failure(404, NotFoundMessage);
    }
    var doc := db.events[id];
    var updated := MergeEvent(doc, body);
    assert EventStored(doc) by {
      assert EventsAdmitted(db.events);
    }
    EventUpdateValidatorsSuffice(doc, body);
    assert ReferenceOwned(db.celebrants, doc) by {
      assert References(db.celebrants, db.events);
    }
    db.PutEvent(id, updated);
    reply := Success(200, updated);
  }

  /** `DELETE /:id`: only the caller's own event. */
  method Delete(db: Store, caller: Oid, id: Oid) returns (reply: Reply<EventDoc>)
    requires db.Valid()
    modifies db
    ensures db.Valid() && db.celebrants == old(db.celebrants)
    ensures reply.Failure? ==> db.events == old(db.events)
    ensures reply.Success? <==> id in old(db.events) && old(db.events)[id].userId == caller
    ensures reply.Failure? ==> reply == Failure(404, NotFoundMessage)
    ensures reply.Success? ==> reply == Success(200, old(db.events)[id]) && db.events == old(db.events) - {id}
  {
    if id !in db.events || db.events[id].userId != caller {
      return Failure(404, NotFoundMessage);
    }
    reply := Success(200, db.events[id]);
    db.RemoveEvent(id);
  }

  /** `GET /celebrant/:celebrantId`: every event referencing the celebrant, whoever asks. */
  method ByCelebrant(db: Store, celebrantId: Oid) returns (reply: Reply<set<Oid>>)
    ensures reply.Success? && reply.status == 200
    ensures forall e :: e in reply.data <==> e in db.events && db.events[e].celebrantId == Some(celebrantId)
  {
    reply := Success(200, EventsReferencing(db.events, celebrantId));
  }
}
