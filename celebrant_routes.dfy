/**
 * The owner-scoped celebrant routes of the JWT backend. The caller is the
 * authenticated user the token middleware resolved; ids of new documents,
 * the current date and the query's numbers are inputs.
 */
module CelebrantRoutes {
  import opened Wrappers
  import opened Strings
  import opened Js
  import opened Calendar
  import opened SchemaString
  import opened CelebrantSchema
  import opened BackendStore

  const RequiredMessage: string := "Please provide all required fields: name, relationship, ageGroup"
  const DuplicateMessage: string := "A celebrant with this name already exists"
  const NotFoundMessage: string := "Celebrant not found"
  const CreateErrorMessage: string := "Error creating celebrant"
  const UpdateErrorMessage: string := "Error updating celebrant"

  /** The message refusing to delete a celebrant that `count` of the caller's events still reference. */
  function HasEventsMessage(count: nat): string {
    "Cannot delete celebrant. They have " + NatToString(count) + " associated event(s). Please delete or reassign the events first."
  }

  /** A birthday in a request body: absent, explicitly null, or a date. */
  datatype BirthdayInput = NoBirthday | NullBirthday | BirthdayOn(date: Date)

  /** The fields the create and update routes read from the request body. */
  datatype CelebrantBody = CelebrantBody(
    name: Value,
    relationship: Value,
    ageGroup: Value,
    likes: Value,
    image: Value,
    contactInfo: Value,
    birthday: BirthdayInput,
    notes: Value)

  /** A `contactInfo` the nested path can take: a plain object, or nothing. */
  predicate ContactCastable(v: Value) {
    !Truthy(v) || v.Obj?
  }

  function ContactField(v: Value, key: string): Value {
    if v.Obj? then Get(v.fields, key) else Undefined
  }

  /** The document the create route builds, before the schema casts it. */
  function NewCelebrant(caller: Oid, body: CelebrantBody): Celebrant
    requires body.name.Str?
  {
    var contact := Or(body.contactInfo, Obj(map[]));
    Celebrant(
      userId := caller,
      name := Str(Trim(body.name.s)),
      relationship := body.relationship,
      ageGroup := body.ageGroup,
      likes := Or(body.likes, Str("")),
      image := Or(body.image, Str(DefaultImage)),
      email := ContactField(contact, "email"),
      phone := ContactField(contact, "phone"),
      birthday := if body.birthday.BirthdayOn? then Some(body.birthday.date) else None,
      notes := Or(body.notes, Str("")))
  }

  /**
   * The update route's `updateData` applied to a stored document: each
   * field only when supplied, and each supplied value through its path's
   * setters (the name is trimmed by the route and again by the setter).
   */
  function Merge(doc: Celebrant, body: CelebrantBody): (r: Celebrant)
    requires Truthy(body.name) ==> body.name.Str?
    ensures r.userId == doc.userId
  {
    doc.(
      name := if Truthy(body.name) then TrimValue(Str(Trim(body.name.s))) else doc.name,
      relationship := if Truthy(body.relationship) then TrimValue(body.relationship) else doc.relationship,
      ageGroup := if Truthy(body.ageGroup) then TrimValue(body.ageGroup) else doc.ageGroup,
      likes := if !body.likes.Undefined? then TrimValue(body.likes) else doc.likes,
      image := if Truthy(body.image) then TrimValue(body.image) else doc.image,
      email := if Truthy(body.contactInfo) then LowerTrimValue(ContactField(body.contactInfo, "email")) else doc.email,
      phone := if Truthy(body.contactInfo) then TrimValue(ContactField(body.contactInfo, "phone")) else doc.phone,
      birthday := match body.birthday
        case NoBirthday => doc.birthday
        case NullBirthday => None
        case BirthdayOn(d) => Some(d),
      notes := if !body.notes.Undefined? then TrimValue(body.notes) else doc.notes)
  }

  /** The update validators: the validators of the supplied paths only, on their cast values. */
  predicate SuppliedValid(body: CelebrantBody)
    requires Truthy(body.name) ==> body.name.Str?
  {
    && (Truthy(body.name) ==> NameValid(TrimValue(Str(Trim(body.name.s)))))
    && (Truthy(body.relationship) ==> ListedValid(TrimValue(body.relationship), Relationships))
    && (Truthy(body.ageGroup) ==> ListedValid(TrimValue(body.ageGroup), AgeGroups))
    && (!body.likes.Undefined? ==> OptionalString(TrimValue(body.likes), 500))
    && (Truthy(body.contactInfo) ==> EmailMatch(LowerTrimValue(ContactField(body.contactInfo, "email"))))
    && (!body.notes.Undefined? ==> OptionalString(TrimValue(body.notes), 1000))
  }

  /**
   * Checking only the supplied paths is enough: merged into a valid
   * document, an update gives a valid document exactly when its own
   * paths pass.
   */
  lemma UpdateValidatorsSuffice(doc: Celebrant, body: CelebrantBody)
    requires Truthy(body.name) ==> body.name.Str?
    requires Valid(doc)
    ensures Valid(Merge(doc, body)) <==> SuppliedValid(body)
  {
  }

  /** A stored document sent back as an update body, every field as it is stored. */
  function BodyOf(doc: Celebrant): (body: CelebrantBody)
    requires doc.name.Str?
    ensures Truthy(body.name) ==> body.name.Str?
  {
    CelebrantBody(
      name := doc.name,
      relationship := doc.relationship,
      ageGroup := doc.ageGroup,
      likes := doc.likes,
      image := doc.image,
      contactInfo := Obj(map["email" := doc.email, "phone" := doc.phone]),
      birthday := if doc.birthday.Some? then BirthdayOn(doc.birthday.value) else NullBirthday,
      notes := doc.notes)
  }

  /**
   * Sending a saved document back unchanged, as an edit form does, stores
   * exactly the same document: every setter leaves a saved value as it is.
   */
  lemma {:induction false} ResubmitKeepsDocument(doc: Celebrant)
    requires Admit(doc) == Ok(doc)
    ensures doc.name.Str? && Merge(doc, BodyOf(doc)) == doc
  {
    SavedFieldsFixed(doc);
    ResubmitFixedFields(doc);
  }

  /** The two fields of a contact object read back. */
  lemma ContactFieldsOf(email: Value, phone: Value)
    ensures ContactField(Obj(map["email" := email, "phone" := phone]), "email") == email
    ensures ContactField(Obj(map["email" := email, "phone" := phone]), "phone") == phone
  {
    assert "email"[0] != "phone"[0];
  }

  /** The resubmission argument on its own: a document every setter leaves alone merges back into itself. */
  lemma ResubmitFixedFields(doc: Celebrant)
    requires doc.name.Str? && doc.name == Str(Trim(doc.name.s))
    requires TrimValue(doc.relationship) == doc.relationship && TrimValue(doc.ageGroup) == doc.ageGroup
    requires TrimValue(doc.likes) == doc.likes && TrimValue(doc.notes) == doc.notes
    requires TrimValue(doc.image) == doc.image && TrimValue(doc.phone) == doc.phone
    requires LowerTrimValue(doc.email) == doc.email
    ensures Merge(doc, BodyOf(doc)) == doc
  {
    TrimIdempotent(doc.name.s);
    var body := BodyOf(doc);
    var m := Merge(doc, body);
    assert m.name == doc.name;
    assert m.relationship == doc.relationship && m.ageGroup == doc.ageGroup;
    assert m.likes == doc.likes && m.notes == doc.notes && m.image == doc.image;
    assert Truthy(body.contactInfo);
    ContactFieldsOf(doc.email, doc.phone);
    assert m.email == doc.email && m.phone == doc.phone;
    assert m.birthday == doc.birthday;
  }

  /** Every setter leaves the fields of a saved document as they are. */
  lemma SavedFieldsFixed(doc: Celebrant)
    requires Admit(doc) == Ok(doc)
    ensures doc.name.Str? && doc.name == Str(Trim(doc.name.s))
    ensures TrimValue(doc.relationship) == doc.relationship && TrimValue(doc.ageGroup) == doc.ageGroup
    ensures TrimValue(doc.likes) == doc.likes && TrimValue(doc.notes) == doc.notes
    ensures TrimValue(doc.image) == doc.image && TrimValue(doc.phone) == doc.phone
    ensures LowerTrimValue(doc.email) == doc.email
  {
    CastIdempotent(doc);
    assert Cast(doc) == doc;
  }

  /** The route's own relationship and age-group lists are the schema's. */
  lemma RouteListsAreSchemaLists()
    ensures RouteRelationships == Relationships && RouteAgeGroups == AgeGroups
  {
  }

  const RouteRelationships: seq<string> := [
    "Father", "Mother", "Brother", "Sister", "Uncle", "Aunt", "Grandfather", "Grandmother",
    "Cousin", "Friend", "Colleague", "Partner", "Spouse", "Son", "Daughter", "Other"
  ]

  const RouteAgeGroups: seq<string> := ["Child", "Teen", "Young Adult", "Adult", "Senior"]

  /** One page of the listing: which documents match, how many, and the page arithmetic. */
  datatype Listing = Listing(ids: set<Oid>, total: nat, pages: Option<int>, skip: int)

  /** Whether a listing filter lets a stored value through: no filter, or the filter's cast value. */
  predicate FilterPasses(filter: Value, stored: Value) {
    !Truthy(filter) || stored == TrimValue(filter)
  }

  /**
   * `GET /`: the caller's celebrants that pass the relationship and
   * age-group filters, with the page arithmetic. Page and limit default
   * to 1 and 10.
   */
  method List(db: Store, caller: Oid, page: Option<int>, limit: Option<int>, relationship: Value, ageGroup: Value)
    returns (reply: Reply<Listing>)
    ensures reply.Success? && reply.status == 200
    ensures forall id :: id in reply.data.ids <==>
      (id in db.celebrants && db.celebrants[id].userId == caller
       && FilterPasses(relationship, db.celebrants[id].relationship) && FilterPasses(ageGroup, db.celebrants[id].ageGroup))
    ensures reply.data.total == |reply.data.ids|
    ensures reply.data.pages == PageCount(reply.data.total, limit.GetOr(10))
    ensures reply.data.skip == Skip(page.GetOr(1), limit.GetOr(10))
  {
    var ids := set id | id in db.celebrants && db.celebrants[id].userId == caller
      && FilterPasses(relationship, db.celebrants[id].relationship) && FilterPasses(ageGroup, db.celebrants[id].ageGroup);
    var pageSize := limit.GetOr(10);
    reply := Success(200, Listing(ids, |ids|, PageCount(|ids|, pageSize), Skip(page.GetOr(1), pageSize)));
  }

  /** A celebrant as `GET /:id` returns it: the document, the events that reference it and the age. */
  datatype CelebrantView = CelebrantView(doc: Celebrant, events: set<Oid>, age: Option<int>)

  /** `GET /:id`: only the caller's own celebrant; anything else is the same 404. */
  method GetOne(db: Store, caller: Oid, id: Oid, today: Date) returns (reply: Reply<CelebrantView>)
    ensures reply.Success? <==> id in db.celebrants && db.celebrants[id].userId == caller
    ensures reply.Failure? ==> reply == Failure(404, NotFoundMessage)
    ensures reply.Success? ==> (reply.status == 200 && reply.data.doc == db.celebrants[id]
      && reply.data.events == EventsReferencing(db.events, id) && reply.data.age == GetAge(db.celebrants[id].birthday, today))
  {
    if id !in db.celebrants || db.celebrants[id].userId != caller {
      return Failure(404, NotFoundMessage);
    }
    var doc := db.celebrants[id];
    reply := Success(200, CelebrantView(doc, EventsReferencing(db.events, id), GetAge(doc.birthday, today)));
  }

  /**
   * `POST /`: name, relationship and age group must be given; the caller
   * must not already have a celebrant of that trimmed name; then the
   * document is built with its defaults and saved under a fresh id.
   */
  method Create(db: Store, caller: Oid, body: CelebrantBody, newId: Oid) returns (reply: Reply<Celebrant>)
    requires db.Valid() && newId !in db.celebrants
    modifies db
    ensures db.Valid() && db.events == old(db.events)
    ensures reply.Failure? ==> db.celebrants == old(db.celebrants)
    ensures !Truthy(body.name) || !Truthy(body.relationship) || !Truthy(body.ageGroup) ==> reply == Failure(400, RequiredMessage)
    ensures (Truthy(body.name) && Truthy(body.relationship) && Truthy(body.ageGroup) && body.name.Str?
      && NameTaken(old(db.celebrants), caller, Str(Trim(body.name.s)), None)) ==> reply == Failure(400, DuplicateMessage)
    ensures reply.Success? ==> reply.status == 201 && db.celebrants == old(db.celebrants)[newId := reply.data]
    ensures reply.Success? ==> (body.name.Str? && Admit(NewCelebrant(caller, body)) == Ok(reply.data)
      && reply.data.userId == caller && reply.data.name == Str(Trim(body.name.s))
      && !NameTaken(old(db.celebrants), caller, reply.data.name, None))
    ensures (Truthy(body.name) && Truthy(body.relationship) && Truthy(body.ageGroup) && !body.name.Str?)
      ==> reply == Failure(500, CreateErrorMessage)
    ensures (Truthy(body.name) && Truthy(body.relationship) && Truthy(body.ageGroup) && body.name.Str?
      && !NameTaken(old(db.celebrants), caller, Str(Trim(body.name.s)), None))
      ==> reply == (if !ContactCastable(body.contactInfo) then Failure(500, CreateErrorMessage)
        else match Admit(NewCelebrant(caller, body))
          case Ok(c) => Success(201, c)
          case Err(_) => Failure(500, CreateErrorMessage))
  {
    if !Truthy(body.name) || !Truthy(body.relationship) || !Truthy(body.ageGroup) {
      return Failure(400, RequiredMessage);
    }
    if !body.name.Str? {
      return Failure(500, CreateErrorMessage);
    }
    var name := Str(Trim(body.name.s));
    if NameTaken(db.celebrants, caller, name, None) {
      return Failure(400, DuplicateMessage);
    }
    if !ContactCastable(body.contactInfo) {
      return Failure(500, CreateErrorMessage);
    }
    var saved := Admit(NewCelebrant(caller, body));
    if saved.Err? {
      return Failure(500, CreateErrorMessage);
    }
    AdmitStores(NewCelebrant(caller, body));
    TrimIdempotent(body.name.s);
    db.InsertCelebrant(newId, saved.value);
    reply := Success(201, saved.value);
  }

  /**
   * `PUT /:id`: a supplied name must not be another of the caller's
   * celebrants' names; the supplied paths must pass their validators;
   * then only the caller's own celebrant is updated, each field only
   * when supplied.
   */
  method Update(db: Store, caller: Oid, id: Oid, body: CelebrantBody) returns (reply: Reply<Celebrant>)
    requires db.Valid()
    modifies db
    ensures db.Valid() && db.events == old(db.events)
    ensures reply.Failure? ==> db.celebrants == old(db.celebrants)
    ensures (Truthy(body.name) && body.name.Str? && NameTaken(old(db.celebrants), caller, Str(Trim(body.name.s)), Some(id)))
      ==> reply == Failure(400, DuplicateMessage)
    ensures reply.Success? ==> (id in old(db.celebrants) && old(db.celebrants)[id].userId == caller
      && (Truthy(body.name) ==> body.name.Str?) && SuppliedValid(body))
    ensures reply.Success? ==> (reply.status == 200 && db.celebrants == old(db.celebrants)[id := reply.data]
      && reply.data == Merge(old(db.celebrants)[id], body))
    ensures ((id !in old(db.celebrants) || old(db.celebrants)[id].userId != caller)
      && (Truthy(body.name) ==> body.name.Str? && !NameTaken(old(db.celebrants), caller, Str(Trim(body.name.s)), Some(id)))
      && ContactCastable(body.contactInfo) && SuppliedValid(body))
      ==> reply == Failure(404, NotFoundMessage)
    ensures Truthy(body.name) && !body.name.Str? ==> reply == Failure(500, UpdateErrorMessage)
    ensures ((Truthy(body.name) ==> body.name.Str? && !NameTaken(old(db.celebrants), caller, Str(Trim(body.name.s)), Some(id)))
      && (!ContactCastable(body.contactInfo) || !SuppliedValid(body)))
      ==> reply == Failure(500, UpdateErrorMessage)
    ensures (id in old(db.celebrants) && old(db.celebrants)[id].userId == caller
      && (Truthy(body.name) ==> body.name.Str? && !NameTaken(old(db.celebrants), caller, Str(Trim(body.name.s)), Some(id)))
      && ContactCastable(body.contactInfo) && SuppliedValid(body))
      ==> reply == Success(200, Merge(old(db.celebrants)[id], body))
  {
    if Truthy(body.name) {
      if !body.name.Str? {
        return Failure(500, UpdateErrorMessage);
      }
      if NameTaken(db.celebrants, caller, Str(Trim(body.name.s)), Some(id)) {
        return Failure(400, DuplicateMessage);
      }
    }
    if !ContactCastable(body.contactInfo) || !SuppliedValid(body) {
      return Failure(500, UpdateErrorMessage);
    }
    if id !in db.celebrants || db.celebrants[id].userId != caller {
      return Failure(404, NotFoundMessage);
    }
    var doc := db.celebrants[id];
    var updated := Merge(doc, body);
    UpdateValidatorsSuffice(doc, body);
    if Truthy(body.name) {
      TrimIdempotent(body.name.s);
    }
    db.ReplaceCelebrant(id, updated);
    reply := Success(200, updated);
  }

  /**
   * `DELETE /:id`: only the caller's own celebrant, and only while none
   * of the caller's events references it.
   */
  method Delete(db: Store, caller: Oid, id: Oid) returns (reply: Reply<Celebrant>)
    requires db.Valid()
    modifies db
    ensures db.Valid() && db.events == old(db.events)
    ensures reply.Failure? ==> db.celebrants == old(db.celebrants)
    ensures id !in old(db.celebrants) || old(db.celebrants)[id].userId != caller ==> reply == Failure(404, NotFoundMessage)
    ensures (id in old(db.celebrants) && old(db.celebrants)[id].userId == caller && EventsOf(old(db.events), caller, id) != {})
      ==> reply == Failure(400, HasEventsMessage(|EventsOf(old(db.events), caller, id)|))
    ensures reply.Success? ==> (reply.status == 200 && reply.data == old(db.celebrants)[id]
      && db.celebrants == old(db.celebrants) - {id} && EventsReferencing(old(db.events), id) == {})
    ensures (id in old(db.celebrants) && old(db.celebrants)[id].userId == caller && EventsOf(old(db.events), caller, id) == {})
      ==> reply.Success?
  {
    if id !in db.celebrants || db.celebrants[id].userId != caller {
      return Failure(404, NotFoundMessage);
    }
    var count := |EventsOf(db.events, caller, id)|;
    if count > 0 {
      return Failure(400, HasEventsMessage(count));
    }
    ReferencesOnlyByOwner(db.celebrants, db.events, id);
    reply := Success(200, db.celebrants[id]);
    db.RemoveCelebrant(id);
  }

  /** A celebrant with the events that reference it, as `GET /:id/events` returns them. */
  datatype CelebrantEvents = CelebrantEvents(doc: Celebrant, events: set<Oid>)

  /** `GET /:id/events`: any celebrant, whoever asks; no ownership check. */
  method EventsOfCelebrant(db: Store, id: Oid) returns (reply: Reply<CelebrantEvents>)
    ensures reply.Success? <==> id in db.celebrants
    ensures reply.Failure? ==> reply == Failure(404, NotFoundMessage)
    ensures reply.Success? ==> reply.data == CelebrantEvents(db.celebrants[id], EventsReferencing(db.events, id))
  {
    if id !in db.celebrants {
      return Failure(404, NotFoundMessage);
    }
    reply := Success(200, CelebrantEvents(db.celebrants[id], EventsReferencing(db.events, id)));
  }
}
