/**
 * The message controller of the cookie-session server. Listing and
 * creating go through the guard on the parent event; updating and
 * deleting go through the guard on the message itself.
 */
module ServerMessages {
  import opened Wrappers
  import opened Js
  import opened ServerStore
  import ServerEvents

  const Listed: string := "Messages fetched successfully"
  const Created: string := "Message created successfully"
  const Updated: string := "Message updated successfully"
  const Deleted: string := "Message deleted successfully"
  const EventNotFound: string := "Event not found"
  const NotFound: string := "Message not found"

  /** `Message.find({ event })`: every message of the event, whoever wrote it. */
  function MessagesOf(messages: map<Oid, MessageDoc>, event: Oid): (r: map<Oid, MessageDoc>)
    ensures forall id :: id in r <==> id in messages && messages[id].event == event
    ensures forall id :: id in r ==> r[id] == messages[id]
  {
    map id | id in messages && messages[id].event == event :: messages[id]
  }

  /** An object literal, its properties written left to right: a repeated name keeps the last value. */
  function ObjectLiteral(props: seq<(string, Value)>): (r: Record)
    ensures forall k :: k in r <==> exists i :: 0 <= i < |props| && props[i].0 == k
  {
    if props == [] then map[]
    else
      var init := ObjectLiteral(props[..|props| - 1]);
      var last := props[|props| - 1];
      assert forall i :: 0 <= i < |props| - 1 ==> props[..|props| - 1][i] == props[i];
      init[last.0 := last.1]
  }

  /** The created message as the response serialises it. */
  function MessageJson(id: Oid, m: MessageDoc): Value {
    Obj(map["_id" := Num(id), "user" := Num(m.user), "event" := Num(m.event), "content" := m.content])
  }

  /** `{ message: "Message created successfully", message: createdMessage }`. */
  function CreatedBody(id: Oid, m: MessageDoc): Record {
    ObjectLiteral([("message", Str(Created)), ("message", MessageJson(id, m))])
  }

  /**
   * The create response carries the document and not the success text:
   * the second `message` property overwrites the first, so the body has
   * that one property, holding the created message.
   */
  lemma {:induction false} CreatedBodyHoldsDocument(id: Oid, m: MessageDoc)
    ensures CreatedBody(id, m) == map["message" := MessageJson(id, m)]
    ensures Get(CreatedBody(id, m), "message") != Str(Created)
  {
    var props := [("message", Str(Created)), ("message", MessageJson(id, m))];
    assert props[..1] == [("message", Str(Created))];
    assert props[..1][..0] == [];
    assert ObjectLiteral(props[..1]) == map["message" := Str(Created)];
  }

  /** The message `createMessage` builds: the author is the caller and the event is the one in the path. */
  function NewMessage(caller: Caller, event: Oid, body: Record): (m: MessageDoc)
    ensures m.user == caller.id && m.event == event
  {
    MessageDoc(caller.id, event, Get(body, "content"))
  }

  /** `content = body.content || content`: only the text can change. */
  function MergeMessage(m: MessageDoc, body: Record): (r: MessageDoc)
    ensures r.user == m.user && r.event == m.event
    ensures Truthy(Get(body, "content")) ==> r.content == body["content"]
    ensures !Truthy(Get(body, "content")) ==> r == m
  {
    m.(content := Or(Get(body, "content"), m.content))
  }

  /** The guard on one message: it exists and the caller wrote it or is an admin. */
  predicate Visible(messages: map<Oid, MessageDoc>, caller: Caller, id: Oid) {
    id in messages && CanAccess(caller, messages[id].user)
  }

  /** The guard is `Find` on the message collection. */
  lemma VisibleIsFind(messages: map<Oid, MessageDoc>, caller: Caller, id: Oid)
    ensures Visible(messages, caller, id) <==> Find(messages, MessageOwner, caller, id).Some?
  {
  }

  /** `getMessagesByEvent`: the event's messages when the guard lets the caller see the event, else the 404. */
  method GetMessagesByEvent(db: Db, caller: Caller, eventId: Oid) returns (reply: Reply<map<Oid, MessageDoc>>)
    ensures reply.Success? <==> ServerEvents.Visible(db.events, caller, eventId)
    ensures reply.Success? ==> reply == Success(200, Listed, MessagesOf(db.messages, eventId))
    ensures !reply.Success? ==> reply == Failure(404, EventNotFound)
  {
    if eventId in db.events && (db.events[eventId].user == caller.id || caller.role == Str(AdminRole)) {
      reply := Success(200, Listed, MessagesOf(db.messages, eventId));
    } else {
      reply := Failure(404, EventNotFound);
    }
  }

  /**
   * `createMessage`: behind the guard on the event, saves a message of the
   * caller's under a fresh id; the answer is the status and the JSON body.
   */
  method CreateMessage(db: Db, caller: Caller, eventId: Oid, body: Record, id: Oid) returns (status: int, response: Record)
    requires db.Valid() && id !in db.messages
    modifies db
    ensures db.Valid()
    ensures db.users == old(db.users) && db.celebrants == old(db.celebrants) && db.events == old(db.events)
    ensures ServerEvents.Visible(old(db.events), caller, eventId) ==>
      && status == 201
      && db.messages == old(db.messages)[id := NewMessage(caller, eventId, body)]
      && response == CreatedBody(id, NewMessage(caller, eventId, body))
    ensures !ServerEvents.Visible(old(db.events), caller, eventId) ==>
      status == 404 && response == map["message" := Str(EventNotFound)] && db.messages == old(db.messages)
  {
    if eventId in db.events && (db.events[eventId].user == caller.id || caller.role == Str(AdminRole)) {
      var m := NewMessage(caller, eventId, body);
      db.PutMessage(id, m);
      status, response := 201, CreatedBody(id, m);
    } else {
      status, response := 404, map["message" := Str(EventNotFound)];
    }
  }

  /** `updateMessage`: behind the guard on the message, a truthy `content` replaces the text. */
  method UpdateMessage(db: Db, caller: Caller, id: Oid, body: Record) returns (reply: Reply<MessageDoc>)
    requires db.Valid()
    modifies db
    ensures db.Valid()
    ensures db.users == old(db.users) && db.celebrants == old(db.celebrants) && db.events == old(db.events)
    ensures !Visible(old(db.messages), caller, id) ==> reply == Failure(404, NotFound) && db.messages == old(db.messages)
    ensures Visible(old(db.messages), caller, id) ==>
      var updated := MergeMessage(old(db.messages)[id], body);
      reply == Success(200, Updated, updated) && db.messages == old(db.messages)[id := updated]
  {
    if id in db.messages && (db.messages[id].user == caller.id || caller.role == Str(AdminRole)) {
      var m := db.messages[id];
      var updated := m.(content := Or(Get(body, "content"), m.content));
      db.PutMessage(id, updated);
      reply := Success(200, Updated, updated);
    } else {
      reply := Failure(404, NotFound);
    }
  }

  /** `deleteMessage`: behind the guard on the message, removes that one message. */
  method DeleteMessage(db: Db, caller: Caller, id: Oid) returns (reply: Reply<()>)
    requires db.Valid()
    modifies db
    ensures db.Valid()
    ensures db.users == old(db.users) && db.celebrants == old(db.celebrants) && db.events == old(db.events)
    ensures Visible(old(db.messages), caller, id) ==>
      reply == Success(200, Deleted, ()) && db.messages == old(db.messages) - {id}
    ensures !Visible(old(db.messages), caller, id) ==>
      reply == Failure(404, NotFound) && db.messages == old(db.messages)
  {
    if id in db.messages && (db.messages[id].user == caller.id || caller.role == Str(AdminRole)) {
      db.RemoveMessage(id);
      reply := Success(200, Deleted, ());
    } else {
      reply := Failure(404, NotFound);
    }
  }
}
