/**
 * The client's list hooks: the two-valued active view, and the event and
 * celebrant lists with their add, edit, delete and find-by-id operations.
 * Two variants exist, an in-memory one keyed on a numeric `id` and a
 * local-storage one keyed on a string `_id`; they differ only in the key
 * name and the form of the generated id, so one class models both.
 */
module ListHooks {
  import opened Wrappers
  import opened Strings
  import opened Js

  const EventsView: string := "events"
  const CelebrantsView: string := "celebrants"

  /** `useActiveView`: the view shown, changed only to one of the two known views. */
  class ActiveView {
    var activeView: string

    /** An omitted initial view defaults to "events"; a given one is taken as it is, since only the setter filters. */
    constructor (initialView: Option<string>)
      ensures initialView.None? ==> activeView == EventsView
      ensures initialView.Some? ==> activeView == initialView.value
    {
      activeView := if initialView.Some? then initialView.value else EventsView;
    }

    /** The wrapped setter: "events" and "celebrants" are taken, any other value is ignored. */
    method SetActiveView(view: string)
      modifies this
      ensures view == EventsView || view == CelebrantsView ==> activeView == view
      ensures view != EventsView && view != CelebrantsView ==> activeView == old(activeView)
    {
      if view == EventsView || view == CelebrantsView {
        activeView := view;
      }
    }

    predicate IsEventsView()
      reads this
    {
      activeView == EventsView
    }

    predicate IsCelebrantsView()
      reads this
    {
      activeView == CelebrantsView
    }
  }

  /** Which variant of the hooks: held in memory (src/hooks/index.js) or in local storage. */
  datatype Variant = Memory | LocalStorage

  /** The property that identifies a record. */
  function KeyName(variant: Variant): string {
    match variant
    case Memory => "id"
    case LocalStorage => "_id"
  }

  /** The id `add` generates from the clock reading: `Date.now()`, or its decimal text. */
  function GeneratedId(variant: Variant, now: nat): (id: Value)
    ensures variant.Memory? ==> id == Num(now)
    ensures variant.LocalStorage? ==> id.Str? && AllDigits(id.s) && ParseDecimal(id.s) == now
  {
    match variant
    case Memory => Num(now)
    case LocalStorage =>
      ParseNatToString(now);
      Str(NatToString(now))
  }

  /** `record[key] === id`, values compared by value. */
  predicate HasId(record: Record, key: string, id: Value) {
    Get(record, key) == id
  }

  /** The record `add` appends: the input's properties, then the generated id over any id it had. */
  function WithId(record: Record, key: string, id: Value): (r: Record)
    ensures HasId(r, key, id) && r.Keys == record.Keys + {key}
    ensures forall k :: k in record && k != key ==> r[k] == record[k]
  {
    Spread(record, map[key := id])
  }

  /** `prev.map(...)`: records with the id get the update merged over them, the others stay as they are. */
  function EditAll(items: seq<Record>, key: string, id: Value, update: Record): (r: seq<Record>)
    ensures |r| == |items|
    ensures forall i :: 0 <= i < |items| && !HasId(items[i], key, id) ==> r[i] == items[i]
    ensures forall i :: 0 <= i < |items| && HasId(items[i], key, id) ==> r[i] == Spread(items[i], update)
  {
    seq(|items|, i requires 0 <= i < |items| => if HasId(items[i], key, id) then Spread(items[i], update) else items[i])
  }

  /** `prev.filter(...)`: the records without the id, in their order. */
  function Without(items: seq<Record>, key: string, id: Value): (r: seq<Record>)
    ensures |r| <= |items|
    ensures forall x :: x in r ==> x in items && !HasId(x, key, id)
    ensures forall x :: x in items && !HasId(x, key, id) ==> x in r
  {
    if items == [] then []
    else
      var rest := Without(items[1..], key, id);
      if HasId(items[0], key, id) then rest else [items[0]] + rest
  }

  /** Filtering a concatenation filters each part: the kept records stay in their order. */
  lemma {:induction false} WithoutConcat(a: seq<Record>, b: seq<Record>, key: string, id: Value)
    ensures Without(a + b, key, id) == Without(a, key, id) + Without(b, key, id)
    decreases |a|
  {
    if a != [] {
      WithoutFirst(a, b, key, id);
      WithoutConcat(a[1..], b, key, id);
      ConsAssoc(a[0], Without(a[1..], key, id), Without(b, key, id));
    } else {
      assert a + b == b;
    }
  }

  lemma ConsAssoc<T>(x: T, left: seq<T>, right: seq<T>)
    ensures [x] + (left + right) == ([x] + left) + right
  {
  }

  /** The first record of a non-empty left part is the first one the filter looks at. */
  lemma WithoutFirst(a: seq<Record>, b: seq<Record>, key: string, id: Value)
    requires a != []
    ensures Without(a + b, key, id) ==
      if HasId(a[0], key, id) then Without(a[1..] + b, key, id) else [a[0]] + Without(a[1..] + b, key, id)
  {
    assert (a + b)[0] == a[0];
    assert (a + b)[1..] == a[1..] + b;
  }

  /** Deleting a record that does not carry the id keeps it; deleting one that does drops it. */
  lemma WithoutSingle(x: Record, key: string, id: Value)
    ensures Without([x], key, id) == if HasId(x, key, id) then [] else [x]
  {
    assert [x][1..] == [];
  }

  /** `prev.find(...)`: the first record with the id. */
  function FindById(items: seq<Record>, key: string, id: Value): (r: Option<Record>)
    ensures r.None? <==> forall i :: 0 <= i < |items| ==> !HasId(items[i], key, id)
    ensures r.Some? ==> exists i :: (0 <= i < |items| && items[i] == r.value && HasId(r.value, key, id)
      && forall j :: 0 <= j < i ==> !HasId(items[j], key, id))
  {
    if items == [] then None
    else if HasId(items[0], key, id) then Some(items[0])
    else
      var r := FindById(items[1..], key, id);
      if r.Some? then
        ghost var i :| (0 <= i < |items| - 1 && items[1..][i] == r.value && HasId(r.value, key, id)
          && forall j :: 0 <= j < i ==> !HasId(items[1..][j], key, id));
        assert items[i + 1] == r.value;
        r
      else r
  }

  /** After a delete, the id is found nowhere. */
  lemma FindAfterDelete(items: seq<Record>, key: string, id: Value)
    ensures FindById(Without(items, key, id), key, id).None?
  {
    var r := Without(items, key, id);
    forall i | 0 <= i < |r| ensures !HasId(r[i], key, id) {
      assert r[i] in r;
    }
  }

  /** After an edit, finding the id gives the update merged over what finding it gave before. */
  lemma {:induction false} FindAfterEdit(items: seq<Record>, key: string, id: Value, update: Record)
    requires key !in update
    ensures FindById(EditAll(items, key, id, update), key, id)
      == match FindById(items, key, id)
        case None => None
        case Some(x) => Some(Spread(x, update))
    decreases |items|
  {
    if items != [] {
      var edited := EditAll(items, key, id, update);
      assert edited[1..] == EditAll(items[1..], key, id, update);
      FindAfterEdit(items[1..], key, id, update);
      if HasId(items[0], key, id) {
        assert HasId(edited[0], key, id);
      } else {
        assert !HasId(edited[0], key, id);
      }
    }
  }

  /** Adding a record under a fresh id makes it the one found by that id. */
  lemma {:induction false} FindAfterAdd(items: seq<Record>, key: string, record: Record, id: Value)
    requires FindById(items, key, id).None?
    ensures FindById(items + [WithId(record, key, id)], key, id) == Some(WithId(record, key, id))
    decreases |items|
  {
    if items != [] {
      assert (items + [WithId(record, key, id)])[1..] == items[1..] + [WithId(record, key, id)];
      assert !HasId(items[0], key, id);
      FindAfterAdd(items[1..], key, record, id);
    }
  }

  /** One of the list hooks: the records it holds, replaced by every operation. */
  class RecordList {
    const variant: Variant
    var items: seq<Record>

    /** The initial list: what local storage holds, if anything, else the seed list. */
    constructor (variant: Variant, stored: Option<seq<Record>>, seed: seq<Record>)
      ensures this.variant == variant
      ensures items == if variant.LocalStorage? && stored.Some? then stored.value else seed
    {
      this.variant := variant;
      items := if variant.LocalStorage? && stored.Some? then stored.value else seed;
    }

    /** `addEvent`/`addCelebrant`: one record appended at the end, under the generated id. */
    method Add(record: Record, now: nat)
      modifies this
      ensures items == old(items) + [WithId(record, KeyName(variant), GeneratedId(variant, now))]
    {
      items := items + [WithId(record, KeyName(variant), GeneratedId(variant, now))];
    }

    /** `editEvent`/`editCelebrant`: the update merged into every record with the id. */
    method Edit(id: Value, update: Record)
      modifies this
      ensures items == EditAll(old(items), KeyName(variant), id, update)
    {
      items := EditAll(items, KeyName(variant), id, update);
    }

    /** `deleteEvent`/`deleteCelebrant`: every record with the id removed. */
    method Delete(id: Value)
      modifies this
      ensures items == Without(old(items), KeyName(variant), id)
    {
      items := Without(items, KeyName(variant), id);
    }

    /** `getEventById`/`getCelebrantById`. */
    function GetById(id: Value): Option<Record>
      reads this
    {
      FindById(items, KeyName(variant), id)
    }
  }
}
