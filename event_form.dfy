/**
 * The add/edit event form of the client: the submit guards, the saved
 * record (celebrant looked up by id, event label built from the option
 * slug, message trimmed), and the edit-mode prefill that turns a saved
 * label back into a slug and a celebrant name back into an id.
 */
module EventForm {
  import opened Wrappers
  import opened Strings
  import Js

  /** The four controlled inputs; every value is a string. */
  datatype FormData = FormData(celebrant: string, eventType: string, eventDate: string, message: string)

  /** The names of the inputs, as `e.target.name` reports them. */
  datatype Field = CelebrantField | EventTypeField | EventDateField | MessageField

  /** A celebrant as the form receives it: a numeric id and a name. */
  datatype CelebrantOption = CelebrantOption(id: int, name: string)

  /** The record handed to `onSaveEvent`. */
  datatype EventData = EventData(event: string, celebrant: string, date: string, message: string)

  /** What submitting does: an alert and nothing saved, or a saved record. */
  datatype SubmitOutcome = Rejected(alert: string) | Saved(data: EventData)

  const InitialForm: FormData := FormData("", "", "", "")

  const CelebrantAlert: string := "Please select a celebrant"
  const EventTypeAlert: string := "Please select an event type"
  const EventDateAlert: string := "Please select an event date"
  const MessageAlert: string := "Please enter an event message"

  /** `s.replace("-", " ")`: only the first dash becomes a space. */
  function ReplaceFirstDash(s: string): (r: string)
    ensures |r| == |s|
    ensures '-' !in s ==> r == s
    ensures '-' in s ==> var i := IndexOf(s, '-');
      r[..i] == s[..i] && r[i] == ' ' && r[i + 1..] == s[i + 1..]
  {
    if '-' in s then
      var i := IndexOf(s, '-');
      s[..i] + " " + s[i + 1..]
    else s
  }

  /** `\b\w`: a word character with no word character right before it. */
  predicate WordStart(s: string, k: int)
    requires 0 <= k < |s|
  {
    IsWordChar(s[k]) && (k == 0 || !IsWordChar(s[k - 1]))
  }

  /** `s.replace(/\b\w/g, (l) => l.toUpperCase())`. */
  function CapitalizeWords(s: string): (r: string)
    ensures |r| == |s|
    ensures forall k :: 0 <= k < |s| ==> r[k] == if WordStart(s, k) then UpperChar(s[k]) else s[k]
  {
    seq(|s|, k requires 0 <= k < |s| => if WordStart(s, k) then UpperChar(s[k]) else s[k])
  }

  /** The saved event label of an option slug. */
  function Label(slug: string): string {
    CapitalizeWords(ReplaceFirstDash(slug))
  }

  /** No character is white space, stated one character at a time. */
  predicate Spaceless(s: string)
    decreases |s|
  {
    s == [] || (!IsSpace(s[0]) && Spaceless(s[1..]))
  }

  /** The character-by-character statement agrees with `HasSpace`. */
  lemma {:induction false} SpacelessIff(s: string)
    ensures Spaceless(s) <==> !HasSpace(s)
    decreases |s|
  {
    if s != [] {
      SpacelessIff(s[1..]);
      if HasSpace(s[1..]) {
        var i :| 0 <= i < |s[1..]| && IsSpace(s[1..][i]);
        assert IsSpace(s[i + 1]);
      }
      if HasSpace(s) && !IsSpace(s[0]) {
        var i :| 0 <= i < |s| && IsSpace(s[i]);
        assert s[1..][i - 1] == s[i];
      }
    }
  }

  /** `s.replace(/\s+/g, "-")`: every run of white space becomes one dash. */
  function DashSpaceRuns(s: string): (r: string)
    ensures Spaceless(r)
    ensures Spaceless(s) ==> r == s
    decreases |s|
  {
    if s == [] then []
    else if IsSpace(s[0]) then
      var r := "-" + DashSpaceRuns(TrimStart(s[1..]));
      assert r[0] == '-' && r[1..] == DashSpaceRuns(TrimStart(s[1..]));
      r
    else
      var r := [s[0]] + DashSpaceRuns(s[1..]);
      assert r[0] == s[0] && r[1..] == DashSpaceRuns(s[1..]);
      assert s == [s[0]] + s[1..];
      r
  }

  /** The prefill's slug of a saved label: lower case, white-space runs as dashes. */
  function Slug(text: string): (r: string)
    ensures !HasSpace(r)
  {
    var r := DashSpaceRuns(ToLower(text));
    SpacelessIff(r);
    r
  }

  /** Capitalising only upper-cases letters in place, so lower-casing undoes it on a lower-case text. */
  lemma LowerCapitalize(s: string)
    requires IsLower(s)
    ensures ToLower(CapitalizeWords(s)) == s
  {
    var c := CapitalizeWords(s);
    forall k | 0 <= k < |s| ensures LowerChar(c[k]) == s[k] {
      assert LowerChar(s[k]) == s[k];
    }
  }

  /** A text with a single space where the first dash was, and no other white space, dashes back to the original. */
  lemma DashBack(slug: string)
    requires !HasSpace(slug)
    ensures DashSpaceRuns(ReplaceFirstDash(slug)) == slug
  {
    if '-' in slug {
      var i := IndexOf(slug, '-');
      NoSpaceParts(slug, i);
      SpacelessIff(slug[..i]);
      SpacelessIff(slug[i + 1..]);
      DashAt(slug, i);
      assert ReplaceFirstDash(slug) == slug[..i] + " " + slug[i + 1..];
    } else {
      SpacelessIff(slug);
    }
  }

  /** The dash at `i` turned into a space comes back as that dash. */
  lemma DashAt(slug: string, i: nat)
    requires i < |slug| && slug[i] == '-'
    requires Spaceless(slug[..i]) && Spaceless(slug[i + 1..])
    ensures DashSpaceRuns(slug[..i] + " " + slug[i + 1..]) == slug
  {
    DashAfterPrefix(slug[..i], slug[i + 1..]);
    SplitAround(slug, i);
  }

  lemma NoSpaceParts(s: string, i: nat)
    requires !HasSpace(s) && i < |s|
    ensures !HasSpace(s[..i]) && !HasSpace(s[i + 1..])
  {
    var front, back := s[..i], s[i + 1..];
    forall k | 0 <= k < |front| ensures !IsSpace(front[k]) {
      assert front[k] == s[k];
    }
    forall k | 0 <= k < |back| ensures !IsSpace(back[k]) {
      assert back[k] == s[i + 1 + k];
    }
  }

  /** Dashing `a + " " + b`, where neither part has white space, gives `a + "-" + b`. */
  lemma {:induction false} DashAfterPrefix(a: string, b: string)
    requires Spaceless(a) && Spaceless(b)
    ensures DashSpaceRuns(a + " " + b) == a + "-" + b
    decreases |a|
  {
    if a == [] {
      assert a + " " + b == " " + b && a + "-" + b == "-" + b;
      DashLeadingSpace(b);
    } else {
      HeadSplit(a, " ", b);
      HeadSplit(a, "-", b);
      DashStep(a[0], a[1..] + " " + b);
      DashAfterPrefix(a[1..], b);
    }
  }

  lemma HeadSplit(a: string, mid: string, b: string)
    requires a != []
    ensures a + mid + b == [a[0]] + (a[1..] + mid + b)
  {
    assert a == [a[0]] + a[1..];
  }

  lemma DashLeadingSpace(b: string)
    requires Spaceless(b)
    ensures DashSpaceRuns(" " + b) == "-" + b
  {
    var t := " " + b;
    assert t[0] == ' ' && t[1..] == b;
    assert TrimStart(b) == b;
  }

  lemma DashStep(c: char, rest: string)
    requires !IsSpace(c)
    ensures DashSpaceRuns([c] + rest) == [c] + DashSpaceRuns(rest)
  {
    var t := [c] + rest;
    assert t[0] == c && t[1..] == rest;
  }

  /**
   * Every option slug written in lower case without white space survives
   * the trip through the saved label and the edit-mode prefill.
   */
  lemma SlugLabelRoundTrip(slug: string)
    requires IsLower(slug) && !HasSpace(slug)
    ensures Slug(Label(slug)) == slug
  {
    var r := ReplaceFirstDash(slug);
    assert IsLower(r) by {
      forall k | 0 <= k < |r| ensures LowerChar(r[k]) == r[k] {
        if '-' in slug {
          var i := IndexOf(slug, '-');
          if k < i {
            assert r[k] == r[..i][k] == slug[..i][k];
          } else if k > i {
            assert r[k] == r[i + 1..][k - i - 1] == slug[i + 1..][k - i - 1];
          }
        }
      }
    }
    LowerCapitalize(r);
    DashBack(slug);
  }

  /** The position of the first celebrant whose printed id is `selection`, or the length when there is none. */
  function IdIndex(celebrants: seq<CelebrantOption>, selection: string): (k: nat)
    ensures k <= |celebrants|
    ensures k < |celebrants| ==> Js.IntToString(celebrants[k].id) == selection
    ensures forall j :: 0 <= j < k ==> Js.IntToString(celebrants[j].id) != selection
    decreases |celebrants|
  {
    if celebrants == [] || Js.IntToString(celebrants[0].id) == selection then 0
    else
      var k := 1 + IdIndex(celebrants[1..], selection);
      assert forall j :: 1 <= j < k ==> celebrants[j] == celebrants[1..][j - 1];
      k
  }

  /** `celebrants.find((c) => c.id.toString() === selection)`. */
  function FindById(celebrants: seq<CelebrantOption>, selection: string): (r: Option<CelebrantOption>)
    ensures r.None? <==> forall i :: 0 <= i < |celebrants| ==> Js.IntToString(celebrants[i].id) != selection
    ensures r.Some? ==> exists i :: (0 <= i < |celebrants| && celebrants[i] == r.value && Js.IntToString(r.value.id) == selection
      && forall j :: 0 <= j < i ==> Js.IntToString(celebrants[j].id) != selection)
  {
    var k := IdIndex(celebrants, selection);
    if k < |celebrants| then Some(celebrants[k]) else None
  }

  /** The position of the first celebrant named `name`, or the length when there is none. */
  function NameIndex(celebrants: seq<CelebrantOption>, name: string): (k: nat)
    ensures k <= |celebrants|
    ensures k < |celebrants| ==> celebrants[k].name == name
    ensures forall j :: 0 <= j < k ==> celebrants[j].name != name
    decreases |celebrants|
  {
    if celebrants == [] || celebrants[0].name == name then 0
    else
      var k := 1 + NameIndex(celebrants[1..], name);
      assert forall j :: 1 <= j < k ==> celebrants[j] == celebrants[1..][j - 1];
      k
  }

  /** `celebrants.find((c) => c.name === name)`. */
  function FindByName(celebrants: seq<CelebrantOption>, name: string): (r: Option<CelebrantOption>)
    ensures r.None? <==> forall i :: 0 <= i < |celebrants| ==> celebrants[i].name != name
    ensures r.Some? ==> exists i :: (0 <= i < |celebrants| && celebrants[i] == r.value && r.value.name == name
      && forall j :: 0 <= j < i ==> celebrants[j].name != name)
  {
    var k := NameIndex(celebrants, name);
    if k < |celebrants| then Some(celebrants[k]) else None
  }

  /** The `handleSubmit` guards in their order, then the record to save. */
  function Submit(form: FormData, celebrants: seq<CelebrantOption>): (r: SubmitOutcome)
    ensures r.Saved? <==> (form.celebrant !in {"", "default"} && form.eventType !in {"", "default"}
      && form.eventDate != "" && !Blank(form.message))
    ensures form.celebrant in {"", "default"} ==> r == Rejected(CelebrantAlert)
    ensures form.celebrant !in {"", "default"} && form.eventType in {"", "default"} ==> r == Rejected(EventTypeAlert)
    ensures form.celebrant !in {"", "default"} && form.eventType !in {"", "default"} && form.eventDate == ""
      ==> r == Rejected(EventDateAlert)
    ensures (form.celebrant !in {"", "default"} && form.eventType !in {"", "default"} && form.eventDate != ""
      && Blank(form.message)) ==> r == Rejected(MessageAlert)
    ensures r.Saved? ==> r.data.message == Trim(form.message) && r.data.message != "" && r.data.date == form.eventDate
    ensures r.Saved? ==> r.data.event == Label(form.eventType)
    ensures r.Saved? ==> r.data.celebrant == match FindById(celebrants, form.celebrant)
      case Some(c) => c.name
      case None => form.celebrant
  {
    TrimEmptyIffBlank(form.message);
    if form.celebrant == "default" || form.celebrant == "" then Rejected(CelebrantAlert)
    else if form.eventType == "default" || form.eventType == "" then Rejected(EventTypeAlert)
    else if form.eventDate == "" then Rejected(EventDateAlert)
    else if Trim(form.message) == "" then Rejected(MessageAlert)
    else
      var selected := FindById(celebrants, form.celebrant);
      var name := if selected.Some? then selected.value.name else form.celebrant;
      Saved(EventData(Label(form.eventType), name, form.eventDate, Trim(form.message)))
  }

  /** The edit-mode prefill: celebrant name back to its id, label back to a slug. */
  function Prefill(data: EventData, celebrants: seq<CelebrantOption>): (r: FormData)
    ensures r.eventDate == data.date && r.message == data.message
    ensures r.eventType == Slug(data.event)
    ensures FindByName(celebrants, data.celebrant).None? <==> r.celebrant == ""
    ensures FindByName(celebrants, data.celebrant).Some? ==>
      r.celebrant == Js.IntToString(FindByName(celebrants, data.celebrant).value.id)
  {
    var found := FindByName(celebrants, data.celebrant);
    var celebrantId := if found.Some? then Js.IntToString(found.value.id) else "";
    FormData(celebrantId, Slug(data.event), data.date, data.message)
  }

  /** Distinct ids print differently, so finding by the printed id finds that celebrant. */
  predicate IdsDistinct(celebrants: seq<CelebrantOption>) {
    forall i, j :: 0 <= i < j < |celebrants| ==> celebrants[i].id != celebrants[j].id
  }

  /** A printed integer starts with a minus sign exactly when it is negative. */
  lemma SignChar(n: int)
    ensures |Js.IntToString(n)| >= 1
    ensures Js.IntToString(n)[0] == '-' <==> n < 0
  {
    if n >= 0 {
      assert IsDigit(NatToString(n)[0]);
    }
  }

  lemma IntToStringInjective(a: int, b: int)
    requires Js.IntToString(a) == Js.IntToString(b)
    ensures a == b
  {
    SignChar(a);
    SignChar(b);
    if a < 0 {
      assert Js.IntToString(a)[1..] == NatToString(-a);
      assert Js.IntToString(b)[1..] == NatToString(-b);
      NatToStringInjective(-a, -b);
    } else {
      NatToStringInjective(a, b);
    }
  }

  /** A printed id is never empty and never "default". */
  lemma IdTextSelectable(id: int)
    ensures Js.IntToString(id) !in {"", "default"}
  {
    var t := Js.IntToString(id);
    if id >= 0 {
      assert IsDigit(t[0]);
    } else {
      assert t[0] == '-';
    }
  }

  /** With distinct ids, finding by a listed celebrant's printed id finds that celebrant. */
  lemma FindByListedId(celebrants: seq<CelebrantOption>, i: int)
    requires IdsDistinct(celebrants) && 0 <= i < |celebrants|
    ensures FindById(celebrants, Js.IntToString(celebrants[i].id)) == Some(celebrants[i])
  {
    var text := Js.IntToString(celebrants[i].id);
    var k := IdIndex(celebrants, text);
    assert k <= i;
    IntToStringInjective(celebrants[k].id, celebrants[i].id);
  }

  /**
   * Editing an event that this form saved and submitting it unchanged
   * saves the same event again, provided its celebrant is still listed
   * and the celebrant ids are distinct.
   */
  lemma EditWithoutChangesSavesSame(slug: string, data: EventData, celebrants: seq<CelebrantOption>)
    requires IsLower(slug) && !HasSpace(slug) && slug !in {"", "default"}
    requires data.event == Label(slug) && data.date != ""
    requires data.message != "" && Trim(data.message) == data.message
    requires FindByName(celebrants, data.celebrant).Some? && IdsDistinct(celebrants)
    ensures Submit(Prefill(data, celebrants), celebrants) == Saved(data)
  {
    var i := NameIndex(celebrants, data.celebrant);
    var c := celebrants[i];
    FindByListedId(celebrants, i);
    IdTextSelectable(c.id);
    SlugLabelRoundTrip(slug);
    var form := Prefill(data, celebrants);
    assert form == FormData(Js.IntToString(c.id), slug, data.date, data.message);
    SubmitSaves(form, celebrants, data);
  }

  /** A form that passes every guard saves the record its fields determine. */
  lemma SubmitSaves(form: FormData, celebrants: seq<CelebrantOption>, data: EventData)
    requires form.celebrant !in {"", "default"} && form.eventType !in {"", "default"} && form.eventDate != ""
    requires FindById(celebrants, form.celebrant).Some? && FindById(celebrants, form.celebrant).value.name == data.celebrant
    requires data == EventData(Label(form.eventType), data.celebrant, form.eventDate, form.message)
    requires form.message != "" && Trim(form.message) == form.message
    ensures Submit(form, celebrants) == Saved(data)
  {
    TrimEmptyIffBlank(form.message);
  }

  /** The form component's state, with the calls it made to `onSaveEvent` and to `alert`. */
  class EventFormView {
    var formData: FormData
    var saved: seq<EventData>
    var alerts: seq<string>

    constructor ()
      ensures formData == InitialForm && saved == [] && alerts == []
    {
      formData, saved, alerts := InitialForm, [], [];
    }

    /** `handleInputChange`: the named input takes the new value; the others keep theirs. */
    method HandleInputChange(name: Field, value: string)
      modifies this
      ensures formData == match name
        case CelebrantField => old(formData).(celebrant := value)
        case EventTypeField => old(formData).(eventType := value)
        case EventDateField => old(formData).(eventDate := value)
        case MessageField => old(formData).(message := value)
      ensures saved == old(saved) && alerts == old(alerts)
    {
      match name
      case CelebrantField => formData := formData.(celebrant := value);
      case EventTypeField => formData := formData.(eventType := value);
      case EventDateField => formData := formData.(eventDate := value);
      case MessageField => formData := formData.(message := value);
    }

    /** The prefill effect: in edit mode with an event, the form is replaced by the event's values. */
    method PrefillEffect(editMode: bool, eventData: Option<EventData>, celebrants: seq<CelebrantOption>)
      modifies this
      ensures editMode && eventData.Some? ==> formData == Prefill(eventData.value, celebrants)
      ensures !(editMode && eventData.Some?) ==> formData == old(formData)
      ensures saved == old(saved) && alerts == old(alerts)
    {
      if editMode && eventData.Some? {
        formData := Prefill(eventData.value, celebrants);
      }
    }

    /**
     * `handleSubmit`: on a failed guard one alert and no save; otherwise
     * one call to `onSaveEvent` when that prop was given, and the success
     * alert whether or not it was.
     */
    method HandleSubmit(celebrants: seq<CelebrantOption>, editMode: bool, hasOnSaveEvent: bool)
      modifies this
      ensures formData == old(formData)
      ensures Submit(old(formData), celebrants).Rejected? ==>
        saved == old(saved) && alerts == old(alerts) + [Submit(old(formData), celebrants).alert]
      ensures Submit(old(formData), celebrants).Saved? ==>
        saved == old(saved) + (if hasOnSaveEvent then [Submit(old(formData), celebrants).data] else [])
        && alerts == old(alerts) + [SuccessAlert(Submit(old(formData), celebrants).data, editMode)]
    {
      var outcome := Submit(formData, celebrants);
      match outcome
      case Rejected(alert) =>
        alerts := alerts + [alert];
      case Saved(data) =>
        if hasOnSaveEvent {
          saved := saved + [data];
        }
        alerts := alerts + [SuccessAlert(data, editMode)];
    }
  }

  /** The confirmation shown after a save. */
  function SuccessAlert(data: EventData, editMode: bool): string {
    "Event \"" + data.event + "\" for " + data.celebrant + " has been " + (if editMode then "updated" else "saved") + " successfully!"
  }
}
