/**
 * The add/edit celebrant form of the client: the two submit guards, the
 * trimmed name of the saved record, the initial values and the edit-mode
 * prefill defaults.
 */
module CelebrantForm {
  import opened Wrappers
  import opened Strings

  /** The form's fields; every value is a string. */
  datatype FormData = FormData(name: string, relationship: string, ageGroup: string, likes: string, image: string)

  /** The inputs the form renders; the image has none. */
  datatype Field = NameField | RelationshipField | AgeGroupField | LikesField

  /** A stored celebrant as the edit page hands it over: each field a string or absent. */
  datatype CelebrantData = CelebrantData(name: Option<string>, relationship: Option<string>, ageGroup: Option<string>,
                                         likes: Option<string>, image: Option<string>)

  datatype SubmitOutcome = Rejected(alert: string) | Saved(data: FormData)

  const DefaultImage: string := "/contact-p-p.png"

  const InitialForm: FormData := FormData("", "", "", "", DefaultImage)

  const NameAlert: string := "Please enter a celebrant name"
  const RelationshipAlert: string := "Please select a relationship"

  /** `value || fallback` on a string or absent value: the empty string is falsy too. */
  function OrDefault(value: Option<string>, fallback: string): (r: string)
    ensures value.Some? && value.value != "" ==> r == value.value
    ensures value.None? || value.value == "" ==> r == fallback
  {
    if value.Some? && value.value != "" then value.value else fallback
  }

  /**
   * `handleSubmit`: a blank name is refused first, then a missing
   * relationship; the age group, likes and image are not looked at. The
   * saved record is the form with only its name trimmed.
   */
  function Submit(form: FormData): (r: SubmitOutcome)
    ensures r.Saved? <==> (!Blank(form.name) && form.relationship !in {"", "default"})
    ensures Blank(form.name) ==> r == Rejected(NameAlert)
    ensures !Blank(form.name) && form.relationship in {"", "default"} ==> r == Rejected(RelationshipAlert)
    ensures r.Saved? ==> r.data.name == Trim(form.name) && r.data.name != ""
    ensures r.Saved? ==> r.data.(name := form.name) == form
  {
    TrimEmptyIffBlank(form.name);
    if Trim(form.name) == "" then Rejected(NameAlert)
    else if form.relationship == "default" || form.relationship == "" then Rejected(RelationshipAlert)
    else Saved(form.(name := Trim(form.name)))
  }

  /** What submitting decides does not depend on the age group, the likes or the image: "default" passes for an age group. */
  lemma SubmitIgnoresUnchecked(form: FormData, ageGroup: string, likes: string, image: string)
    ensures Submit(form.(ageGroup := ageGroup, likes := likes, image := image)).Saved? == Submit(form).Saved?
  {
  }

  /** A saved record passes the guards again and is saved unchanged: its name is already trimmed. */
  lemma {:induction false} SubmitSavedIsFixed(form: FormData)
    requires Submit(form).Saved?
    ensures Submit(Submit(form).data) == Submit(form)
  {
    TrimIdempotent(form.name);
    TrimEmptyIffBlank(Trim(form.name));
  }

  /** The edit-mode prefill: absent or empty fields become "", an absent or empty image the default one. */
  function Prefill(data: CelebrantData): (r: FormData)
    ensures r.image != ""
    ensures r.name == OrDefault(data.name, "") && r.relationship == OrDefault(data.relationship, "")
    ensures r.ageGroup == OrDefault(data.ageGroup, "") && r.likes == OrDefault(data.likes, "")
    ensures r.image == OrDefault(data.image, DefaultImage)
  {
    FormData(OrDefault(data.name, ""), OrDefault(data.relationship, ""), OrDefault(data.ageGroup, ""),
             OrDefault(data.likes, ""), OrDefault(data.image, DefaultImage))
  }

  /** The stored form of a saved record: every field present. */
  function Stored(form: FormData): CelebrantData {
    CelebrantData(Some(form.name), Some(form.relationship), Some(form.ageGroup), Some(form.likes), Some(form.image))
  }

  /**
   * Editing a celebrant this form saved and submitting it unchanged saves
   * the same record again, as long as it has an image.
   */
  lemma {:induction false} EditWithoutChangesSavesSame(form: FormData)
    requires Submit(form).Saved? && form.image != ""
    ensures Submit(Prefill(Stored(Submit(form).data))) == Submit(form)
  {
    var saved := Submit(form).data;
    assert Prefill(Stored(saved)) == saved;
    SubmitSavedIsFixed(form);
  }

  /** The form component's state, with the calls it made to `onSaveCelebrant` and to `alert`. */
  class CelebrantFormView {
    var formData: FormData
    var saved: seq<FormData>
    var alerts: seq<string>

    constructor ()
      ensures formData == InitialForm && saved == [] && alerts == []
    {
      formData, saved, alerts := InitialForm, [], [];
    }

    /** `handleInputChange`: the named input takes the new value; the other fields keep theirs. */
    method HandleInputChange(name: Field, value: string)
      modifies this
      ensures formData == match name
        case NameField => old(formData).(name := value)
        case RelationshipField => old(formData).(relationship := value)
        case AgeGroupField => old(formData).(ageGroup := value)
        case LikesField => old(formData).(likes := value)
      ensures saved == old(saved) && alerts == old(alerts)
    {
      match name
      case NameField => formData := formData.(name := value);
      case RelationshipField => formData := formData.(relationship := value);
      case AgeGroupField => formData := formData.(ageGroup := value);
      case LikesField => formData := formData.(likes := value);
    }

    /** The prefill effect: in edit mode with a celebrant, the form is replaced by its values. */
    method PrefillEffect(editMode: bool, celebrantData: Option<CelebrantData>)
      modifies this
      ensures editMode && celebrantData.Some? ==> formData == Prefill(celebrantData.value)
      ensures !(editMode && celebrantData.Some?) ==> formData == old(formData)
      ensures saved == old(saved) && alerts == old(alerts)
    {
      if editMode && celebrantData.Some? {
        formData := Prefill(celebrantData.value);
      }
    }

    /**
     * `handleSubmit`: on a failed guard one alert and no save; otherwise
     * one call to `onSaveCelebrant` when that prop was given, and the
     * success alert whether or not it was.
     */
    method HandleSubmit(editMode: bool, hasOnSaveCelebrant: bool)
      modifies this
      ensures formData == old(formData)
      ensures Submit(old(formData)).Rejected? ==>
        saved == old(saved) && alerts == old(alerts) + [Submit(old(formData)).alert]
      ensures Submit(old(formData)).Saved? ==>
        saved == old(saved) + (if hasOnSaveCelebrant then [Submit(old(formData)).data] else [])
        && alerts == old(alerts) + [SuccessAlert(Submit(old(formData)).data, editMode)]
    {
      var outcome := Submit(formData);
      match outcome
      case Rejected(alert) =>
        alerts := alerts + [alert];
      case Saved(data) =>
        if hasOnSaveCelebrant {
          saved := saved + [data];
        }
        alerts := alerts + [SuccessAlert(data, editMode)];
    }
  }

  /** The confirmation shown after a save. */
  function SuccessAlert(data: FormData, editMode: bool): string {
    "Celebrant \"" + data.name + "\" has been " + (if editMode then "updated" else "saved") + " successfully!"
  }
}
