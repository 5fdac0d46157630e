/**
 * The celebrant document of the JWT backend: the casting and validation
 * rules its schema applies on save, the age computation and the
 * upcoming-birthday virtual. "Today" and "now" come from the clock and
 * are inputs.
 */
module CelebrantSchema {
  import opened Wrappers
  import opened Strings
  import opened Js
  import opened Calendar
  import EmailRegex
  import opened SchemaString

  const Relationships: seq<string> := [
    "Father", "Mother", "Brother", "Sister", "Uncle", "Aunt", "Grandfather", "Grandmother",
    "Cousin", "Friend", "Colleague", "Partner", "Spouse", "Son", "Daughter", "Other"
  ]

  const AgeGroups: seq<string> := ["Child", "Teen", "Young Adult", "Adult", "Senior"]

  /** The image a celebrant gets when none is given. */
  const DefaultImage: string := "/contact-p-p.png"

  /**
   * A celebrant document. The string paths hold whatever value they were
   * given (absent is `Undefined`); `contactInfo` is a nested path with the
   * two leaves `email` and `phone`.
   */
  datatype Celebrant = Celebrant(
    userId: Oid,
    name: Value,
    relationship: Value,
    ageGroup: Value,
    likes: Value,
    image: Value,
    email: Value,
    phone: Value,
    birthday: Option<Date>,
    notes: Value)

  /** What the schema's setters and defaults turn a document into before it is validated. */
  /** The image path: the default when absent, trimmed otherwise. */
  function CastImage(v: Value): Value {
    if v.Undefined? then Str(DefaultImage) else TrimValue(v)
  }

  function Cast(c: Celebrant): Celebrant {
    c.(name := TrimValue(c.name),
       relationship := TrimValue(c.relationship),
       ageGroup := TrimValue(c.ageGroup),
       likes := TrimValue(c.likes),
       image := CastImage(c.image),
       email := LowerTrimValue(c.email),
       phone := TrimValue(c.phone),
       notes := TrimValue(c.notes))
  }

  /** The schema's validators, on a cast document. */
  predicate Valid(c: Celebrant) {
    && NameValid(c.name)
    && ListedValid(c.relationship, Relationships)
    && ListedValid(c.ageGroup, AgeGroups)
    && OptionalString(c.likes, 500)
    && OptionalString(c.notes, 1000)
    && EmailMatch(c.email)
  }

  /** `required`, `minlength` 2 and `maxlength` 50 on the name path, counted in UTF-16 code units. */
  predicate NameValid(v: Value) {
    RequiredString(v) && 2 <= CodeUnits(v.s) <= 50
  }

  /** `required` and `enum` on a path with listed values. */
  predicate ListedValid(v: Value, listed: seq<string>) {
    RequiredString(v) && v.s in listed
  }

  /** Saving a document: cast it, then validate it; a validation failure is an error. */
  function Admit(c: Celebrant): Result<Celebrant, string> {
    var d := Cast(c);
    if Valid(d) then Ok(d) else Err("Validation failed")
  }

  /** The name rule, read on the value before casting: a string whose trim has 2 to 50 code units. */
  predicate NameAccepted(v: Value) {
    v.Str? && 2 <= CodeUnits(Trim(v.s)) <= 50
  }

  /** `required` and `enum`, read on the value before casting: a string whose trim is listed. */
  predicate ListedAccepted(v: Value, listed: seq<string>) {
    v.Str? && Trim(v.s) in listed
  }

  /** The `maxlength` rule of an optional path, read on the value before casting. */
  predicate OptionalAccepted(v: Value, maxLength: nat) {
    v.Undefined? || v.Null? || (v.Str? && CodeUnits(Trim(v.s)) <= maxLength)
  }

  /** The e-mail rule, read on the value before casting: absent, null, or lower-cased and trimmed to empty or a match. */
  predicate EmailAccepted(v: Value) {
    v.Undefined? || v.Null? || (v.Str? && (Trim(ToLower(v.s)) == "" || EmailRegex.Matches(Trim(ToLower(v.s)))))
  }

  /**
   * Which documents the schema accepts, in terms of what the client sent:
   * the trimmed name has 2 to 50 UTF-16 code units, the trimmed relationship and
   * age group are among the listed ones, the trimmed likes and notes fit
   * their limits, and the lower-cased, trimmed e-mail is empty or matches
   * the pattern.
   */
  lemma AdmitAccepts(c: Celebrant)
    ensures Admit(c).Ok? <==>
      && NameAccepted(c.name)
      && ListedAccepted(c.relationship, Relationships)
      && ListedAccepted(c.ageGroup, AgeGroups)
      && OptionalAccepted(c.likes, 500)
      && OptionalAccepted(c.notes, 1000)
      && EmailAccepted(c.email)
  {
    var d := Cast(c);
    ListedValuesNonEmpty();
    RequiredListed(c.relationship, Relationships);
    RequiredListed(c.ageGroup, AgeGroups);
    assert NameValid(d.name) <==> NameAccepted(c.name);
    assert OptionalString(d.likes, 500) <==> OptionalAccepted(c.likes, 500);
    assert OptionalString(d.notes, 1000) <==> OptionalAccepted(c.notes, 1000);
    assert EmailMatch(d.email) <==> EmailAccepted(c.email);
  }

  /** `required` together with `enum`, on a trimmed path. */
  lemma RequiredListed(v: Value, listed: seq<string>)
    requires "" !in listed
    ensures ListedValid(TrimValue(v), listed) <==> ListedAccepted(v, listed)
  {
  }

  /** The empty string is neither a relationship nor an age group, so `required` adds nothing to `enum`. */
  lemma ListedValuesNonEmpty()
    ensures "" !in Relationships && "" !in AgeGroups
  {
  }

  /** What a successful save stores: the owner and birthday as given, the strings cast, the default image filled in. */
  lemma AdmitStores(c: Celebrant)
    requires Admit(c).Ok?
    ensures Admit(c).value.userId == c.userId && Admit(c).value.birthday == c.birthday
    ensures Admit(c).value.name == Str(Trim(c.name.s))
    ensures c.image.Undefined? ==> Admit(c).value.image == Str(DefaultImage)
    ensures c.image.Str? ==> Admit(c).value.image == Str(Trim(c.image.s))
    ensures Admit(c).value.email.Str? ==> IsLower(Admit(c).value.email.s)
  {
  }

  /** Saving a stored document again changes nothing: every setter is idempotent. */
  lemma AdmitIdempotent(c: Celebrant)
    requires Admit(c).Ok?
    ensures Admit(Admit(c).value) == Admit(c)
  {
    CastIdempotent(c);
  }

  /** Casting a cast document changes nothing. */
  lemma CastIdempotent(c: Celebrant)
    ensures Cast(Cast(c)) == Cast(c)
  {
    TrimValueIdempotent(c.name);
    TrimValueIdempotent(c.relationship);
    TrimValueIdempotent(c.ageGroup);
    TrimValueIdempotent(c.likes);
    TrimValueIdempotent(c.notes);
    CastImageIdempotent(c.image);
    TrimValueIdempotent(c.phone);
    LowerTrimValueIdempotent(c.email);
  }

  lemma CastImageIdempotent(v: Value)
    ensures CastImage(CastImage(v)) == CastImage(v)
  {
    if v.Undefined? {
      TrimNoSpaceEnds(DefaultImage);
    } else {
      TrimValueIdempotent(v);
    }
  }

  /**
   * `getAge`: null without a birthday; otherwise the number of whole
   * years since it, i.e. the anniversary `age` years on is on or before
   * today and the next one is after today.
   */
  function GetAge(birthday: Option<Date>, today: Date): (age: Option<int>)
    ensures birthday.None? <==> age.None?
    ensures birthday.Some? ==>
      var b := birthday.value;
      && OnOrBefore(Date(b.year + age.value, b.month, b.day), today)
      && Before(today, Date(b.year + age.value + 1, b.month, b.day))
  {
    match birthday
    case None => None
    case Some(b) =>
      var age := today.year - b.year;
      var monthDiff := today.month - b.month;
      if monthDiff < 0 || (monthDiff == 0 && today.day < b.day) then Some(age - 1) else Some(age)
  }

  /** Nobody is a negative number of years old on or after their birthday. */
  lemma AgeNonNegative(b: Date, today: Date)
    requires OnOrBefore(b, today)
    ensures GetAge(Some(b), today).value >= 0
  {
  }

  /** Age never decreases as time goes on. */
  lemma AgeMonotone(b: Date, t1: Date, t2: Date)
    requires OnOrBefore(t1, t2)
    ensures GetAge(Some(b), t1).value <= GetAge(Some(b), t2).value
  {
  }

  /** On the birthday itself the age goes up by exactly one over any earlier day of that year. */
  lemma BirthdayIncrement(b: Date, t: Date)
    requires t.year >= b.year && Before(t, Date(t.year, b.month, b.day))
    ensures GetAge(Some(b), Date(t.year, b.month, b.day)).value == GetAge(Some(b), t).value + 1
    ensures GetAge(Some(b), Date(t.year, b.month, b.day)).value == t.year - b.year
  {
  }

  /** The clock reading the virtual compares against: today's date and the milliseconds since local midnight. */
  datatype Moment = Moment(date: Date, msOfDay: nat)

  /** Midnight at the start of `d` is earlier than `now`. */
  predicate MidnightBefore(d: Date, now: Moment) {
    Before(d, now.date) || (d == now.date && now.msOfDay > 0)
  }

  /**
   * The `upcomingBirthday` virtual: null without a birthday; otherwise
   * the birthday's month and day in the current year, or in the next one
   * when midnight of this year's is already past. Any time after
   * midnight on the birthday itself already counts as past.
   */
  function UpcomingBirthday(birthday: Option<Date>, now: Moment): (r: Option<Date>)
    ensures birthday.None? <==> r.None?
    ensures birthday.Some? ==>
      var b := birthday.value;
      && r.value.month == b.month && r.value.day == b.day
      && !MidnightBefore(r.value, now)
      && (r.value.year == now.date.year || (r.value.year == now.date.year + 1 && MidnightBefore(Date(now.date.year, b.month, b.day), now)))
  {
    match birthday
    case None => None
    case Some(b) =>
      var thisYear := now.date.year;
      var thisYearBirthday := Date(thisYear, b.month, b.day);
      if MidnightBefore(thisYearBirthday, now) then Some(Date(thisYear + 1, b.month, b.day))
      else Some(thisYearBirthday)
  }
}
