/**
 * What a Mongoose `String` path does with a value: the `trim` and
 * `lowercase` setters, applied when the value is assigned, and the
 * `required`, `maxlength` and `match` validators, applied on save.
 * Values of other types are not converted to strings; they are kept as
 * they are and fail the string validators.
 */
module SchemaString {
  import opened Strings
  import opened Js
  import EmailRegex

  /** The `trim: true` setter: strings are trimmed, anything else is left alone. */
  function TrimValue(v: Value): (r: Value)
    ensures v.Str? <==> r.Str?
    ensures r.Str? ==> r.s == Trim(v.s)
    ensures !v.Str? ==> r == v
  {
    if v.Str? then Str(Trim(v.s)) else v
  }

  /** The `lowercase: true` and `trim: true` setters together. */
  function LowerTrimValue(v: Value): (r: Value)
    ensures v.Str? <==> r.Str?
    ensures r.Str? ==> IsLower(r.s) && r.s == Trim(ToLower(v.s))
    ensures !v.Str? ==> r == v
  {
    if v.Str? then
      ToLowerIsLower(v.s);
      TrimKeepsLower(ToLower(v.s));
      Str(Trim(ToLower(v.s)))
    else v
  }

  /** Assigning a value that already went through the setter changes nothing. */
  lemma TrimValueIdempotent(v: Value)
    ensures TrimValue(TrimValue(v)) == TrimValue(v)
  {
    if v.Str? {
      TrimIdempotent(v.s);
    }
  }

  lemma LowerTrimValueIdempotent(v: Value)
    ensures LowerTrimValue(LowerTrimValue(v)) == LowerTrimValue(v)
  {
    if v.Str? {
      LowerFixed(LowerTrimValue(v).s);
      TrimIdempotent(ToLower(v.s));
    }
  }

  /** `required` on a string path: a string, and not empty. */
  predicate RequiredString(v: Value) {
    v.Str? && v.s != ""
  }

  /** `maxlength` on a path that is not required, in UTF-16 code units: an absent or null value passes. */
  predicate OptionalString(v: Value, maxLength: nat) {
    v.Undefined? || v.Null? || (v.Str? && CodeUnits(v.s) <= maxLength)
  }

  /** The `match` validator with the e-mail pattern: an absent, null or empty value passes. */
  predicate EmailMatch(v: Value) {
    v.Undefined? || v.Null? || (v.Str? && (v.s == "" || EmailRegex.Matches(v.s)))
  }
}
