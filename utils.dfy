/**
 * The client's string and date helpers: `truncateText`, `isValidEmail`,
 * `getTodaysDate` and `isToday`. Today's UTC date, which the helpers read
 * from the clock, is an input.
 */
module Utils {
  import opened Wrappers
  import opened Strings
  import opened Calendar
  import EmailRegex

  /** The default `maxLength` of `truncateText`. */
  const DefaultMaxLength: int := 100

  /**
   * `text.slice(0, end)`: a negative end counts back from the end of the
   * text, and the end is clamped to the text.
   */
  function SliceTo(text: string, end: int): (r: string)
    ensures end >= 0 ==> r == text[..if end <= |text| then end else |text|]
    ensures end < 0 ==> r == text[..if |text| + end >= 0 then |text| + end else 0]
  {
    var e := if end < 0 then (if |text| + end >= 0 then |text| + end else 0) else (if end <= |text| then end else |text|);
    text[..e]
  }

  /** `truncateText(text, maxLength)`. */
  function TruncateText(text: string, maxLength: int): (r: string)
    ensures |text| <= maxLength ==> r == text
    ensures 0 <= maxLength < |text| ==> |r| == maxLength + 3 && r == text[..maxLength] + "..."
    ensures |text| > maxLength ==> EndsWith(r, "...")
  {
    if |text| <= maxLength then text else SliceTo(text, maxLength) + "..."
  }

  /** `truncateText(text)`, with the default length. */
  function TruncateDefault(text: string): (r: string)
    ensures |text| <= 100 ==> r == text
    ensures |text| > 100 ==> |r| == 103 && r[..100] == text[..100]
  {
    TruncateText(text, DefaultMaxLength)
  }

  /** A truncated text is never longer than the limit plus the three dots, and it starts like the text. */
  lemma TruncateBounds(text: string, maxLength: nat)
    ensures |TruncateText(text, maxLength)| <= maxLength + 3
    ensures |TruncateText(text, maxLength)| <= |text| || |text| > maxLength
    ensures var keep := if |text| <= maxLength then |text| else maxLength;
      keep <= |TruncateText(text, maxLength)| && TruncateText(text, maxLength)[..keep] == text[..keep]
  {
  }

  /** Truncating twice with the same non-negative limit is truncating once. */
  lemma TruncateIdempotent(text: string, maxLength: nat)
    ensures TruncateText(TruncateText(text, maxLength), maxLength) == TruncateText(text, maxLength)
  {
    if |text| > maxLength {
      var r := TruncateText(text, maxLength);
      assert r[..maxLength] == text[..maxLength];
    }
  }

  /** With a negative limit the function is not idempotent: each call cuts further back from the end. */
  lemma TruncateNegativeNotIdempotent()
    ensures TruncateText("abcdef", -1) == "abcde..."
    ensures TruncateText(TruncateText("abcdef", -1), -1) == "abcde....."
  {
    assert "abcdef"[..5] == "abcde";
    assert ("abcde" + "...")[..7] == "abcde..";
  }

  /** `[^\s@]`: neither white space nor `@`. */
  predicate EmailChar(c: char) {
    !IsSpace(c) && c != '@'
  }

  predicate AllEmailChars(s: string) {
    forall k :: 0 <= k < |s| ==> EmailChar(s[k])
  }

  /**
   * `isValidEmail`: the pattern `^[^\s@]+@[^\s@]+\.[^\s@]+$`, i.e. the
   * text splits into a local part, `@`, a middle, `.` and a last part,
   * none of them empty or holding white space or `@`.
   */
  predicate IsValidEmail(s: string) {
    exists i, j :: 0 < i && i + 1 < j && j + 1 < |s| && s[i] == '@' && s[j] == '.'
      && AllEmailChars(s[..i]) && AllEmailChars(s[i + 1..j]) && AllEmailChars(s[j + 1..])
  }

  /** The text has no white space and exactly one `@`, at position `i`. */
  predicate OneAtNoSpace(s: string, i: int) {
    && 0 <= i < |s| && s[i] == '@'
    && (forall k :: 0 <= k < |s| ==> !IsSpace(s[k]))
    && (forall k :: 0 <= k < |s| && k != i ==> s[k] != '@')
  }

  /**
   * The accepted texts, described without the pattern: no white space,
   * exactly one `@` with something before it, and after it a `.` that is
   * neither the first nor the last character of the domain.
   */
  lemma IsValidEmailIff(s: string)
    ensures IsValidEmail(s) <==>
      exists i :: OneAtNoSpace(s, i) && 0 < i && exists j :: i + 1 < j < |s| - 1 && s[j] == '.'
  {
    if IsValidEmail(s) {
      ValidEmailShape(s);
    }
    if exists i :: OneAtNoSpace(s, i) && 0 < i && exists j :: i + 1 < j < |s| - 1 && s[j] == '.' {
      var i :| OneAtNoSpace(s, i) && 0 < i && exists j :: i + 1 < j < |s| - 1 && s[j] == '.';
      var j :| i + 1 < j < |s| - 1 && s[j] == '.';
      ShapeValidEmail(s, i, j);
    }
  }

  lemma ValidEmailShape(s: string)
    requires IsValidEmail(s)
    ensures exists i :: OneAtNoSpace(s, i) && 0 < i && exists j :: i + 1 < j < |s| - 1 && s[j] == '.'
  {
    var i, j :| 0 < i && i + 1 < j && j + 1 < |s| && s[i] == '@' && s[j] == '.'
      && AllEmailChars(s[..i]) && AllEmailChars(s[i + 1..j]) && AllEmailChars(s[j + 1..]);
    forall k | 0 <= k < |s| && k != i
      ensures !IsSpace(s[k]) && s[k] != '@'
    {
      if k < i {
        assert s[k] == s[..i][k];
      } else if k < j {
        assert s[k] == s[i + 1..j][k - i - 1];
      } else if k > j {
        assert s[k] == s[j + 1..][k - j - 1];
      }
    }
    assert OneAtNoSpace(s, i);
  }

  lemma ShapeValidEmail(s: string, i: int, j: int)
    requires OneAtNoSpace(s, i) && 0 < i && i + 1 < j < |s| - 1 && s[j] == '.'
    ensures IsValidEmail(s)
  {
    assert AllEmailChars(s[..i]);
    assert AllEmailChars(s[i + 1..j]);
    assert AllEmailChars(s[j + 1..]);
  }

  /** Text with white space, without `@`, or with two of them is rejected. */
  lemma IsValidEmailRejects(s: string)
    ensures HasSpace(s) ==> !IsValidEmail(s)
    ensures '@' !in s ==> !IsValidEmail(s)
    ensures (exists a, b :: 0 <= a < b < |s| && s[a] == '@' && s[b] == '@') ==> !IsValidEmail(s)
  {
    IsValidEmailIff(s);
  }

  /** Every character of a top-level-domain tail is a word character or a dot. */
  lemma {:induction false} TldGroupsChars(s: string)
    requires EmailRegex.TldGroups(s)
    ensures forall k :: 0 <= k < |s| ==> IsWordChar(s[k]) || s[k] == '.'
    decreases |s|
  {
    if |s| > 3 {
      if IsWordChar(s[3]) && |s| > 4 && EmailRegex.TldGroups(s[4..]) {
        TldGroupsChars(s[4..]);
        forall k | 4 <= k < |s| ensures IsWordChar(s[k]) || s[k] == '.' {
          assert s[k] == s[4..][k - 4];
        }
      } else if !(IsWordChar(s[3]) && |s| == 4) {
        TldGroupsChars(s[3..]);
        forall k | 3 <= k < |s| ensures IsWordChar(s[k]) || s[k] == '.' {
          assert s[k] == s[3..][k - 3];
        }
      }
    }
  }

  /** Word characters and the two separators are all allowed by `[^\s@]`. */
  lemma DottedWordsEmailChars(s: string)
    requires EmailRegex.DottedWords(s)
    ensures AllEmailChars(s)
  {
    forall k | 0 <= k < |s| ensures EmailChar(s[k]) {
      assert IsWordChar(s[k]) || EmailRegex.IsSep(s[k]);
    }
  }

  /** The schema's e-mail pattern is stricter than the client's: whatever the server accepts, the form accepts. */
  lemma SchemaEmailIsValidEmail(s: string)
    requires EmailRegex.Matches(s)
    ensures IsValidEmail(s)
  {
    var i :| 0 <= i < |s| && s[i] == '@' && EmailRegex.DottedWords(s[..i]) && EmailRegex.Domain(s[i + 1..]);
    var d := s[i + 1..];
    var j :| 0 < j < |d| && EmailRegex.DottedWords(d[..j]) && EmailRegex.TldGroups(d[j..]);
    SchemaEmailParts(s, i, j);
  }

  lemma SchemaEmailParts(s: string, i: nat, j: nat)
    requires i < |s| && s[i] == '@' && EmailRegex.DottedWords(s[..i])
    requires 0 < j < |s| - i - 1 && EmailRegex.DottedWords(s[i + 1..][..j]) && EmailRegex.TldGroups(s[i + 1..][j..])
    ensures IsValidEmail(s)
  {
    var d := s[i + 1..];
    var dot := i + 1 + j;
    DottedWordsEmailChars(s[..i]);
    DottedWordsEmailChars(d[..j]);
    TldTailEmailChars(d[j..]);
    assert s[i + 1..dot] == d[..j];
    assert s[dot + 1..] == d[j..][1..];
    assert s[dot] == '.';
    assert 0 < i && i + 1 < dot && dot + 1 < |s|;
    assert AllEmailChars(s[..i]) && AllEmailChars(s[i + 1..dot]) && AllEmailChars(s[dot + 1..]);
  }

  /** After its leading dot, a top-level-domain tail holds no white space and no `@`. */
  lemma TldTailEmailChars(t: string)
    requires EmailRegex.TldGroups(t)
    ensures |t| >= 3 && t[0] == '.' && AllEmailChars(t[1..])
  {
    TldGroupsChars(t);
    forall k | 0 <= k < |t| - 1 ensures EmailChar(t[1..][k]) {
      assert t[1..][k] == t[k + 1];
    }
  }

  /** `n` zeros. */
  function Zeros(n: nat): (z: string)
    ensures |z| == n && AllDigits(z)
  {
    seq(n, _ => '0')
  }

  /** `String(n).padStart(width, "0")`: `n` written with at least `width` digits. */
  function PadStart(n: nat, width: nat): (r: string)
    ensures |r| == if |NatToString(n)| >= width then |NatToString(n)| else width
    ensures AllDigits(r)
  {
    var digits := NatToString(n);
    if |digits| >= width then digits else Zeros(width - |digits|) + digits
  }

  /** Leading zeros do not change a decimal value. */
  lemma {:induction false} ParseLeadingZeros(zeros: nat, t: string)
    requires AllDigits(t)
    ensures AllDigits(Zeros(zeros) + t)
    ensures ParseDecimal(Zeros(zeros) + t) == ParseDecimal(t)
    decreases |t|
  {
    var z := Zeros(zeros);
    if t == [] {
      assert z + t == z;
      AllZeros(zeros);
    } else {
      var u := z + t;
      assert u[..|u| - 1] == z + t[..|t| - 1];
      ParseLeadingZeros(zeros, t[..|t| - 1]);
    }
  }

  lemma {:induction false} AllZeros(n: nat)
    ensures ParseDecimal(Zeros(n)) == 0
  {
    if n > 0 {
      assert Zeros(n)[..n - 1] == Zeros(n - 1);
      AllZeros(n - 1);
    }
  }

  /** Padding loses nothing: the padded digits read back as the number. */
  lemma ParsePadStart(n: nat, width: nat)
    ensures ParseDecimal(PadStart(n, width)) == n
  {
    var digits := NatToString(n);
    ParseNatToString(n);
    if |digits| < width {
      ParseLeadingZeros(width - |digits|, digits);
    }
  }

  /** Numbers below 10^k have at most k digits. */
  lemma {:induction false} DigitsBound(n: nat, k: nat, bound: nat)
    requires k >= 1 && bound == Pow10(k) && n < bound
    ensures |NatToString(n)| <= k
    decreases k
  {
    if n >= 10 {
      DigitsBound(n / 10, k - 1, Pow10(k - 1));
    }
  }

  function Pow10(k: nat): (p: nat)
    ensures p >= 1
  {
    if k == 0 then 1 else 10 * Pow10(k - 1)
  }

  /** A two-digit field of the timestamp. */
  function Two(n: int): (r: string)
    ensures AllDigits(r) && |r| >= 2
  {
    PadStart(if n >= 0 then n else 0, 2)
  }

  /** The year field of `toISOString()`: four digits within 0..9999, otherwise a sign and six digits. */
  function IsoYear(year: int): (r: string)
    ensures 0 <= year <= 9999 ==> r == PadStart(year, 4)
    ensures !(0 <= year <= 9999) ==> (|r| >= 1 && r[0] == (if year < 0 then '-' else '+')
      && r[1..] == PadStart(if year < 0 then -year else year, 6))
  {
    if 0 <= year <= 9999 then PadStart(year, 4)
    else [if year < 0 then '-' else '+'] + PadStart(if year < 0 then -year else year, 6)
  }

  /** The date part of `toISOString()`: year, month (1..12) and day, separated by dashes. */
  function IsoDate(d: Date): string {
    IsoYear(d.year) + "-" + Two(d.month + 1) + "-" + Two(d.day)
  }

  /** A UTC time of day. */
  datatype Time = Time(hour: nat, minute: nat, second: nat, millisecond: nat)

  /** The time part of `toISOString()`, after the `T`. */
  function IsoTime(t: Time): string {
    Two(t.hour) + ":" + Two(t.minute) + ":" + Two(t.second) + "." + PadStart(t.millisecond, 3) + "Z"
  }

  /** `toISOString()` of the clock reading. */
  function ToIsoString(date: Date, time: Time): string {
    IsoDate(date) + "T" + IsoTime(time)
  }

  /** Only digits, dashes and plus signs. */
  predicate DateChars(s: string) {
    forall k :: 0 <= k < |s| ==> IsDigit(s[k]) || s[k] == '-' || s[k] == '+'
  }

  lemma DateCharsConcat(a: string, b: string)
    requires DateChars(a) && DateChars(b)
    ensures DateChars(a + b)
  {
    forall k | 0 <= k < |a + b| ensures IsDigit((a + b)[k]) || (a + b)[k] == '-' || (a + b)[k] == '+' {
      if k >= |a| {
        assert (a + b)[k] == b[k - |a|];
      }
    }
  }

  /** The date part holds only digits, dashes and plus signs; in particular no `T`. */
  lemma IsoDateHasNoT(d: Date)
    ensures 'T' !in IsoDate(d)
  {
    var y := IsoYear(d.year);
    if !(0 <= d.year <= 9999) {
      assert y == [y[0]] + y[1..];
      DateCharsConcat([y[0]], y[1..]);
    }
    DateCharsConcat(y, "-");
    DateCharsConcat(y + "-", Two(d.month + 1));
    DateCharsConcat(y + "-" + Two(d.month + 1), "-");
    DateCharsConcat(y + "-" + Two(d.month + 1) + "-", Two(d.day));
    var s := IsoDate(d);
    assert DateChars(s);
  }

  /** `getTodaysDate()`: the ISO timestamp of now, split on `T`, first piece. It is today's date part. */
  function GetTodaysDate(nowDate: Date, nowTime: Time): (r: string)
    ensures r == IsoDate(nowDate)
  {
    IsoDateHasNoT(nowDate);
    SplitFirst(IsoDate(nowDate), IsoTime(nowTime), 'T');
    Split(ToIsoString(nowDate, nowTime), 'T')[0]
  }

  lemma SplitFirst(a: string, b: string, sep: char)
    requires sep !in a
    ensures Split(a + [sep] + b, sep)[0] == a
  {
    var s := a + [sep] + b;
    assert s[|a|] == sep;
    assert s[..|a|] == a;
    IndexOfFirst(s, sep, |a|);
  }

  /** `isToday(dateString)`: the string is exactly today's `YYYY-MM-DD`. */
  predicate IsToday(dateString: string, nowDate: Date, nowTime: Time) {
    dateString == GetTodaysDate(nowDate, nowTime)
  }

  /** Reading the date part of an ISO timestamp back. */
  function ParseIsoDate(s: string): Option<Date> {
    if |s| == 10 && AllDigits(s[..4]) && s[4] == '-' && AllDigits(s[5..7]) && s[7] == '-' && AllDigits(s[8..]) then
      Some(Date(ParseDecimal(s[..4]), ParseDecimal(s[5..7]) - 1, ParseDecimal(s[8..])))
    else if |s| == 13 && (s[0] == '+' || s[0] == '-') && AllDigits(s[1..7]) && s[7] == '-' && AllDigits(s[8..10]) && s[10] == '-' && AllDigits(s[11..]) then
      var magnitude: int := ParseDecimal(s[1..7]);
      Some(Date(if s[0] == '-' then -magnitude else magnitude, ParseDecimal(s[8..10]) - 1, ParseDecimal(s[11..])))
    else None
  }

  /** The pieces of `year-mm-dd` sit at fixed offsets after the year. */
  lemma DateLayout(y: string, m: string, dd: string)
    ensures var s := y + "-" + m + "-" + dd;
      && s[..|y|] == y && s[|y|] == '-' && s[|y| + 1..|y| + 1 + |m|] == m
      && s[|y| + 1 + |m|] == '-' && s[|y| + 2 + |m|..] == dd
  {
  }

  /** The month and day of a valid date print as two digits each, which read back. */
  lemma MonthDayFields(d: Date)
    requires ValidDate(d)
    ensures |Two(d.month + 1)| == 2 && ParseDecimal(Two(d.month + 1)) == d.month + 1
    ensures |Two(d.day)| == 2 && ParseDecimal(Two(d.day)) == d.day
  {
    DigitsBound(d.month + 1, 2, 100);
    DigitsBound(d.day, 2, 100);
    ParsePadStart(d.month + 1, 2);
    ParsePadStart(d.day, 2);
  }

  lemma IsoDateRoundTripShort(d: Date)
    requires ValidDate(d) && 0 <= d.year <= 9999
    ensures ParseIsoDate(IsoDate(d)) == Some(d)
  {
    MonthDayFields(d);
    DigitsBound(d.year, 4, 10000);
    ParsePadStart(d.year, 4);
    DateLayout(IsoYear(d.year), Two(d.month + 1), Two(d.day));
  }

  /** A year outside 0..9999 prints as a sign and six digits that read back as the year. */
  lemma LongYearFields(year: int)
    requires -271821 <= year <= 275760 && !(0 <= year <= 9999)
    ensures var y := IsoYear(year);
      && |y| == 7 && (y[0] == '+' || y[0] == '-') && AllDigits(y[1..])
      && (if y[0] == '-' then -(ParseDecimal(y[1..]) as int) else ParseDecimal(y[1..])) == year
  {
    var magnitude := if year < 0 then -year else year;
    DigitsBound(magnitude, 6, 1000000);
    ParsePadStart(magnitude, 6);
  }

  /** The fields of `±yyyyyy-mm-dd` sit at fixed offsets. */
  lemma LongLayout(y: string, m: string, dd: string)
    requires |y| == 7 && |m| == 2 && |dd| == 2
    ensures var s := y + "-" + m + "-" + dd;
      && |s| == 13 && s[0] == y[0] && s[1..7] == y[1..] && s[7] == '-'
      && s[8..10] == m && s[10] == '-' && s[11..] == dd
  {
    DateLayout(y, m, dd);
    var s := y + "-" + m + "-" + dd;
    assert s[1..7] == s[..7][1..];
  }

  /** A string of the long shape reads back through the second branch. */
  lemma ParseLongShape(s: string, sign: char, digits: string, m: string, dd: string)
    requires |s| == 13 && s[0] == sign && s[1..7] == digits && s[7] == '-' && s[8..10] == m && s[10] == '-' && s[11..] == dd
    requires (sign == '+' || sign == '-') && AllDigits(digits) && AllDigits(m) && AllDigits(dd)
    ensures ParseIsoDate(s) == Some(Date(if sign == '-' then -(ParseDecimal(digits) as int) else ParseDecimal(digits),
      ParseDecimal(m) - 1, ParseDecimal(dd)))
  {
  }

  /** A signed six-digit year, a two-digit month and a two-digit day read back field by field. */
  lemma ParseLongFields(y: string, m: string, dd: string, year: int)
    requires |y| == 7 && (y[0] == '+' || y[0] == '-') && AllDigits(y[1..])
    requires (if y[0] == '-' then -(ParseDecimal(y[1..]) as int) else ParseDecimal(y[1..])) == year
    requires |m| == 2 && AllDigits(m) && |dd| == 2 && AllDigits(dd)
    ensures ParseIsoDate(y + "-" + m + "-" + dd) == Some(Date(year, ParseDecimal(m) - 1, ParseDecimal(dd)))
  {
    LongLayout(y, m, dd);
    ParseLongShape(y + "-" + m + "-" + dd, y[0], y[1..], m, dd);
  }

  /** A long year, a two-digit month and a two-digit day read back field by field. */
  lemma ParseLongForm(year: int, m: string, dd: string)
    requires -271821 <= year <= 275760 && !(0 <= year <= 9999)
    requires |m| == 2 && AllDigits(m) && |dd| == 2 && AllDigits(dd)
    ensures ParseIsoDate(IsoYear(year) + "-" + m + "-" + dd) == Some(Date(year, ParseDecimal(m) - 1, ParseDecimal(dd)))
  {
    LongYearFields(year);
    ParseLongFields(IsoYear(year), m, dd, year);
  }

  lemma IsoDateRoundTripLong(d: Date)
    requires ValidDate(d) && -271821 <= d.year <= 275760 && !(0 <= d.year <= 9999)
    ensures ParseIsoDate(IsoDate(d)) == Some(d)
  {
    MonthDayFields(d);
    ParseLongForm(d.year, Two(d.month + 1), Two(d.day));
  }

  /** Every date a JavaScript `Date` can hold prints to a string that reads back as the same date. */
  lemma IsoDateRoundTrip(d: Date)
    requires ValidDate(d) && -271821 <= d.year <= 275760
    ensures ParseIsoDate(IsoDate(d)) == Some(d)
  {
    if 0 <= d.year <= 9999 {
      IsoDateRoundTripShort(d);
    } else {
      IsoDateRoundTripLong(d);
    }
  }

  /** The date string of a day is today's exactly when that day is today: two different days never both count. */
  lemma IsTodayExactlyOne(d: Date, nowDate: Date, nowTime: Time)
    requires ValidDate(d) && -271821 <= d.year <= 275760
    requires ValidDate(nowDate) && -271821 <= nowDate.year <= 275760
    ensures IsToday(IsoDate(d), nowDate, nowTime) <==> d == nowDate
  {
    IsoDateRoundTrip(d);
    IsoDateRoundTrip(nowDate);
  }
}
