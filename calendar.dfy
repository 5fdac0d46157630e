/**
 * The dashboard calendar widget: Gregorian month lengths, the month grid
 * (tail of the previous month, the month itself, then padding from the
 * next month) and month-by-month navigation. Months are numbered 0..11
 * as JavaScript's `Date` numbers them. The weekday of the 1st, which
 * the widget reads from `Date.prototype.getDay`, is an input.
 */
module Calendar {

  /** The Gregorian leap-year rule. */
  predicate IsLeapYear(year: int) {
    (year % 4 == 0 && year % 100 != 0) || year % 400 == 0
  }

  /**
   * `getMonthDays`. Any month number outside the two lists of long and
   * short months falls through to February's rule. (JavaScript's `%`
   * truncates, Dafny's is Euclidean; the two agree on whether the
   * remainder is zero, which is all the rule asks.)
   */
  function MonthDays(month: int, year: int): (n: int)
    ensures month in {0, 2, 4, 6, 7, 9, 11} ==> n == 31
    ensures month in {3, 5, 8, 10} ==> n == 30
    ensures month == 1 ==> (n == 29 <==> IsLeapYear(year)) && (n == 28 <==> !IsLeapYear(year))
    ensures 28 <= n <= 31
  {
    if month == 0 || month == 2 || month == 4 || month == 6 || month == 7 || month == 9 || month == 11 then 31
    else if month == 3 || month == 5 || month == 8 || month == 10 then 30
    else if (year % 4 == 0 && year % 100 != 0) || year % 400 == 0 then 29
    else 28
  }

  /** The days of months 0 .. k-1 of a year. */
  function DaysBefore(k: nat, year: int): int
    requires k <= 12
  {
    if k == 0 then 0 else DaysBefore(k - 1, year) + MonthDays(k - 1, year)
  }

  /** The twelve month lengths add up to a Gregorian year. */
  lemma YearLength(year: int)
    ensures DaysBefore(12, year) == if IsLeapYear(year) then 366 else 365
  {
    assert DaysBefore(1, year) == 31;
    assert DaysBefore(2, year) == 31 + MonthDays(1, year);
    assert DaysBefore(4, year) == DaysBefore(2, year) + 31 + 30;
    assert DaysBefore(6, year) == DaysBefore(4, year) + 31 + 30;
    assert DaysBefore(8, year) == DaysBefore(6, year) + 31 + 31;
    assert DaysBefore(10, year) == DaysBefore(8, year) + 30 + 31;
  }

  /** A local calendar date as JavaScript's `Date` reports it: `getFullYear`, `getMonth` (0..11), `getDate` (1..31). */
  datatype Date = Date(year: int, month: int, day: int)

  predicate ValidDate(d: Date) {
    0 <= d.month <= 11 && 1 <= d.day <= MonthDays(d.month, d.year)
  }

  /** Calendar order: by year, then month, then day. */
  predicate Before(a: Date, b: Date) {
    a.year < b.year || (a.year == b.year && (a.month < b.month || (a.month == b.month && a.day < b.day)))
  }

  predicate OnOrBefore(a: Date, b: Date) {
    Before(a, b) || a == b
  }

  /** A calendar position: a month (0..11 when valid) of a year. */
  datatype MonthYear = MonthYear(month: int, year: int)

  /** Months elapsed since January of year 0: the position on a single time line. */
  function Index(m: MonthYear): int {
    m.year * 12 + m.month
  }

  /** The month before: January steps back to December of the previous year. */
  function PrevMonthOf(m: MonthYear): (r: MonthYear)
    requires 0 <= m.month <= 11
    ensures 0 <= r.month <= 11
    ensures Index(r) == Index(m) - 1
  {
    if m.month == 0 then MonthYear(11, m.year - 1) else MonthYear(m.month - 1, m.year)
  }

  /** The month after: December steps forward to January of the next year. */
  function NextMonthOf(m: MonthYear): (r: MonthYear)
    requires 0 <= m.month <= 11
    ensures 0 <= r.month <= 11
    ensures Index(r) == Index(m) + 1
  {
    if m.month == 11 then MonthYear(0, m.year + 1) else MonthYear(m.month + 1, m.year)
  }

  /** A valid position is determined by its index. */
  lemma IndexInjective(a: MonthYear, b: MonthYear)
    requires 0 <= a.month <= 11 && 0 <= b.month <= 11
    requires Index(a) == Index(b)
    ensures a == b
  {
  }

  /** Navigating forward then back (or back then forward) returns to the same month. */
  lemma NavigationRoundTrip(m: MonthYear)
    requires 0 <= m.month <= 11
    ensures PrevMonthOf(NextMonthOf(m)) == m
    ensures NextMonthOf(PrevMonthOf(m)) == m
  {
    IndexInjective(PrevMonthOf(NextMonthOf(m)), m);
    IndexInjective(NextMonthOf(PrevMonthOf(m)), m);
  }

  /** `n` steps forward. */
  function Forward(m: MonthYear, n: nat): (r: MonthYear)
    requires 0 <= m.month <= 11
    ensures 0 <= r.month <= 11
    decreases n
  {
    if n == 0 then m else Forward(NextMonthOf(m), n - 1)
  }

  /** Twelve steps forward reach the same month of the next year. */
  lemma {:induction false} ForwardTwelve(m: MonthYear)
    requires 0 <= m.month <= 11
    ensures Forward(m, 12) == MonthYear(m.month, m.year + 1)
  {
    ForwardIndex(m, 12);
    IndexInjective(Forward(m, 12), MonthYear(m.month, m.year + 1));
  }

  lemma {:induction false} ForwardIndex(m: MonthYear, n: nat)
    requires 0 <= m.month <= 11
    ensures Index(Forward(m, n)) == Index(m) + n
    decreases n
  {
    if n > 0 {
      ForwardIndex(NextMonthOf(m), n - 1);
    }
  }

  /** One cell of the month grid. */
  datatype Cell = Cell(day: int, isCurrentMonth: bool, isPrevMonth: bool)

  function Max(a: int, b: int): int {
    if a >= b then a else b
  }

  /**
   * What `generateCalendarDays` produces for a month whose 1st falls on
   * weekday `firstDay`: `firstDay` cells closing the previous month, the
   * month's own days, then next-month days 1, 2, ... up to 35 cells.
   * When `firstDay` plus the month's length passes 35 there is no padding
   * and the grid is longer than 35 cells; it is never cut.
   */
  ghost predicate IsGrid(days: seq<Cell>, month: int, year: int, firstDay: int)
    requires 0 <= month <= 11 && 0 <= firstDay
  {
    var total := MonthDays(month, year);
    var prev := PrevMonthOf(MonthYear(month, year));
    var prevDays := MonthDays(prev.month, prev.year);
    && |days| == Max(35, firstDay + total)
    && (forall i :: 0 <= i < firstDay ==> days[i] == Cell(prevDays - firstDay + i + 1, false, true))
    && (forall i :: firstDay <= i < firstDay + total ==> days[i] == Cell(i - firstDay + 1, true, false))
    && (forall i :: firstDay + total <= i < |days| ==> days[i] == Cell(i - firstDay - total + 1, false, false))
  }

  /** The description above leaves no freedom: there is one grid per month and first weekday. */
  lemma GridUnique(a: seq<Cell>, b: seq<Cell>, month: int, year: int, firstDay: int)
    requires 0 <= month <= 11 && 0 <= firstDay
    requires IsGrid(a, month, year, firstDay) && IsGrid(b, month, year, firstDay)
    ensures a == b
  {
    var total := MonthDays(month, year);
    forall i | 0 <= i < |a| ensures a[i] == b[i] {
      if i < firstDay {
      } else if i < firstDay + total {
      } else {
      }
    }
  }

  /** `generateCalendarDays`: the three `push` loops of the widget. */
  method BuildGrid(month: int, year: int, firstDay: int) returns (days: seq<Cell>)
    requires 0 <= month <= 11
    requires 0 <= firstDay <= 6
    ensures IsGrid(days, month, year, firstDay)
  {
    var totalDays := MonthDays(month, year);
    var prev := PrevMonthOf(MonthYear(month, year));
    var prevMonthDays := MonthDays(prev.month, prev.year);
    days := [];

    var i := 0;
    while i < firstDay
      invariant 0 <= i <= firstDay && |days| == i
      invariant forall k :: 0 <= k < i ==> days[k] == Cell(prevMonthDays - firstDay + k + 1, false, true)
    {
      days := days + [Cell(prevMonthDays - firstDay + i + 1, false, true)];
      i := i + 1;
    }

    var d := 1;
    while d <= totalDays
      invariant 1 <= d <= totalDays + 1 && |days| == firstDay + d - 1
      invariant forall k :: 0 <= k < firstDay ==> days[k] == Cell(prevMonthDays - firstDay + k + 1, false, true)
      invariant forall k :: firstDay <= k < |days| ==> days[k] == Cell(k - firstDay + 1, true, false)
    {
      days := days + [Cell(d, true, false)];
      d := d + 1;
    }

    var remainingDays := 35 - |days|;
    var fd := 1;
    while fd <= remainingDays
      invariant 1 <= fd && |days| == firstDay + totalDays + fd - 1
      invariant fd <= Max(remainingDays, 0) + 1
      invariant forall k :: 0 <= k < firstDay ==> days[k] == Cell(prevMonthDays - firstDay + k + 1, false, true)
      invariant forall k :: firstDay <= k < firstDay + totalDays ==> days[k] == Cell(k - firstDay + 1, true, false)
      invariant forall k :: firstDay + totalDays <= k < |days| ==> days[k] == Cell(k - firstDay - totalDays + 1, false, false)
    {
      days := days + [Cell(fd, false, false)];
      fd := fd + 1;
    }
  }

  /** The widget's state: the month shown and the grid last generated for it. */
  class CalendarView {
    var currentMonth: int
    var currentYear: int
    var calendarDays: seq<Cell>

    ghost predicate Valid()
      reads this
    {
      0 <= currentMonth <= 11
    }

    /** The month and year the widget opens on (today's, read from the clock). */
    constructor (month: int, year: int)
      requires 0 <= month <= 11
      ensures Valid()
      ensures currentMonth == month && currentYear == year && calendarDays == []
    {
      currentMonth, currentYear, calendarDays := month, year, [];
    }

    /** `handlePrevMonth`. */
    method HandlePrevMonth()
      requires Valid()
      modifies this
      ensures Valid()
      ensures MonthYear(currentMonth, currentYear) == PrevMonthOf(MonthYear(old(currentMonth), old(currentYear)))
      ensures calendarDays == old(calendarDays)
    {
      if currentMonth == 0 {
        currentMonth := 11;
        currentYear := currentYear - 1;
      } else {
        currentMonth := currentMonth - 1;
      }
    }

    /** `handleNextMonth`. */
    method HandleNextMonth()
      requires Valid()
      modifies this
      ensures Valid()
      ensures MonthYear(currentMonth, currentYear) == NextMonthOf(MonthYear(old(currentMonth), old(currentYear)))
      ensures calendarDays == old(calendarDays)
    {
      if currentMonth == 11 {
        currentMonth := 0;
        currentYear := currentYear + 1;
      } else {
        currentMonth := currentMonth + 1;
      }
    }

    /** The effect that regenerates the grid for the month shown, given the weekday of its 1st. */
    method GenerateCalendarDays(firstDay: int)
      requires Valid() && 0 <= firstDay <= 6
      modifies this
      ensures Valid()
      ensures currentMonth == old(currentMonth) && currentYear == old(currentYear)
      ensures IsGrid(calendarDays, currentMonth, currentYear, firstDay)
    {
      calendarDays := BuildGrid(currentMonth, currentYear, firstDay);
    }
  }
}
