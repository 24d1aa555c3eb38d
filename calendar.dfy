/**
 * Calendar dates as Python's `datetime.date` and `calendar.monthrange` treat them:
 * the proleptic Gregorian calendar for years 1 to 9999, dates compared
 * chronologically, and whole-day differences taken between day ordinals.
 */
module Calendar {
  import opened Wrappers

  const MinYear: int := 1
  const MaxYear: int := 9999

  /** A calendar day; only `ValidDate` ones can be built by `datetime.date`. */
  datatype Date = Date(year: int, month: int, day: int)

  /** The error `date(year, month, 1)` raises for a month outside 1-12 or a year out of range. */
  datatype CalendarError = UnknownPeriod | DateOverflow

  /** The last representable date; adding days past it overflows. */
  const MaxDate: Date := Date(MaxYear, 12, 31)

  predicate IsLeapYear(year: int) {
    year % 4 == 0 && (year % 100 != 0 || year % 400 == 0)
  }

  /** A (year, month) pair for which `date(year, month, 1)` succeeds. */
  predicate ValidPeriod(year: int, month: int) {
    MinYear <= year <= MaxYear && 1 <= month <= 12
  }

  /** Length of a month: the second component of `monthrange(year, month)`. */
  function DaysInMonth(year: int, month: int): (n: int)
    requires 1 <= month <= 12
    ensures 28 <= n <= 31
    ensures month == 2 ==> (n == 29 <==> IsLeapYear(year))
  {
    if month == 2 then (if IsLeapYear(year) then 29 else 28)
    else if month == 4 || month == 6 || month == 9 || month == 11 then 30
    else 31
  }

  predicate ValidDate(d: Date) {
    ValidPeriod(d.year, d.month) && 1 <= d.day <= DaysInMonth(d.year, d.month)
  }

  /** Strict chronological order; Python compares dates field by field. */
  predicate Before(a: Date, b: Date) {
    a.year < b.year ||
    (a.year == b.year && (a.month < b.month || (a.month == b.month && a.day < b.day)))
  }

  /** `a <= b` on dates. */
  predicate NotAfter(a: Date, b: Date) {
    Before(a, b) || a == b
  }

  /** `max(a, b)` on dates. */
  function Latest(a: Date, b: Date): Date {
    if NotAfter(b, a) then a else b
  }

  /** `min(a, b)` on dates. */
  function Earliest(a: Date, b: Date): Date {
    if NotAfter(a, b) then a else b
  }

  /** Days in the years before `year`. */
  function DaysBeforeYear(year: int): int
    requires year >= 1
  {
    var y := year - 1;
    y * 365 + y / 4 - y / 100 + y / 400
  }

  /** Days in the months of `year` before `month`. */
  function DaysBeforeMonth(year: int, month: int): int
    requires 1 <= month <= 12
  {
    var common := [0, 31, 59, 90, 120, 151, 181, 212, 243, 273, 304, 334];
    common[month - 1] + (if month > 2 && IsLeapYear(year) then 1 else 0)
  }

  /** The day number `date.toordinal()` gives: 0001-01-01 is day 1. */
  function Ordinal(d: Date): int
    requires ValidDate(d)
  {
    DaysBeforeYear(d.year) + DaysBeforeMonth(d.year, d.month) + d.day
  }

  /** The first day of a month, `date(year, month, 1)`. */
  function FirstDay(year: int, month: int): Date
    requires ValidPeriod(year, month)
  {
    Date(year, month, 1)
  }

  /** The last day of a month, `date(year, month, monthrange(year, month)[1])`. */
  function LastDay(year: int, month: int): Date
    requires ValidPeriod(year, month)
  {
    Date(year, month, DaysInMonth(year, month))
  }

  /**
   * The first and last day of a month, or the error `date()` raises. The first
   * day is day 1, the last day is the latest valid day of that month, and every
   * day of the month lies between the two.
   */
  function MonthBounds(year: int, month: int): (r: Result<(Date, Date), CalendarError>)
    ensures r.Success? <==> ValidPeriod(year, month)
    ensures r.Failure? ==> r.error == UnknownPeriod
    ensures r.Success? ==>
      var (first, last) := r.value;
      && ValidDate(first) && first.year == year && first.month == month && first.day == 1
      && ValidDate(last) && last.year == year && last.month == month
      && !ValidDate(Date(year, month, last.day + 1))
      && forall d :: ValidDate(d) && d.year == year && d.month == month ==>
           NotAfter(first, d) && NotAfter(d, last)
  {
    if ValidPeriod(year, month) then Success((FirstDay(year, month), LastDay(year, month)))
    else Failure(UnknownPeriod)
  }

  lemma DaysBeforeNextMonth(year: int, month: int)
    requires 1 <= month < 12
    ensures DaysBeforeMonth(year, month + 1) == DaysBeforeMonth(year, month) + DaysInMonth(year, month)
  {
  }

  lemma DaysBeforeNextYear(year: int)
    requires year >= 1
    ensures DaysBeforeYear(year + 1) == DaysBeforeYear(year) + DaysBeforeMonth(year, 12) + DaysInMonth(year, 12)
  {
    var y := year - 1;
    assert (y + 1) / 4 == y / 4 + (if year % 4 == 0 then 1 else 0);
    assert (y + 1) / 100 == y / 100 + (if year % 100 == 0 then 1 else 0);
    assert (y + 1) / 400 == y / 400 + (if year % 400 == 0 then 1 else 0);
  }

  lemma {:induction false} DaysBeforeMonthMonotone(year: int, m1: int, m2: int)
    requires 1 <= m1 < m2 <= 12
    ensures DaysBeforeMonth(year, m1) + DaysInMonth(year, m1) <= DaysBeforeMonth(year, m2)
    decreases m2 - m1
  {
    DaysBeforeNextMonth(year, m1);
    if m1 + 1 < m2 {
      DaysBeforeMonthMonotone(year, m1 + 1, m2);
    }
  }

  /** Every day of a year has an ordinal below the first day of any later year. */
  lemma {:induction false} YearEndBeforeLaterYear(year: int, later: int)
    requires MinYear <= year < later
    ensures DaysBeforeYear(year) + DaysBeforeMonth(year, 12) + DaysInMonth(year, 12) <= DaysBeforeYear(later)
    decreases later - year
  {
    DaysBeforeNextYear(year);
    if year + 1 < later {
      YearEndBeforeLaterYear(year + 1, later);
    }
  }

  lemma BeforeHasSmallerOrdinal(a: Date, b: Date)
    requires ValidDate(a) && ValidDate(b) && Before(a, b)
    ensures Ordinal(a) < Ordinal(b)
  {
    if a.year < b.year {
      if a.month < 12 {
        DaysBeforeMonthMonotone(a.year, a.month, 12);
      }
      YearEndBeforeLaterYear(a.year, b.year);
    } else if a.month < b.month {
      DaysBeforeMonthMonotone(a.year, a.month, b.month);
    }
  }

  /**
   * Ordinals follow the calendar: comparing dates is comparing their day
   * numbers, and two valid dates with the same day number are the same date.
   */
  lemma OrdinalOrder(a: Date, b: Date)
    requires ValidDate(a) && ValidDate(b)
    ensures Before(a, b) <==> Ordinal(a) < Ordinal(b)
    ensures a == b <==> Ordinal(a) == Ordinal(b)
  {
    if Before(a, b) {
      BeforeHasSmallerOrdinal(a, b);
    } else if Before(b, a) {
      BeforeHasSmallerOrdinal(b, a);
    }
  }

  /** Within one month a day's ordinal is the first day's plus its day offset. */
  lemma OrdinalInMonth(d: Date)
    requires ValidDate(d)
    ensures Ordinal(d) == Ordinal(FirstDay(d.year, d.month)) + d.day - 1
  {
  }

  /** The day after `d`, as `d + timedelta(days=1)` gives it. */
  function NextDay(d: Date): Date
    requires ValidDate(d)
  {
    if d.day < DaysInMonth(d.year, d.month) then Date(d.year, d.month, d.day + 1)
    else if d.month < 12 then Date(d.year, d.month + 1, 1)
    else Date(d.year + 1, 1, 1)
  }

  lemma NextDayOrdinal(d: Date)
    requires ValidDate(d) && d != MaxDate
    ensures ValidDate(NextDay(d)) && Ordinal(NextDay(d)) == Ordinal(d) + 1
  {
    if d.day == DaysInMonth(d.year, d.month) {
      if d.month < 12 {
        DaysBeforeNextMonth(d.year, d.month);
      } else {
        DaysBeforeNextYear(d.year);
      }
    }
  }

  /**
   * `d + timedelta(days=n)`: the date whose ordinal is n more than d's, or
   * `DateOverflow` (Python's OverflowError) when that would pass `MaxDate`.
   */
  function AddDays(d: Date, n: nat): (r: Result<Date, CalendarError>)
    requires ValidDate(d)
    ensures r.Success? <==> Ordinal(d) + n <= Ordinal(MaxDate)
    ensures r.Failure? ==> r.error == DateOverflow
    ensures r.Success? ==> ValidDate(r.value) && Ordinal(r.value) == Ordinal(d) + n
    decreases n
  {
    OrdinalOrder(d, MaxDate);
    if n == 0 then Success(d)
    else if d == MaxDate then Failure(DateOverflow)
    else
      NextDayOrdinal(d);
      AddDays(NextDay(d), n - 1)
  }
}
