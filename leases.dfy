/**
 * Which occupancies the monthly billing query selects, and how many days of
 * the month each selected occupancy is charged for.
 */
module Leases {
  import opened Wrappers
  import opened Calendar

  /** An occupancy's start and end dates can be read back by `strptime`. */
  predicate WellFormedRange(start: Date, end: Option<Date>) {
    ValidDate(start) && (end.Some? ==> ValidDate(end.value))
  }

  /** End on or after start, or still open; `end_occupancy` does not enforce it. */
  predicate ValidRange(start: Date, end: Option<Date>) {
    end.None? || NotAfter(start, end.value)
  }

  /**
   * The WHERE clause of the billing query, three OR'd conditions on the
   * month's first and last day:
   * started by month end and not ended before month start; or started within
   * the month; or ended within the month.
   */
  predicate Selected(start: Date, end: Option<Date>, year: int, month: int)
    requires ValidPeriod(year, month)
  {
    var first, last := FirstDay(year, month), LastDay(year, month);
    || (NotAfter(start, last) && (end.None? || NotAfter(first, end.value)))
    || (NotAfter(first, start) && NotAfter(start, last))
    || (end.Some? && NotAfter(first, end.value) && NotAfter(end.value, last))
  }

  /** The occupancy interval, open leases running on, meets the month. */
  predicate Intersects(start: Date, end: Option<Date>, year: int, month: int)
    requires ValidPeriod(year, month)
  {
    NotAfter(start, LastDay(year, month)) && (end.None? || NotAfter(FirstDay(year, month), end.value))
  }

  /**
   * Days of the month charged for an occupancy: clamp the occupancy to the
   * month (an open lease runs to the month's last day) and count both ends.
   * Nothing here clamps at zero: a range the query should not have selected
   * gets whatever the subtraction gives.
   */
  function OverlapDays(start: Date, end: Option<Date>, year: int, month: int): int
    requires ValidPeriod(year, month) && WellFormedRange(start, end)
  {
    var first, last := FirstDay(year, month), LastDay(year, month);
    var from := Latest(start, first);
    var to := Earliest(if end.Some? then end.value else last, last);
    Ordinal(to) - Ordinal(from) + 1
  }

  /** For a valid range, the three-clause predicate is plain interval intersection. */
  lemma SelectedIffIntersects(start: Date, end: Option<Date>, year: int, month: int)
    requires ValidPeriod(year, month) && ValidRange(start, end)
    ensures Selected(start, end, year, month) <==> Intersects(start, end, year, month)
  {
  }

  /** A valid occupancy wholly before or wholly after the month is not selected. */
  lemma OutsideMonthNotSelected(start: Date, end: Option<Date>, year: int, month: int)
    requires ValidPeriod(year, month) && ValidRange(start, end)
    requires (end.Some? && Before(end.value, FirstDay(year, month))) || Before(LastDay(year, month), start)
    ensures !Selected(start, end, year, month)
  {
  }

  /** The clamped interval lies inside the month, so its length is at most the month's. */
  lemma ClampedDays(start: Date, end: Option<Date>, year: int, month: int)
    requires ValidPeriod(year, month) && WellFormedRange(start, end)
    ensures
      var first, last := FirstDay(year, month), LastDay(year, month);
      var from := Latest(start, first);
      var to := Earliest(if end.Some? then end.value else last, last);
      && ValidDate(from) && NotAfter(first, from)
      && (NotAfter(start, last) ==> from.year == year && from.month == month)
      && ValidDate(to) && NotAfter(to, last)
      && (end.None? || NotAfter(first, end.value) ==> to.year == year && to.month == month)
  {
  }

  /**
   * Every selected occupancy with a valid range is charged at least one day
   * and at most the whole month: no zero or negative line item arises.
   */
  lemma OverlapDaysBounds(start: Date, end: Option<Date>, year: int, month: int)
    requires ValidPeriod(year, month) && WellFormedRange(start, end) && ValidRange(start, end)
    requires Selected(start, end, year, month)
    ensures 1 <= OverlapDays(start, end, year, month) <= DaysInMonth(year, month)
  {
    SelectedIffIntersects(start, end, year, month);
    ClampedDays(start, end, year, month);
    var first, last := FirstDay(year, month), LastDay(year, month);
    var from := Latest(start, first);
    var to := Earliest(if end.Some? then end.value else last, last);
    OrdinalInMonth(from);
    OrdinalInMonth(to);
    OrdinalInMonth(last);
    if Before(to, from) {
      // `from` is the start or the month's first day, `to` the end or its last day,
      // and each of the first is no later than each of the second.
      assert NotAfter(from, to);
    }
    OrdinalOrder(from, to);
  }

  /** A one-day occupancy inside the month is charged one day. */
  lemma SameDayOverlap(d: Date, year: int, month: int)
    requires ValidPeriod(year, month) && ValidDate(d) && d.year == year && d.month == month
    ensures OverlapDays(d, Some(d), year, month) == 1
  {
  }

  /** An open lease starting on day k of the month is charged the rest of the month, k included. */
  lemma OpenLeaseOverlap(start: Date, year: int, month: int)
    requires ValidPeriod(year, month) && ValidDate(start) && start.year == year && start.month == month
    ensures OverlapDays(start, None, year, month) == DaysInMonth(year, month) - start.day + 1
  {
  }

  /** An occupancy covering the whole month is charged every day of it. */
  lemma WholeMonthOverlap(start: Date, end: Option<Date>, year: int, month: int)
    requires ValidPeriod(year, month) && WellFormedRange(start, end)
    requires NotAfter(start, FirstDay(year, month))
    requires end.None? || NotAfter(LastDay(year, month), end.value)
    ensures OverlapDays(start, end, year, month) == DaysInMonth(year, month)
  {
  }

  /**
   * An occupancy ended before it started (2024-02-20 to 2024-02-10) passes
   * the query for February 2024 and is charged -9 days.
   */
  lemma ReversedRangeChargedNegativeDays()
    ensures
      var start, end := Date(2024, 2, 20), Date(2024, 2, 10);
      && WellFormedRange(start, Some(end)) && !ValidRange(start, Some(end))
      && Selected(start, Some(end), 2024, 2)
      && OverlapDays(start, Some(end), 2024, 2) == -9
  {
  }

  /**
   * An occupancy 2024-02-11 to 2024-02-10 starts within February 2024, so the
   * query selects it, and it is charged 0 days: a zero-amount line item.
   */
  lemma ReversedRangeChargedZeroDays()
    ensures
      var start, end := Date(2024, 2, 11), Date(2024, 2, 10);
      && WellFormedRange(start, Some(end)) && !ValidRange(start, Some(end))
      && Selected(start, Some(end), 2024, 2)
      && OverlapDays(start, Some(end), 2024, 2) == 0
  {
  }

  /** An occupancy 2024-03-05 to 2024-01-10 neither starts nor ends in February 2024 and is not selected for it. */
  lemma ReversedRangeAcrossMonthNotSelected()
    ensures
      var start, end := Date(2024, 3, 5), Date(2024, 1, 10);
      && WellFormedRange(start, Some(end)) && !ValidRange(start, Some(end))
      && !Selected(start, Some(end), 2024, 2)
  {
  }

  /** Any occupancy ending before it starts is charged zero or a negative number of days, whatever the month. */
  lemma ReversedRangeNotPositive(start: Date, end: Option<Date>, year: int, month: int)
    requires ValidPeriod(year, month) && WellFormedRange(start, end) && !ValidRange(start, end)
    ensures OverlapDays(start, end, year, month) <= 0
  {
    ClampedDays(start, end, year, month);
    var first, last := FirstDay(year, month), LastDay(year, month);
    var from := Latest(start, first);
    var to := Earliest(end.value, last);
    // to <= end < start <= from
    assert Before(to, from);
    OrdinalOrder(to, from);
  }
}
