/**
 * Calendar dates at day resolution, as the timeline's index holds them
 * (pandas Timestamps at midnight), with the month arithmetic the
 * forecast date range relies on.
 */
module Calendar {

  /** A calendar date; all three fields are natural numbers since the index
      only holds years of the common era. */
  datatype Date = Date(year: nat, month: nat, day: nat)

  predicate IsLeapYear(y: nat) {
    y % 4 == 0 && (y % 100 != 0 || y % 400 == 0)
  }

  function DaysInMonth(y: nat, m: int): (n: int)
    requires 1 <= m <= 12
    ensures 28 <= n <= 31
    ensures m == 2 ==> (n == 29 <==> IsLeapYear(y))
  {
    if m == 2 then (if IsLeapYear(y) then 29 else 28)
    else if m == 4 || m == 6 || m == 9 || m == 11 then 30
    else 31
  }

  /** A date that exists in the Gregorian calendar. */
  predicate Valid(d: Date) {
    1 <= d.month <= 12 && 1 <= d.day <= DaysInMonth(d.year, d.month)
  }

  /** The first day of some month ('MS' in pandas' frequency aliases). */
  predicate IsMonthStart(d: Date) {
    1 <= d.month <= 12 && d.day == 1
  }

  /** Chronological order on dates: by year, then month, then day. */
  predicate Before(a: Date, b: Date) {
    a.year < b.year
    || (a.year == b.year && a.month < b.month)
    || (a.year == b.year && a.month == b.month && a.day < b.day)
  }

  /** The number of whole months from January of year 0 to the month of `d`. */
  function MonthIndex(d: Date): (i: nat)
    requires 1 <= d.month <= 12
  {
    d.year * 12 + d.month - 1
  }

  /** The first day of the month with index `i`. */
  function MonthStart(i: nat): (d: Date)
    ensures IsMonthStart(d) && Valid(d)
    ensures MonthIndex(d) == i
  {
    Date(i / 12, i % 12 + 1, 1)
  }

  lemma MonthStartOfIndex(d: Date)
    requires IsMonthStart(d)
    ensures MonthStart(MonthIndex(d)) == d
  {
    var i := MonthIndex(d);
    assert i == d.year * 12 + (d.month - 1) && 0 <= d.month - 1 < 12;
    assert i / 12 == d.year && i % 12 == d.month - 1;
  }

  /** Month starts are equal exactly when their month indices are. */
  lemma MonthIndexInjective(a: Date, b: Date)
    requires IsMonthStart(a) && IsMonthStart(b)
    ensures a == b <==> MonthIndex(a) == MonthIndex(b)
  {
    if MonthIndex(a) == MonthIndex(b) {
      MonthStartOfIndex(a);
      MonthStartOfIndex(b);
    }
  }

  /** On month starts, chronological order is the order of month indices. */
  lemma BeforeIsIndexOrder(a: Date, b: Date)
    requires IsMonthStart(a) && IsMonthStart(b)
    ensures Before(a, b) <==> MonthIndex(a) < MonthIndex(b)
  {
  }

  /** The first day of the month after the month of `d`, rolling over the
      year after December. */
  function NextMonthStart(d: Date): (r: Date)
    requires 1 <= d.month <= 12
    ensures IsMonthStart(r) && Valid(r)
    ensures MonthIndex(r) == MonthIndex(d) + 1
  {
    if d.month == 12 then Date(d.year + 1, 1, 1) else Date(d.year, d.month + 1, 1)
  }

  /** The first day of the month `k` months after the month of `d`. */
  function AddMonths(d: Date, k: nat): (r: Date)
    requires 1 <= d.month <= 12
    ensures IsMonthStart(r) && Valid(r)
    ensures MonthIndex(r) == MonthIndex(d) + k
  {
    MonthStart(MonthIndex(d) + k)
  }

  lemma AddMonthsZero(d: Date)
    requires IsMonthStart(d)
    ensures AddMonths(d, 0) == d
  {
    MonthStartOfIndex(d);
  }

  /** Adding one more month is stepping to the next month start: the
      closed form by month index agrees with the calendar step. */
  lemma AddMonthsStep(d: Date, k: nat)
    requires 1 <= d.month <= 12
    ensures AddMonths(d, k + 1) == NextMonthStart(AddMonths(d, k))
  {
    MonthIndexInjective(AddMonths(d, k + 1), NextMonthStart(AddMonths(d, k)));
  }

  /** Adding months composes additively. */
  lemma AddMonthsAdd(d: Date, j: nat, k: nat)
    requires 1 <= d.month <= 12
    ensures AddMonths(AddMonths(d, j), k) == AddMonths(d, j + k)
  {
    MonthIndexInjective(AddMonths(AddMonths(d, j), k), AddMonths(d, j + k));
  }

  /**
   * `d + DateOffset(months=1)`: the same day one calendar month later,
   * clamped to the last day of that month when it is shorter.
   */
  function OneMonthLater(d: Date): (r: Date)
    requires Valid(d)
    ensures Valid(r)
    ensures MonthIndex(r) == MonthIndex(d) + 1
    ensures r.day == 1 <==> d.day == 1
  {
    var n := NextMonthStart(d);
    var last := DaysInMonth(n.year, n.month);
    Date(n.year, n.month, if d.day <= last then d.day else last)
  }

  /**
   * The first month start on or after `d`: how a date range with frequency
   * 'MS' aligns a start that is not itself a month start.
   */
  function RollForwardToMonthStart(d: Date): (r: Date)
    requires Valid(d)
    ensures IsMonthStart(r) && !Before(r, d)
    ensures forall m :: IsMonthStart(m) && !Before(m, d) ==> !Before(m, r)
    ensures MonthIndex(r) == MonthIndex(d) + (if d.day == 1 then 0 else 1)
  {
    if d.day == 1 then d else NextMonthStart(d)
  }

}
