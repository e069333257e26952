/**
 * Date-indexed series and the combined timeline: the 120 monthly forecast
 * dates, the forecast values re-indexed by them, the historical series
 * followed by the forecast, and exact-date lookup in an index.
 */
module Timeline {

  import opened Wrappers
  import opened Calendar

  /** One point of a series: a date of the index and its value. */
  datatype Entry<V> = Entry(date: Date, value: V)

  type Series<V> = seq<Entry<V>>

  /** Number of months forecast after the last historical month. */
  const Horizon: nat := 120

  function Last<V>(s: Series<V>): Entry<V>
    requires 0 < |s|
  {
    s[|s| - 1]
  }

  function Dates<V>(s: Series<V>): (r: seq<Date>)
    ensures |r| == |s|
  {
    seq(|s|, i requires 0 <= i < |s| => s[i].date)
  }

  function Values<V>(s: Series<V>): (r: seq<V>)
    ensures |r| == |s|
  {
    seq(|s|, i requires 0 <= i < |s| => s[i].value)
  }

  /**
   * A non-empty monthly series anchored on the first of the month with no
   * missing month: entry `i` falls `i` months after the first entry.
   */
  predicate Monthly<V>(s: Series<V>) {
    && 0 < |s|
    && IsMonthStart(s[0].date)
    && forall i :: 0 <= i < |s| ==> s[i].date == AddMonths(s[0].date, i)
  }

  /** The same cadence stated step by step: every date is a month start and
      each date is the month after the one before it. */
  predicate Consecutive<V>(s: Series<V>) {
    && (forall i :: 0 <= i < |s| ==> IsMonthStart(s[i].date))
    && (forall i, j :: 0 <= i < |s| && 0 <= j < |s| && j == i + 1 ==> s[j].date == NextMonthStart(s[i].date))
  }

  /** Dates strictly increase along the series. */
  predicate StrictlyIncreasing<V>(s: Series<V>) {
    forall i, j :: 0 <= i < j < |s| ==> Before(s[i].date, s[j].date)
  }

  lemma {:induction false} MonthlyIffConsecutive<V>(s: Series<V>)
    ensures Monthly(s) <==> 0 < |s| && Consecutive(s)
  {
    if Monthly(s) {
      forall i, j | 0 <= i < |s| && 0 <= j < |s| && j == i + 1
        ensures s[j].date == NextMonthStart(s[i].date)
      {
        AddMonthsStep(s[0].date, i);
      }
    }
    if 0 < |s| && Consecutive(s) {
      forall i | 0 <= i < |s| ensures s[i].date == AddMonths(s[0].date, i) {
        ConsecutiveAt(s, i);
      }
    }
  }

  lemma {:induction false} ConsecutiveAt<V>(s: Series<V>, i: nat)
    requires Consecutive(s) && i < |s|
    ensures s[i].date == AddMonths(s[0].date, i)
  {
    if i == 0 {
      AddMonthsZero(s[0].date);
    } else {
      ConsecutiveAt(s, i - 1);
      AddMonthsStep(s[0].date, i - 1);
    }
  }

  /** A monthly series has strictly increasing dates, so no date repeats. */
  lemma MonthlyIncreasing<V>(s: Series<V>)
    requires Monthly(s)
    ensures StrictlyIncreasing(s)
  {
    forall i, j | 0 <= i < j < |s| ensures Before(s[i].date, s[j].date) {
      BeforeIsIndexOrder(s[i].date, s[j].date);
    }
  }

  /**
   * `n` consecutive month starts beginning at `start`, as a date range with
   * frequency 'MS' and `periods=n` produces them.
   */
  function MonthRange(start: Date, n: nat): (r: seq<Date>)
    requires IsMonthStart(start)
    ensures |r| == n
    ensures n > 0 ==> r[0] == start
    ensures forall k :: 0 <= k < n ==> IsMonthStart(r[k])
    decreases n
  {
    if n == 0 then [] else [start] + MonthRange(NextMonthStart(start), n - 1)
  }

  /** Date `k` of the range lies `k` months after its start. */
  lemma {:induction false} MonthRangeAt(start: Date, n: nat, k: nat)
    requires IsMonthStart(start) && k < n
    ensures MonthRange(start, n)[k] == AddMonths(start, k)
    decreases n
  {
    if k == 0 {
      AddMonthsZero(start);
    } else {
      var next := NextMonthStart(start);
      MonthRangeAt(next, n - 1, k - 1);
      AddMonthsZero(start);
      AddMonthsStep(start, 0);
      AddMonthsAdd(start, 1, k - 1);
    }
  }

  /**
   * The first forecast date: the last historical date plus one calendar
   * month, moved forward to a month start as the 'MS' date range does.
   * After a last date on the 1st this is the next month start; after any
   * other day of a month, one month is skipped.
   */
  function ForecastStart(last: Date): (r: Date)
    requires Valid(last)
    ensures IsMonthStart(r)
    ensures IsMonthStart(last) ==> r == NextMonthStart(last) == AddMonths(last, 1)
    ensures last.day != 1 ==> r == AddMonths(last, 2)
  {
    var r := RollForwardToMonthStart(OneMonthLater(last));
    MonthIndexInjective(r, AddMonths(last, 1));
    MonthIndexInjective(r, AddMonths(last, 2));
    MonthIndexInjective(NextMonthStart(last), AddMonths(last, 1));
    r
  }

  /** The 120 forecast dates following the last historical date `last`. */
  function ForecastDates(last: Date): (r: seq<Date>)
    requires Valid(last)
    ensures |r| == Horizon
    ensures forall k :: 0 <= k < Horizon ==> IsMonthStart(r[k])
  {
    MonthRange(ForecastStart(last), Horizon)
  }

  /** The forecast dates after a month start are the next 120 months in order. */
  lemma ForecastDatesAt(last: Date, k: nat)
    requires IsMonthStart(last) && k < Horizon
    ensures ForecastDates(last)[k] == AddMonths(last, k + 1)
    ensures 0 < k ==> ForecastDates(last)[k] == NextMonthStart(ForecastDates(last)[k - 1])
  {
    MonthRangeAt(AddMonths(last, 1), Horizon, k);
    AddMonthsAdd(last, 1, k);
    if 0 < k {
      MonthRangeAt(AddMonths(last, 1), Horizon, k - 1);
      AddMonthsAdd(last, 1, k - 1);
      AddMonthsStep(last, k);
    }
  }

  /** Values paired with dates as their new index. */
  function Reindex<V>(dates: seq<Date>, values: seq<V>): (r: Series<V>)
    requires |dates| == |values|
    ensures Dates(r) == dates && Values(r) == values
  {
    seq(|dates|, i requires 0 <= i < |dates| => Entry(dates[i], values[i]))
  }

  /** The predicted values indexed by the forecast dates after `hist`. */
  function ForecastSeries<V>(hist: Series<V>, predicted: seq<V>): (r: Series<V>)
    requires 0 < |hist| && Valid(Last(hist).date) && |predicted| == Horizon
    ensures |r| == Horizon
  {
    Reindex(ForecastDates(Last(hist).date), predicted)
  }

  /** `pd.concat`: the historical series followed by the forecast series,
      each kept whole and in order. */
  function Compose<V>(hist: Series<V>, forecast: Series<V>): (r: Series<V>)
    ensures |r| == |hist| + |forecast|
    ensures r[..|hist|] == hist && r[|hist|..] == forecast
  {
    hist + forecast
  }

  /** Forecast entry `k` is predicted value `k` at the `k+1`-th month after
      the last historical month. */
  lemma ForecastSeriesAt<V>(hist: Series<V>, predicted: seq<V>, k: nat)
    requires Monthly(hist) && |predicted| == Horizon && k < Horizon
    ensures ForecastSeries(hist, predicted)[k] == Entry(AddMonths(Last(hist).date, k + 1), predicted[k])
  {
    var last := Last(hist).date;
    var f := ForecastSeries(hist, predicted);
    assert Dates(f) == ForecastDates(last) && Values(f) == predicted;
    assert f[k].date == Dates(f)[k] && f[k].value == Values(f)[k];
    ForecastDatesAt(last, k);
  }

  /** Forecast entry `k` lies `|hist| + k` months after the first
      historical month. */
  lemma ForecastDateFromFirst<V>(hist: Series<V>, predicted: seq<V>, k: nat)
    requires Monthly(hist) && |predicted| == Horizon && k < Horizon
    ensures ForecastSeries(hist, predicted)[k].date == AddMonths(hist[0].date, |hist| + k)
  {
    var first := hist[0].date;
    var last := Last(hist).date;
    assert last == AddMonths(first, |hist| - 1);
    assert ForecastSeries(hist, predicted)[k].date == AddMonths(last, k + 1) by {
      ForecastSeriesAt(hist, predicted, k);
    }
    assert AddMonths(last, k + 1) == AddMonths(first, |hist| + k) by {
      AddMonthsAdd(first, |hist| - 1, k + 1);
      assert |hist| - 1 + (k + 1) == |hist| + k;
    }
  }

  /** Entry `i` of the combined timeline lies `i` months after the first
      historical month. */
  lemma ComposedDateAt<V>(hist: Series<V>, predicted: seq<V>, i: nat)
    requires Monthly(hist) && |predicted| == Horizon && i < |hist| + Horizon
    ensures Compose(hist, ForecastSeries(hist, predicted))[i].date == AddMonths(hist[0].date, i)
  {
    var f := ForecastSeries(hist, predicted);
    assert Compose(hist, f) == hist + f;
    if |hist| <= i {
      ForecastDateFromFirst(hist, predicted, i - |hist|);
    }
  }

  /** The combined timeline is monthly: its forecast part continues the
      history without a gap or an overlap. */
  lemma ComposedMonthly<V>(hist: Series<V>, predicted: seq<V>)
    requires Monthly(hist) && |predicted| == Horizon
    ensures var c := Compose(hist, ForecastSeries(hist, predicted));
      |c| == |hist| + Horizon && c[..|hist|] == hist && Monthly(c)
  {
    var c := Compose(hist, ForecastSeries(hist, predicted));
    assert c[..|hist|] == hist;
    forall i | 0 <= i < |c| ensures c[i].date == AddMonths(c[0].date, i) {
      ComposedDateAt(hist, predicted, i);
    }
  }

  /**
   * The combined timeline: historical entries first and unchanged, then the
   * `k`-th predicted value at the `k+1`-th month after the last historical
   * month; the whole stays monthly, so its dates strictly increase across
   * the join.
   */
  lemma ComposedTimeline<V>(hist: Series<V>, predicted: seq<V>)
    requires Monthly(hist) && |predicted| == Horizon
    ensures var c := Compose(hist, ForecastSeries(hist, predicted));
      && |c| == |hist| + Horizon
      && c[..|hist|] == hist
      && Values(c) == Values(hist) + predicted
      && (forall k :: 0 <= k < Horizon ==>
            c[|hist| + k] == Entry(AddMonths(Last(hist).date, k + 1), predicted[k]))
      && Monthly(c)
      && StrictlyIncreasing(c)
  {
    var f := ForecastSeries(hist, predicted);
    var c := Compose(hist, f);
    forall k | 0 <= k < Horizon
      ensures c[|hist| + k] == Entry(AddMonths(Last(hist).date, k + 1), predicted[k])
    {
      assert c[|hist| + k] == f[k];
      ForecastSeriesAt(hist, predicted, k);
    }
    assert Values(c) == Values(hist) + predicted by {
      assert Values(f) == predicted;
    }
    ComposedMonthly(hist, predicted);
    MonthlyIncreasing(c);
  }

  /** The value at date `d` in the index of `s` (the first match), or `None`
      when `d` is not in the index. */
  function Find<V>(s: Series<V>, d: Date): (r: Option<V>)
    ensures r.None? <==> forall i :: 0 <= i < |s| ==> s[i].date != d
    ensures r.Some? ==> exists i :: 0 <= i < |s| && s[i].date == d && s[i].value == r.value
  {
    if |s| == 0 then None
    else if s[0].date == d then Some(s[0].value)
    else
      var r := Find(s[1..], d);
      assert forall i :: 1 <= i < |s| ==> s[i] == s[1..][i - 1];
      r
  }

  /** Whether `d` is one of the dates of the index of `s`. */
  predicate InIndex<V>(s: Series<V>, d: Date) {
    exists i :: 0 <= i < |s| && s[i].date == d
  }

  /** In a monthly series, month start `d` is in the index exactly when it
      lies between the first and the last month, and its position is its
      distance in months from the first. */
  lemma FindMonthly<V>(s: Series<V>, d: Date)
    requires Monthly(s) && IsMonthStart(d)
    ensures var i := MonthIndex(d) - MonthIndex(s[0].date);
      && (InIndex(s, d) <==> 0 <= i < |s|)
      && (forall j :: 0 <= j < |s| && s[j].date == d ==> j == i)
      && Find(s, d) == if 0 <= i < |s| then Some(s[i].value) else None
  {
    var i := MonthIndex(d) - MonthIndex(s[0].date);
    forall j | 0 <= j < |s| ensures s[j].date == d <==> j == i {
      MonthIndexInjective(s[j].date, d);
    }
    if 0 <= i < |s| {
      assert s[i].date == d;
    }
  }

  /** The earliest year in the index (`index.min().year`). */
  function MinYear<V>(s: Series<V>): (y: nat)
    requires 0 < |s|
    ensures forall i :: 0 <= i < |s| ==> y <= s[i].date.year
    ensures exists i :: 0 <= i < |s| && s[i].date.year == y
  {
    if |s| == 1 then s[0].date.year
    else
      var m := MinYear(s[1..]);
      assert forall i :: 1 <= i < |s| ==> s[i] == s[1..][i - 1];
      if s[0].date.year <= m then s[0].date.year else m
  }

  /** The latest year in the index (`index.max().year`). */
  function MaxYear<V>(s: Series<V>): (y: nat)
    requires 0 < |s|
    ensures forall i :: 0 <= i < |s| ==> s[i].date.year <= y
    ensures exists i :: 0 <= i < |s| && s[i].date.year == y
  {
    if |s| == 1 then s[0].date.year
    else
      var m := MaxYear(s[1..]);
      assert forall i :: 1 <= i < |s| ==> s[i] == s[1..][i - 1];
      if s[0].date.year >= m then s[0].date.year else m
  }

  /** In a monthly series the earliest year is the first entry's and the
      latest year is the last entry's. */
  lemma MonthlyYears<V>(s: Series<V>)
    requires Monthly(s)
    ensures MinYear(s) == s[0].date.year && MaxYear(s) == Last(s).date.year
  {
    MonthlyIncreasing(s);
    var lo :| 0 <= lo < |s| && s[lo].date.year == MinYear(s);
    var hi :| 0 <= hi < |s| && s[hi].date.year == MaxYear(s);
    assert lo == 0 || Before(s[0].date, s[lo].date);
    assert hi == |s| - 1 || Before(s[hi].date, Last(s).date);
  }

  /** The year bounds offered for a query on the combined timeline run from
      the first historical year to the year of the last forecast month. */
  lemma TimelineYears<V>(hist: Series<V>, predicted: seq<V>)
    requires Monthly(hist) && |predicted| == Horizon
    ensures var c := Compose(hist, ForecastSeries(hist, predicted));
      && MinYear(c) == hist[0].date.year
      && MaxYear(c) == AddMonths(Last(hist).date, Horizon).year
  {
    ComposedTimeline(hist, predicted);
    var c := Compose(hist, ForecastSeries(hist, predicted));
    MonthlyYears(c);
    assert c[0] == hist[0];
    assert Last(c) == c[|hist| + (Horizon - 1)];
  }

}
