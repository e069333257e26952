/**
 * Answering a (year, month) query against the combined timeline: the lookup
 * by text key, the Historical / Predicted provenance tag, the out-of-range
 * outcome for a key the index lacks, and the whole request from commodity
 * name to answer.
 */
module Resolver {

  import opened Wrappers
  import opened Calendar
  import opened DateKey
  import opened Commodities
  import opened Timeline

  /** What a query on the timeline yields. */
  datatype Outcome<V> = Historical(value: V) | Predicted(value: V) | OutOfRange

  /** What a request yields: no model for the commodity, or an outcome. */
  datatype Answer<V> = NotSupported | Answered(outcome: Outcome<V>)

  /**
   * `s.loc[key]` on a date-indexed series: the key is read as a date and
   * matched exactly against the index. `None` stands for the `KeyError`
   * raised when the key reads as no date or its date is not in the index.
   */
  function Loc<V>(s: Series<V>, key: string): (r: Option<V>)
    ensures r.Some? <==> ParseKey(key).Some? && InIndex(s, ParseKey(key).value)
    ensures r.Some? ==> exists i :: 0 <= i < |s| && s[i].date == ParseKey(key).value && s[i].value == r.value
  {
    match ParseKey(key)
    case None => None
    case Some(d) => Find(s, d)
  }

  /**
   * The value of `combined` on the first day of (`year`, `month`), tagged
   * Historical when that day is in the historical index `hist` and Predicted
   * otherwise; OutOfRange when the combined index lacks it.
   */
  function Resolve<V>(hist: Series<V>, combined: Series<V>, year: nat, month: nat): (r: Outcome<V>)
    ensures var d := Date(year, month, 1);
      && (r.OutOfRange? <==> !(1 <= month <= 12 && InIndex(combined, d)))
      && (r.Historical? <==> 1 <= month <= 12 && InIndex(combined, d) && InIndex(hist, d))
      && (!r.OutOfRange? ==>
            exists i :: 0 <= i < |combined| && combined[i].date == d && combined[i].value == r.value)
  {
    ResolveKey(hist, combined, Key(year, month))
  }

  /** The lookup and the provenance test on one text key. */
  function ResolveKey<V>(hist: Series<V>, combined: Series<V>, key: string): (r: Outcome<V>)
    ensures r.OutOfRange? <==> !(ParseKey(key).Some? && InIndex(combined, ParseKey(key).value))
    ensures r.Historical? <==>
      ParseKey(key).Some? && InIndex(combined, ParseKey(key).value) && InIndex(hist, ParseKey(key).value)
    ensures !r.OutOfRange? ==>
      exists i :: 0 <= i < |combined| && combined[i].date == ParseKey(key).value && combined[i].value == r.value
  {
    match Loc(combined, key)
    case None => OutOfRange
    case Some(v) =>
      var stamp := ParseKey(key);
      if stamp.Some? && InIndex(hist, stamp.value) then Historical(v) else Predicted(v)
  }

  /**
   * Resolution when the first of the queried month sits at position `i` of
   * the combined index and nowhere else: entry `i`, tagged Historical when
   * the month is also in the historical index and Predicted otherwise;
   * OutOfRange when it has no position.
   */
  lemma ResolveAtPosition<V>(hist: Series<V>, combined: Series<V>, year: nat, month: nat, i: int)
    requires 1 <= month <= 12
    requires InIndex(combined, Date(year, month, 1)) <==> 0 <= i < |combined|
    requires forall j :: 0 <= j < |combined| && combined[j].date == Date(year, month, 1) ==> j == i
    ensures Resolve(hist, combined, year, month) ==
      if 0 <= i < |combined| then
        if InIndex(hist, Date(year, month, 1)) then Historical(combined[i].value)
        else Predicted(combined[i].value)
      else OutOfRange
  {
    var d := Date(year, month, 1);
    var r := Resolve(hist, combined, year, month);
    if 0 <= i < |combined| {
      var j :| 0 <= j < |combined| && combined[j].date == d && combined[j].value == r.value;
    }
  }

  /**
   * Resolution on any monthly timeline whose first `|hist|` entries are the
   * monthly history `hist`, by the distance `i` in months from the first
   * month: entry `i` tagged Historical when `i < |hist|`, tagged Predicted when
   * it lies further on, OutOfRange outside the timeline.
   */
  lemma ResolveMonthly<V>(hist: Series<V>, combined: Series<V>, year: nat, month: nat)
    requires Monthly(hist) && Monthly(combined) && |hist| <= |combined|
    requires combined[..|hist|] == hist
    requires 1 <= month <= 12
    ensures var i := MonthIndex(Date(year, month, 1)) - MonthIndex(hist[0].date);
      Resolve(hist, combined, year, month) ==
        if 0 <= i < |hist| then Historical(combined[i].value)
        else if 0 <= i < |combined| then Predicted(combined[i].value)
        else OutOfRange
  {
    var d := Date(year, month, 1);
    var i := MonthIndex(d) - MonthIndex(hist[0].date);
    assert combined[0] == hist[0];
    assert InIndex(hist, d) <==> 0 <= i < |hist| by {
      FindMonthly(hist, d);
    }
    assert (InIndex(combined, d) <==> 0 <= i < |combined|)
      && forall j :: 0 <= j < |combined| && combined[j].date == d ==> j == i
    by {
      FindMonthly(combined, d);
    }
    ResolveAtPosition(hist, combined, year, month, i);
  }

  /**
   * Resolution on the timeline built from a monthly history and its 120
   * predicted values, by the distance `i` in months from the first
   * historical month: historical value `i` for the historical months (the
   * last one included), predicted value `i - |hist|` for the 120 months
   * after, and OutOfRange before and beyond.
   */
  lemma ResolveTimeline<V>(hist: Series<V>, predicted: seq<V>, year: nat, month: nat)
    requires Monthly(hist) && |predicted| == Horizon && 1 <= month <= 12
    ensures var i := MonthIndex(Date(year, month, 1)) - MonthIndex(hist[0].date);
      Resolve(hist, Compose(hist, ForecastSeries(hist, predicted)), year, month) ==
        if i < 0 then OutOfRange
        else if i < |hist| then Historical(hist[i].value)
        else if i < |hist| + Horizon then Predicted(predicted[i - |hist|])
        else OutOfRange
  {
    var f := ForecastSeries(hist, predicted);
    var c := Compose(hist, f);
    var i := MonthIndex(Date(year, month, 1)) - MonthIndex(hist[0].date);
    ComposedMonthly(hist, predicted);
    ResolveMonthly(hist, c, year, month);
    if 0 <= i < |hist| {
      assert c[i] == c[..|hist|][i];
    } else if |hist| <= i < |hist| + Horizon {
      assert c[i] == f[i - |hist|];
      ForecastSeriesAt(hist, predicted, i - |hist|);
    }
  }

  /** A historical date resolves to its historical value, tagged Historical;
      this includes the last historical date, where the forecast hands over. */
  lemma ResolveHistorical<V>(hist: Series<V>, predicted: seq<V>, j: nat)
    requires Monthly(hist) && |predicted| == Horizon && j < |hist|
    ensures var d := hist[j].date;
      Resolve(hist, Compose(hist, ForecastSeries(hist, predicted)), d.year, d.month)
        == Historical(hist[j].value)
  {
    var d := hist[j].date;
    ResolveTimeline(hist, predicted, d.year, d.month);
  }

  /** The `k`-th forecast month resolves to the `k`-th predicted value,
      tagged Predicted. */
  lemma ResolveForecast<V>(hist: Series<V>, predicted: seq<V>, k: nat)
    requires Monthly(hist) && |predicted| == Horizon && k < Horizon
    ensures var d := AddMonths(Last(hist).date, k + 1);
      Resolve(hist, Compose(hist, ForecastSeries(hist, predicted)), d.year, d.month)
        == Predicted(predicted[k])
  {
    var first := hist[0].date;
    var last := Last(hist).date;
    assert last == AddMonths(first, |hist| - 1);
    var d := AddMonths(last, k + 1);
    assert MonthIndex(Date(d.year, d.month, 1)) - MonthIndex(first) == |hist| + k;
    ResolveTimeline(hist, predicted, d.year, d.month);
  }

  /** The month right after the last historical month resolves to the first
      predicted value, tagged Predicted. */
  lemma ResolveFirstForecast<V>(hist: Series<V>, predicted: seq<V>)
    requires Monthly(hist) && |predicted| == Horizon
    ensures var d := NextMonthStart(Last(hist).date);
      Resolve(hist, Compose(hist, ForecastSeries(hist, predicted)), d.year, d.month)
        == Predicted(predicted[0])
  {
    var first := hist[0].date;
    var last := Last(hist).date;
    assert last == AddMonths(first, |hist| - 1);
    var d := NextMonthStart(last);
    assert MonthIndex(Date(d.year, d.month, 1)) - MonthIndex(first) == |hist|;
    ResolveTimeline(hist, predicted, d.year, d.month);
  }

  /**
   * A query is out of range exactly when its month is before the first
   * historical month or after the last forecast month, 120 months after the
   * last historical one.
   */
  lemma ResolveOutOfRange<V>(hist: Series<V>, predicted: seq<V>, year: nat, month: nat)
    requires Monthly(hist) && |predicted| == Horizon && 1 <= month <= 12
    ensures var d := Date(year, month, 1);
      (Resolve(hist, Compose(hist, ForecastSeries(hist, predicted)), year, month).OutOfRange?
       <==> Before(d, hist[0].date) || Before(AddMonths(Last(hist).date, Horizon), d))
  {
    var d := Date(year, month, 1);
    ResolveTimeline(hist, predicted, year, month);
    BeforeIsIndexOrder(d, hist[0].date);
    BeforeIsIndexOrder(AddMonths(Last(hist).date, Horizon), d);
  }

  /** A query for a month number outside 1..12 is answered OutOfRange. */
  lemma ResolveMonthOutsideCalendar<V>(hist: Series<V>, combined: Series<V>, year: nat, month: nat)
    requires month == 0 || 12 < month
    ensures Resolve(hist, combined, year, month) == OutOfRange
  {
  }

  /**
   * Thirty-six months of history ending with December of year `y` (2023):
   * January of `y + 1` is the first predicted value, December of `y` the
   * last historical value, and January of `y + 11`, 121 months on, is out
   * of range.
   */
  lemma ResolveThreeYearsOfHistory<V>(hist: Series<V>, predicted: seq<V>)
    requires Monthly(hist) && |hist| == 36 && Last(hist).date == Date(2023, 12, 1)
    requires |predicted| == Horizon
    ensures var c := Compose(hist, ForecastSeries(hist, predicted));
      var y := Last(hist).date.year;
      && y == 2023
      && Resolve(hist, c, y + 1, 1) == Predicted(predicted[0])
      && Resolve(hist, c, y, 12) == Historical(Last(hist).value)
      && Resolve(hist, c, y + 11, 1) == OutOfRange
  {
    var y := Last(hist).date.year;
    assert hist[35].date == AddMonths(hist[0].date, 35);
    ResolveTimeline(hist, predicted, y + 1, 1);
    ResolveTimeline(hist, predicted, y, 12);
    ResolveTimeline(hist, predicted, y + 11, 1);
  }

  /**
   * A whole request: the commodity's configuration, then its history as
   * `load` reads it from the configured file, the 120 values `fit` predicts
   * from it with the configured orders, and the query on the combined
   * timeline. A commodity without a model is answered NotSupported.
   */
  function Predict<V>(com: string, load: string -> Series<V>,
                      fit: (Series<V>, Order, SeasonalOrder) -> seq<V>,
                      year: nat, month: nat): (r: Answer<V>)
    requires Configure(com).Some? ==> Monthly(load(Configure(com).value.file))
    requires Configure(com).Some? ==>
      var cfg := Configure(com).value;
      |fit(load(cfg.file), cfg.order, cfg.seasonal)| == Horizon
    ensures r.NotSupported? <==> com !in Supported
  {
    match Configure(com)
    case None => NotSupported
    case Some(cfg) =>
      var hist := load(cfg.file);
      var predicted := fit(hist, cfg.order, cfg.seasonal);
      assert Last(hist).date == AddMonths(hist[0].date, |hist| - 1);
      Answered(Resolve(hist, Compose(hist, ForecastSeries(hist, predicted)), year, month))
  }

  /** For a commodity without a model nothing is read or fitted: the answer
      does not depend on `load` or `fit`. */
  lemma PredictUnsupported<V>(com: string, load1: string -> Series<V>, load2: string -> Series<V>,
                              fit1: (Series<V>, Order, SeasonalOrder) -> seq<V>,
                              fit2: (Series<V>, Order, SeasonalOrder) -> seq<V>,
                              year: nat, month: nat)
    requires com !in Supported
    ensures Predict(com, load1, fit1, year, month) == Predict(com, load2, fit2, year, month) == NotSupported
  {
  }

  /** For a commodity with a model, the history is read from its configured
      file, the forecast is fitted with its configured orders, and the query
      is resolved on the timeline composed from the two. */
  lemma PredictConfigured<V>(com: string, cfg: Config, load: string -> Series<V>,
                             fit: (Series<V>, Order, SeasonalOrder) -> seq<V>,
                             year: nat, month: nat)
    requires Configure(com) == Some(cfg)
    requires Monthly(load(cfg.file)) && |fit(load(cfg.file), cfg.order, cfg.seasonal)| == Horizon
    ensures var hist := load(cfg.file);
      var predicted := fit(hist, cfg.order, cfg.seasonal);
      Predict(com, load, fit, year, month)
        == Answered(Resolve(hist, Compose(hist, ForecastSeries(hist, predicted)), year, month))
  {
  }

  /**
   * A whole request for a commodity with a model: the historical value, the
   * predicted value or OutOfRange, by the distance `i` in months from the
   * first month of the history read from the commodity's configured file to
   * the queried month.
   */
  lemma PredictSupported<V>(com: string, cfg: Config, load: string -> Series<V>,
                            fit: (Series<V>, Order, SeasonalOrder) -> seq<V>,
                            year: nat, month: nat)
    requires Configure(com) == Some(cfg) && 1 <= month <= 12
    requires Monthly(load(cfg.file)) && |fit(load(cfg.file), cfg.order, cfg.seasonal)| == Horizon
    ensures var hist := load(cfg.file);
      var predicted := fit(hist, cfg.order, cfg.seasonal);
      var i := MonthIndex(Date(year, month, 1)) - MonthIndex(hist[0].date);
      Predict(com, load, fit, year, month) == Answered(
        if i < 0 then OutOfRange
        else if i < |hist| then Historical(hist[i].value)
        else if i < |hist| + Horizon then Predicted(predicted[i - |hist|])
        else OutOfRange)
  {
    var hist := load(cfg.file);
    var predicted := fit(hist, cfg.order, cfg.seasonal);
    var c := Compose(hist, ForecastSeries(hist, predicted));
    assert Predict(com, load, fit, year, month) == Answered(Resolve(hist, c, year, month)) by {
      PredictConfigured(com, cfg, load, fit, year, month);
    }
    ResolveTimeline(hist, predicted, year, month);
  }

}
