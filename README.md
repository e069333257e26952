# AGRI-FORECAST timeline and lookup core, in Dafny

The AGRI-FORECAST web app forecasts monthly prices of agri-horticulture
commodities. A user picks a commodity. The app reads that commodity's monthly
history, fits a seasonal ARIMA model and forecasts the next 120 months. It
then answers a (year, month) query with the historical value, the predicted
value, or "out of the available range".

This project models the logic around the statistical fit:

- **Commodity configuration** (`Commodities`). An if/elif chain maps a
  commodity name to a data file, a non-seasonal order (p, d, q) and a
  seasonal order (P, D, Q, 12). Any other name gets "Model is in progress"
  and nothing is read or fitted.
- **Calendar** (`Calendar`). Dates at day resolution, a linear month index,
  the step to the next month start (December rolls over to January of the
  next year), `+ DateOffset(months=1)` with clamping to the month's last day,
  and the roll-forward to a month start that a date range with frequency
  `'MS'` applies to its start.
- **Date key** (`DateKey`). The query key `f"{year}-{month:02d}-01"`, and
  the reading of such a key as an ISO `Y-MM-DD` date when it is looked up.
- **Timeline** (`Timeline`). The 120 forecast dates, the predicted values
  re-indexed by them, the historical series followed by the forecast, and
  exact-date lookup.
- **Resolution** (`Resolver`). The lookup of the key in the combined series,
  the Historical / Predicted tag, the out-of-range outcome for a key the
  index lacks (`KeyError`), and a whole request from commodity name to
  answer.

Values are an opaque type parameter `V`: the model never looks at a price.
The 120 predicted values are an input. In `Resolver.Predict`, the file
reader and the fitter are function parameters (`load` and `fit`).

The history must be non-empty, anchored on the first of the month and free
of missing months (`Timeline.Monthly`; `Timeline.MonthlyIffConsecutive`
shows the step-by-step form of the same condition). The app assumes this of
its CSV files without checking it. `Timeline.ForecastStart` shows why it
matters: from a last date on any day but the 1st, the forecast starts two
months later, not one.

Resolution is a function of the history, the combined series, the year and
the month. Repeating a query therefore gives the same answer; the model has
no state that a query could change.

Some checks the app does not make:

- A month outside 1..12 is not rejected as invalid input with its own error.
  The month menu offers only 1..12. If another number did reach the key, the
  key would name no date. The lookup would then raise `KeyError`, shown as
  "out of range" (`Resolver.ResolveMonthOutsideCalendar`).
- Concatenation does not check that the forecast is aligned with the history
  or that they do not overlap. `Timeline.Compose` is plain concatenation.
  Alignment and strictly increasing dates are proved consequences
  (`Timeline.ComposedTimeline`), given a well-formed history.
- The horizon is the constant 120, so there is no invalid-horizon error.
- The forecast does not start one month after the last date regardless of
  its day (see `Timeline.ForecastStart` above).

## Model

| member | source | states |
|---|---|---|
| `Commodities.Configure` | app.py:67-97 | A configuration exists exactly for Gram Dal, Sugar, Wheat, Gur, Milk, Tea and Salt, with the file and orders of the chain. For each one, the seasonal period is 12 and the seasonal (P, D, Q) equals (p, d, q). |
| `Commodities.MenuSupport` | app.py:42-48 | Of the 22 menu entries, exactly the first seven have a configuration; the other fifteen get "in progress". |
| `Commodities.ConfiguredFilesDistinct` | app.py:67-95 | Two different configured commodities read two different data files. |
| `Calendar.NextMonthStart` | app.py:114 | The next month start is a valid month start one month index later; December rolls over to January of the next year. |
| `Calendar.AddMonths` | app.py:114 | Adding `k` months gives a valid month start exactly `k` month indices later. |
| `Calendar.AddMonthsStep` | app.py:114 | Adding `k + 1` months is adding `k` months and stepping to the next month start: the closed form agrees with the calendar step. |
| `Calendar.MonthIndexInjective` | app.py:114 | Two month starts are the same date exactly when their month indices are equal. |
| `Calendar.BeforeIsIndexOrder` | app.py:118 | On month starts, chronological order is the order of month indices. |
| `Calendar.OneMonthLater` | app.py:114 | `+ DateOffset(months=1)` gives a valid date one month index later; it is on the 1st exactly when the input is. |
| `Calendar.RollForwardToMonthStart` | app.py:114 | `'MS'` alignment gives the earliest month start on or after the date. |
| `DateKey.DecimalRoundTrip` | app.py:132 | Reading back the decimal numeral of a year gives the year. |
| `DateKey.ZeroPad2` | app.py:132 | `{month:02d}` has two digits exactly for months below 100, and they denote the month; a month below 10 gets a leading `0`. |
| `DateKey.ParseKey` | app.py:136 | A key that reads as a date reads as a valid calendar date. |
| `DateKey.KeyTextInCalendar` | app.py:132 | For a month in 1..12, the text `{year}-{month:02d}-01` reads as the first day of that month of that year. |
| `DateKey.KeyTextOutsideCalendar` | app.py:132 | For month 0 or a month above 12, the same text reads as no date. |
| `DateKey.Key` | app.py:132 | The query key reads as the first day of the queried month when the month is in 1..12, and as no date otherwise. |
| `DateKey.KeyInjective` | app.py:132 | Two queries give the same key exactly when they ask for the same year and month. |
| `Timeline.MonthlyIffConsecutive` | app.py:114-118 | A series is monthly by closed form (entry `i` is `i` months after the first) exactly when it is non-empty, every date is a month start, and each date is the month after the one before it. |
| `Timeline.MonthlyIncreasing` | app.py:118 | A monthly series has strictly increasing dates. |
| `Timeline.MonthRange` | app.py:114 | The range has `n` dates, begins at its start, and holds only month starts. |
| `Timeline.MonthRangeAt` | app.py:114 | Date `k` of the range is `k` months after its start. |
| `Timeline.ForecastStart` | app.py:114 | The first forecast date is a month start. After a last date on the 1st it is the next month start; after a last date on any other day it is two months on. |
| `Timeline.ForecastDates` | app.py:110-114 | There are exactly 120 forecast dates, all month starts. |
| `Timeline.ForecastDatesAt` | app.py:114 | Forecast date `k` is `k + 1` months after the last historical month, and each forecast date is the month after the previous one. |
| `Timeline.Reindex` | app.py:115 | The re-indexed series has exactly the given dates as its index and the given values, in order. |
| `Timeline.ForecastSeries` | app.py:110-115 | The forecast series has 120 entries. |
| `Timeline.ForecastSeriesAt` | app.py:114-115 | Forecast entry `k` is predicted value `k` at `k + 1` months after the last historical month. |
| `Timeline.Compose` | app.py:118 | The combined series has `|hist| + |forecast|` entries: the history, unchanged, then the forecast, unchanged. |
| `Timeline.ForecastDateFromFirst` | app.py:114-115 | Forecast entry `k` is dated `|hist| + k` months after the first historical month. |
| `Timeline.ComposedDateAt` | app.py:114-118 | Entry `i` of the combined series is dated `i` months after the first historical month, across the join. |
| `Timeline.ComposedMonthly` | app.py:118 | The combined series has `|hist| + 120` entries, begins with the unchanged history, and is monthly: no gap and no overlap at the join. |
| `Timeline.ComposedTimeline` | app.py:110-118 | The combined series has `|hist| + 120` entries. Its prefix is the history, unchanged. Its values are the historical values followed by the predicted ones. Entry `|hist| + k` is predicted value `k` at `k + 1` months after the last historical month. The whole is monthly with strictly increasing dates. |
| `Timeline.Find` | app.py:136 | The lookup finds nothing exactly when no entry has the date, and a found value belongs to an entry with that date. |
| `Timeline.FindMonthly` | app.py:136-137 | In a monthly series, a month start is in the index exactly when its distance `i` in months from the first date is within the series; only entry `i` has that date, and the lookup returns its value. |
| `Timeline.MinYear` | app.py:124 | The smallest year of the index: no entry has an earlier year, and some entry has that year. |
| `Timeline.MaxYear` | app.py:125 | The largest year of the index: no entry has a later year, and some entry has that year. |
| `Timeline.TimelineYears` | app.py:124-126 | The year bounds of the query form run from the first historical year to the year of the 120th forecast month. |
| `Resolver.Loc` | app.py:136 | `.loc[key]` gives a value exactly when the key reads as a date that is in the index, and the value is that of an entry with that date; otherwise it is a `KeyError`. |
| `Resolver.ResolveKey` | app.py:135-142 | The outcome is out of range exactly when the key's date is not in the combined index. It is Historical exactly when the date is in both the combined and the historical index. Any value returned is the combined series' value at that date. |
| `Resolver.Resolve` | app.py:132-142 | The same, stated on (year, month): the outcome is out of range exactly when the month is outside 1..12 or the first of that month is not in the combined index. |
| `Resolver.ResolveAtPosition` | app.py:135-142 | When the queried month's first day is at position `i` of the combined index and nowhere else, the answer is entry `i`, tagged Historical if the day is also in the historical index and Predicted if not; with no position, out of range. |
| `Resolver.ResolveMonthly` | app.py:136-140 | On a monthly combined series that begins with the monthly history, entry `i` (the month's distance from the first month) is returned tagged Historical when `i < |hist|`, tagged Predicted when further on, and out of range outside the series. |
| `Resolver.ResolveTimeline` | app.py:114-142 | On the combined timeline: historical value `i` for months `0 <= i < |hist|` after the first, predicted value `i - |hist|` for the 120 months after, out of range before and beyond. |
| `Resolver.ResolveHistorical` | app.py:136-138 | Every historical date, the last one included, resolves to its historical value, tagged Historical. |
| `Resolver.ResolveForecast` | app.py:115-140 | The `k`-th forecast month resolves to predicted value `k`, tagged Predicted. |
| `Resolver.ResolveFirstForecast` | app.py:114-140 | The month after the last historical month resolves to predicted value 0, tagged Predicted. |
| `Resolver.ResolveOutOfRange` | app.py:135-142 | A query is out of range exactly when its month is before the first historical month or after the 120th forecast month. |
| `Resolver.ResolveMonthOutsideCalendar` | app.py:127-142 | A month number outside 1..12 is answered out of range. |
| `Resolver.ResolveThreeYearsOfHistory` | app.py:110-142 | With 36 months of history ending December 2023: January 2024 gives predicted value 0, December 2023 the last historical value, and January 2034 is out of range. |
| `Resolver.Predict` | app.py:67-142 | A request is answered "not supported" exactly when the commodity has no configuration. |
| `Resolver.PredictUnsupported` | app.py:96-100 | For a commodity without a configuration, the answer does not depend on the file reader or the fitter: nothing is read or fitted. |
| `Resolver.PredictSupported` | app.py:67-142 | A whole request for a configured commodity and a month in 1..12, with `i` the queried month's distance from the first month of the history read from the configured file: historical value `i` when `0 <= i < |hist|`, predicted value `i - |hist|` (fitted with the configured orders) for the next 120 months, out of range before and beyond. |

## Left out

- Fitting and forecasting with SARIMAX (app.py:61-64, 110-111): a foreign, floating-point numerical optimisation. The 120 predicted values are an input, or the result of the `fit` parameter of `Resolver.Predict`.
- Reading the CSV file (app.py:52-58): file I/O and pandas parsing. The history is an input, or the result of the `load` parameter, and must satisfy `Timeline.Monthly`. A missing file (`FileNotFoundError`, app.py:144-145) is not modelled.
- The Streamlit interface (app.py:10-48, 121-130): page styling, titles, the zone and season menus (their choices are never used), the year input and the button. `Resolver.Resolve` accepts any year; the form restricts it to the bounds that `Timeline.TimelineYears` describes.
- The caching decorators (app.py:51, 60): memoisation by the library, with no effect on any answer.
- The generic exception handler and its message (app.py:146-147), and the two-decimal formatting of the value in the messages (app.py:138, 140).
- `DateKey.ParseKey`: pandas reads many date formats. The model reads only the ISO `Y-MM-DD` form that the app's own keys have; any other text reads as no date.
- Timestamps are dates without a time of day, and years are natural numbers. Pandas timestamps are limited to years 1677 to 2262; the model has no such limit.
- A history with a repeated date would make `.loc` return several values. The model requires a monthly history, which rules that out.
