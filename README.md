# Portfolio dashboard metrics in Dafny

A model of the performance arithmetic of a two-page Streamlit portfolio
dashboard. Both pages read a frame of rows (a date, the total portfolio value,
a holding status and the holding's table columns), sort it by date and derive
the figures on the page:

- `Home.py` keeps the last value per date. From that series it takes the total
  return, the year fraction, a CAGR guarded against a zero span, the drawdown
  series and its minimum, and a CAGR-to-drawdown ratio guarded against a zero
  drawdown. It also lists the holdings marked "Held" at the latest date. It
  compares the portfolio's day-to-day returns with a benchmark on their shared
  dates, as cumulative growth curves.
- `main.py` is the first version of the page. It takes its KPIs over the raw
  sorted rows with no guard on the year fraction. Only its drawdown chart works
  on one value per date.

Modules:

- `Wrappers`: `Option` and `Result`.
- `Frame`: rows, the date sort (`SortByDate`) and `groupby(date).last()`
  (`GroupLast`) with their specifications.
- `Metrics`: the arithmetic both pages share. This covers total return, year
  fraction, CAGR, cummax (as a function and as a loop), both drawdown forms,
  max drawdown, the risk ratio and the colour rules.
- `Home`: the `Home.py` pipeline (`ComputeKpis`), the holdings table, and
  `pct_change` / `cumprod` / inner alignment.
- `MainPage`: the `main.py` pipeline (`ComputeReport`) and a worked example of
  its duplicate-date discrepancy.

Values are exact reals. Where the float program would stop or leave the
reals, the model returns an error of type `Metrics.Failure`:
- `NoData`: `iloc` on an empty series.
- `ZeroDivision`: `1 / years` with `years == 0`.
- `MissingValue`: a missing value reaches the arithmetic.
- `ZeroPeak`: a running maximum of 0.

Two behaviours of the code shape the model:
- `groupby(date).last()` keeps a date whose values are all missing, with a
  missing value. It does not drop that date.
- `main.py` raises `ZeroDivisionError` at `1 / years` (main.py:30) whenever
  every row shares one date, whatever the values are: the division by the
  first value on line 27 only warns. The model returns `Err(ZeroDivision)`
  there, before it looks at the values.

## Model

| member | source | states |
|---|---|---|
| Frame.SortByDate | Home.py:71 | the result is sorted by date and is a permutation of the input rows |
| Frame.Insert | Home.py:71 | the result holds the frame's rows plus the inserted one, no more and no fewer |
| Frame.InsertSorted | Home.py:71 | inserting a row into a sorted frame keeps it sorted |
| Frame.SortSortedIsIdentity | main.py:108-116 | sorting an already sorted frame changes nothing, so in the model the re-sorts of main.py:108 and :116 are no-ops (pandas' default sort need not keep rows of one date in order; see `Frame.SortByDate` under "## Left out") |
| Frame.SortKeepsDates | Home.py:71 | sorting keeps the set of dates |
| Frame.SortKeepsPositive | Home.py:71 | sorting a frame whose values are all present and positive keeps it so |
| Frame.LastPresentSpec | Home.py:79 | `LastPresent(rows, d)`, the value pandas' `last()` gives date d, is missing iff every row of that date is missing; otherwise it is the value of some row of that date with no present row of that date after it |
| Frame.AbsorbDates | Home.py:79 | reading a row adds exactly its date to the series' dates |
| Frame.AbsorbAscending | Home.py:79 | reading a row no earlier than the series' last date keeps the series strictly ascending |
| Frame.NoRowsForNewDate | Home.py:79 | in a sorted frame a date later than the last row has no value yet |
| Frame.GroupLastAscending | Home.py:79 | on a sorted frame the per-date series is strictly ascending and ends at the frame's last date |
| Frame.GroupLastDates | Home.py:79 | the series' dates are exactly the frame's dates |
| Frame.GroupLastValues | Home.py:79 | each series entry holds the last present value of its date |
| Frame.GroupLastSpec | Home.py:79 | `GroupLast` of a sorted frame is strictly ascending, has one entry per distinct date, and holds at each date `LastPresent` of that date |
| Frame.AscendingCount | main.py:119 | a strictly ascending series has as many entries as distinct dates |
| Frame.GroupLastPresent | Home.py:79 | with no missing row value, no series entry is missing and each is the value of some row |
| Frame.SingleDateIffEndsMeet | main.py:28 | in a sorted non-empty frame the first and last dates are equal iff there is one distinct date |
| Metrics.TotalReturn | Home.py:82 | the total return is 0 iff last equals first; for a positive first value it is positive iff the series grew, and at least -1 when last is non-negative |
| Metrics.Years | Home.py:87-88 | the year fraction is positive iff the day count is, and 0 iff it is |
| Metrics.GuardedCagr | Home.py:91-94 | CAGR is 0 when the span is not positive, else ratio ** (1 / years) - 1 |
| Metrics.CagrCompounds | main.py:30 | when the power operator yields the positive n-th root of the growth ratio, compounding 1 + CAGR over n whole years gives the ratio back; CAGR is positive iff the portfolio grew and 0 iff it ended where it started |
| Metrics.PeakAtIsPrefixMax | Home.py:97 | the peak up to i dominates every earlier value and is one of them |
| Metrics.PeakAtMonotone | Home.py:97 | the peak never decreases |
| Metrics.RunningMaxIsPrefixMax | Home.py:97 | cummax is non-decreasing, dominates each value seen so far and is one of them |
| Metrics.AtPeakIffDominates | Home.py:97 | the running max at i equals values[i] iff no earlier value exceeds it |
| Metrics.CumMax | main.py:32 | the loop computes exactly the running maximum, which dominates every value seen and is one of them |
| Metrics.PositiveStartPeaks | Home.py:97 | from a positive first value every running max is at least that value, so none is 0 |
| Metrics.Drawdown | Home.py:98 | one drawdown entry per value |
| Metrics.DrawdownByRatio | main.py:123 | one drawdown entry per value |
| Metrics.GapIsRatioMinusOne | main.py:123 | (v - m) / m == v / m - 1 for m != 0 |
| Metrics.DrawdownFormsAgree | main.py:122-123 | (v - rm) / rm and v / rm - 1 give the same series whenever no running max is 0 |
| Metrics.RelativeGapBounds | Home.py:98 | for 0 < m and v <= m the relative gap is in [-1, 0] for v >= 0, and 0 iff v == m |
| Metrics.DrawdownBounds | Home.py:98 | from a positive start every drawdown is <= 0, is 0 exactly at a new peak or a tie, and is >= -1 over non-negative values |
| Metrics.SeqMin | Home.py:99 | the minimum is an element of the series and is <= every entry |
| Metrics.MaxDrawdown | Home.py:99 | max drawdown is one of the drawdown entries and is <= every one of them |
| Metrics.MaxDrawdownBounds | Home.py:99 | from a positive start max drawdown is <= 0, is >= -1 over non-negative values (the chart domain at Home.py:196), and is 0 iff the series never falls |
| Metrics.RiskRatio | Home.py:102-105 | the ratio is 0 when max drawdown is 0, otherwise it has the sign of CAGR |
| Metrics.MonthlyColour | main.py:63 | "green" iff the monthly return is > 0, "red" iff it is <= 0 |
| Metrics.YearlyStyle | Home.py:226-227 | the green style iff the yearly return is >= 0, the red style iff it is < 0 |
| Metrics.ColourRulesDifferOnlyAtZero | Home.py:144 | the monthly and yearly rules disagree exactly on a return of 0 |
| Home.SeriesOfFrame | Home.py:71-79 | the per-date series is empty iff the frame is, is strictly ascending with one entry per date, and is present and positive when every row is |
| Home.KpisOfSeries | Home.py:82-105 | the figures are those of the series (`FiguresOf`): total return last / first - 1, years (last date - first date) / 365.25, CAGR guarded by a positive span, the series' drawdown, its minimum, and the ratio with its zero guard; total return is 0 iff last equals first; years > 0 iff the span is positive, else CAGR is 0; one value gives drawdown [0], max drawdown 0 and ratio 0; from a positive start drawdown <= 0, and max drawdown in [-1, 0] over non-negative values |
| Home.ComputeKpis | Home.py:71-105 | NoData iff the frame is empty; for a non-empty frame, MissingValue iff some date of the per-date series `GroupLast(SortByDate(frame))` has no value, ZeroPeak iff every date has one but some running max of the series is 0, and success iff neither; on success the KPIs are `FiguresOf` the per-date series `GroupLast(SortByDate(frame))` between its first and last dates; a positive frame always yields KPIs with every drawdown <= 0 and max drawdown in [-1, 0]; one drawdown entry per distinct date; years > 0 iff more than one date; a single date gives 0 return, 0 CAGR, drawdown [0], 0 max drawdown and 0 ratio |
| Home.LatestDate | Home.py:121-122 | the latest date is a date of the frame and no row is later |
| Home.LatestOfSorted | Home.py:122 | in a sorted frame the latest date is the last row's |
| Home.HeldOn | Home.py:124-126 | the table never has more entries than the frame has rows |
| Home.HeldOnMembers | Home.py:124-126 | a holding is shown iff some row has the given date, status "Held" and that holding |
| Home.HeldOnConcat | Home.py:124-125 | filtering commutes with concatenation, so shown rows keep the frame's order |
| Home.CurrentHoldings | Home.py:121-126 | an empty frame shows nothing; otherwise a holding is shown iff some row at the latest date with status "Held" carries it |
| Home.PctChange | Home.py:27 | one entry fewer than the series, each dated like the later of its two values |
| Home.CumGrowth | Home.py:44-45 | same dates as the returns; the first entry is 1 + r0 and each later one is the previous times 1 + ri |
| Home.GrowthTelescopes | Home.py:27-44 | compounding a series' day-to-day changes up to i gives value i+1 / value 0 |
| Home.ReturnsCompound | Home.py:26-44 | for a positive date-ascending series, `pct_change().dropna()` has one entry fewer with ascending dates, and its `(1 + r).cumprod()` holds value i+1 / value 0 at entry i, ending at 1 + the total return |
| Home.PortfolioReturnsCompound | Home.py:25-27 | for a positive frame with two dates or more, the per-date portfolio is present, positive and ascending, and the curve compounded from its daily returns ends at 1 + the portfolio's total return |
| Home.KeepDates | Home.py:39 | a point is kept iff it is in the series and its date is listed |
| Home.KeepDatesAscending | Home.py:39 | filtering keeps dates ascending |
| Home.IncreasingCons | Home.py:39 | a date below every entry of an increasing sequence can be put in front of it |
| Home.IncreasingUnique | Home.py:39 | two increasing date sequences with the same elements are equal |
| Home.KeepDatesDates | Home.py:39 | the kept dates are exactly the series' dates that are listed |
| Home.Align | Home.py:39 | the inner join keeps a point iff it is in its own series and its date is in the other; on two date-ascending series both sides get the same ascending dates, exactly the shared ones |
| MainPage.RowKpis | main.py:25-34 | over sorted rows: ZeroDivision iff the first and last rows share a date, whatever the values; otherwise MissingValue iff a row is missing and ZeroPeak iff some running max is 0; success iff the span is positive, every row has a value and no running max is 0; on success the figures are `RowFigures` of the raw rows: total return last / first - 1, years (last date - first date) / 365.25 > 0, the unguarded CAGR, the drawdown of every row and its minimum |
| MainPage.ChartOf | main.py:108-123 | the chart is the drawdown of the per-date series, one entry per date; ZeroPeak is the only error, exactly when a running max of that series is 0 |
| MainPage.RowsOfFrame | main.py:19-28 | the sorted frame keeps every row and every date; the first and last rows share a date iff there is one distinct date |
| MainPage.PositiveRows | main.py:25-34 | over a positive frame every row has a value, no running max is 0, every drawdown is <= 0 and max drawdown is in [-1, 0] |
| MainPage.ComputeReport | main.py:19-123 | NoData iff the frame is empty; ZeroDivision iff the frame has exactly one date; with two dates or more, MissingValue iff a sorted raw row has no value, ZeroPeak iff every row has one but some running max of the raw rows or of the per-date series is 0, and success iff neither; a positive frame with two dates or more always succeeds; on success the KPIs are `RowFigures` of the sorted raw rows (last / first - 1, the year fraction, the unguarded CAGR, the drawdown of every row and its minimum), and the chart is the drawdown of the per-date series with one entry per date; positive frames give drawdowns <= 0 and max drawdown in [-1, 0] |
| MainPage.ChartDrawdownNonPositive | main.py:119-123 | over a positive frame every per-date drawdown entry is <= 0 |
| MainPage.DuplicateDateDeepensKpi | main.py:32-34 | on a frame with two rows on one date, the KPI max drawdown is -0.5 while the per-date drawdown series has minimum 0 |

## Left out

- CSV loading and `pd.to_datetime` / `pd.to_numeric` parsing: rows arrive as parsed values. Dates are day numbers; a value that fails to parse is `None`.
- The benchmark download through `yf.download` and its month-end resample: it is a network call. The benchmark enters `Home.Align` as a given series.
- Calendar resampling by month and year (`resample("M")`, `resample("Y")`): pandas calendar semantics. `Home.PctChange` models the `pct_change().dropna()` applied after it, and the colour rules model the labels.
- Streamlit, Altair and Plotly calls, CSS and percentage formatting: presentation only.
- Metrics.Cagr: the fractional power has no counterpart on Dafny reals, so the power operator is a parameter. `CagrCompounds` states what CAGR means over whole years when that parameter is the exact root; fractional spans are not covered.
- IEEE floats: NaN and infinity propagation and rounding are not modelled. Where a value is missing the model stops with `MissingValue`, and where a running max is 0 it stops with `ZeroPeak`.
- Home.ComputeKpis: stops with `MissingValue` when any per-date value is missing. pandas' `cummax` and `min` skip a missing entry, so a missing value between present first and last values still gives finite figures on the page (for per-date values 100, missing, 90: total return and max drawdown -10%).
- MainPage.RowKpis: stops with `MissingValue` when any raw row lacks a value, where main.py's `cummax` and `min` skip a missing row in the middle of the frame.
- MainPage.ChartOf: requires every row to have a value, so the model draws no chart for a frame with a missing value, which main.py:119-123 still draws.
- Frame.SortByDate: rows that share a date keep their file order. pandas' default sort promises no order for them, so `groupby(date).last()` may pick a different row of such a date, and the re-sorts of main.py:108 and :116 may reorder such rows even in an already sorted frame (the model's `SortSortedIsIdentity` holds for its stable sort only).
- Home.PctChange: requires every value but the last to be non-zero. Over a zero, pandas gives inf for a change to a non-zero value and NaN for 0 followed by 0, which `dropna` removes.
- Home.GrowthTelescopes: covers a series compounded on its own dates. The dates the inner join drops are not folded into the curve.
- MainPage.ComputeReport: the other columns that `groupby(..., as_index=False).last()` carries are not kept. Only the value column feeds the chart.

## Findings

| source | as written | input that shows it | evidently intended | confidence | as-written member | corrected member |
|---|---|---|---|---|---|---|
| main.py:28-30 | CAGR divides by the year fraction with no guard | any frame whose rows all share one date, whatever its values: the span is 0 days, so `1 / years` raises ZeroDivisionError | CAGR 0 for a span that is not positive, as Home.py:91-94 does | high, not executed | MainPage.ComputeReport | Home.ComputeKpis |
| main.py:32-34 | KPI drawdown is taken over raw rows, so several rows on one date count as separate points in time | rows (day 1, 100), (day 1, 50), (day 2, 100): the KPI shows a -50% max drawdown, while the page's own per-date chart (main.py:119-123) shows no drawdown | one value per date before the drawdown, as main.py:119 and Home.py:79 do | medium, not executed | MainPage.DuplicateDateDeepensKpi | Home.ComputeKpis |
