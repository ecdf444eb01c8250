/**
 * Home.py: the dashboard's main page. Its KPIs (total return, CAGR, max drawdown
 * and the CAGR-to-drawdown ratio) are taken over the per-date portfolio series;
 * it also lists the current holdings and compares cumulative returns with a
 * benchmark series on their shared dates.
 */
module Home {
  import opened Wrappers
  import opened Frame
  import opened Metrics

  /** The four KPIs of the page, with the figures they are built from. */
  datatype Kpis = Kpis(
    totalReturn: real,
    years: real,
    cagr: real,
    drawdown: seq<real>,
    maxDrawdown: real,
    riskRatio: real)

  /**
   * What the page's per-date series (lines 71-79) is, seen from the raw frame: empty
   * only for an empty frame, one entry per distinct date in ascending order, and
   * positive throughout when every row has a positive value.
   */
  lemma SeriesOfFrame(frame: seq<Row>, series: seq<Observation>)
    requires series == GroupLast(SortByDate(frame))
    ensures series == [] <==> frame == []
    ensures StrictlyAscending(series)
    ensures |series| == |Dates(frame)|
    ensures PositiveFrame(frame) ==> (AllPresent(series) &&
      forall i :: 0 <= i < |series| ==> ValuesOf(series)[i] > 0.0)
  {
    var sorted := SortByDate(frame);
    GroupLastAscending(sorted);
    GroupLastDates(sorted);
    AscendingCount(series);
    SortKeepsDates(frame);
    if frame != [] {
      assert frame[0].date in Dates(frame);
    }
    if series != [] {
      assert series[0].date in SeriesDates(series);
    }
    if PositiveFrame(frame) {
      SeriesPositive(frame, series);
    }
  }

  lemma SeriesPositive(frame: seq<Row>, series: seq<Observation>)
    requires PositiveFrame(frame) && series == GroupLast(SortByDate(frame))
    ensures AllPresent(series) && forall i :: 0 <= i < |series| ==> ValuesOf(series)[i] > 0.0
  {
    SortKeepsPositive(frame);
    GroupLastPresent(SortByDate(frame));
  }

  /**
   * kpis holds the figures of the per-date values `values`, whose first and last
   * dates are given: last / first - 1, the span in years, the CAGR guarded by a
   * positive span, the drawdown series, its minimum and the CAGR-to-drawdown ratio.
   */
  predicate FiguresOf(kpis: Kpis, values: seq<real>, firstDate: int, lastDate: int, power: (real, real) -> real) {
    |values| > 0 && NonZeroPeaks(values) && values[0] != 0.0 &&
    kpis.totalReturn == TotalReturn(values[0], values[|values| - 1]) &&
    kpis.years == Years(lastDate - firstDate) &&
    kpis.cagr == GuardedCagr(values[|values| - 1] / values[0], kpis.years, power) &&
    kpis.drawdown == Drawdown(values) &&
    kpis.maxDrawdown == MaxDrawdown(values) &&
    kpis.riskRatio == RiskRatio(kpis.cagr, kpis.maxDrawdown)
  }

  /**
   * The metrics block (lines 82-105) over a per-date series of values whose first and
   * last dates are given: total return, year fraction, guarded CAGR, drawdown, max
   * drawdown and the guarded ratio.
   */
  method KpisOfSeries(values: seq<real>, firstDate: int, lastDate: int, power: (real, real) -> real)
    returns (kpis: Kpis)
    requires |values| > 0 && NonZeroPeaks(values)
    ensures FiguresOf(kpis, values, firstDate, lastDate, power)
    ensures kpis.totalReturn == 0.0 <==> values[|values| - 1] == values[0]
    ensures kpis.years > 0.0 <==> lastDate > firstDate
    ensures kpis.years <= 0.0 ==> kpis.cagr == 0.0
    ensures kpis.maxDrawdown in kpis.drawdown
    ensures forall i :: 0 <= i < |kpis.drawdown| ==> kpis.maxDrawdown <= kpis.drawdown[i]
    ensures |values| == 1 ==> kpis.drawdown == [0.0] && kpis.maxDrawdown == 0.0 && kpis.riskRatio == 0.0
    ensures kpis.maxDrawdown == 0.0 ==> kpis.riskRatio == 0.0
    ensures values[0] > 0.0 ==> forall i :: 0 <= i < |kpis.drawdown| ==> kpis.drawdown[i] <= 0.0
    ensures values[0] > 0.0 && (forall i :: 0 <= i < |values| ==> values[i] >= 0.0) ==>
      -1.0 <= kpis.maxDrawdown <= 0.0
  {
    var n := |values|;
    assert values[0] != 0.0 by {
      assert RunningMax(values)[0] == PeakAt(values, 0) == values[0];
    }
    var totalReturn := TotalReturn(values[0], values[n - 1]);
    var years := Years(lastDate - firstDate);
    var cagr := GuardedCagr(values[n - 1] / values[0], years, power);
    var drawdown := Drawdown(values);
    var maxDrawdown := SeqMin(drawdown);
    var riskRatio := RiskRatio(cagr, maxDrawdown);
    kpis := Kpis(totalReturn, years, cagr, drawdown, maxDrawdown, riskRatio);
    if values[0] > 0.0 {
      MaxDrawdownBounds(values);
      DrawdownBounds(values);
    }
    if n == 1 {
      assert drawdown[0] == (values[0] - PeakAt(values, 0)) / PeakAt(values, 0) == 0.0;
      assert drawdown == [0.0];
    }
  }

  /**
   * The KPI section of the page (lines 71-105): sort the frame, keep the last value
   * per date, then derive the KPIs from that series.
   */
  method ComputeKpis(frame: seq<Row>, power: (real, real) -> real) returns (result: Result<Kpis, Failure>)
    ensures result == Err(NoData) <==> frame == []
    ensures result == Err(MissingValue) <==> frame != [] && !AllPresent(GroupLast(SortByDate(frame)))
    ensures result == Err(ZeroPeak) <==> (frame != [] && AllPresent(GroupLast(SortByDate(frame))) &&
      !NonZeroPeaks(ValuesOf(GroupLast(SortByDate(frame)))))
    ensures result.Ok? <==> (frame != [] && AllPresent(GroupLast(SortByDate(frame))) &&
      NonZeroPeaks(ValuesOf(GroupLast(SortByDate(frame)))))
    ensures PositiveFrame(frame) ==> result.Ok?
    ensures result.Ok? ==> var series := GroupLast(SortByDate(frame));
      |series| > 0 && AllPresent(series) &&
      FiguresOf(result.value, ValuesOf(series), series[0].date, series[|series| - 1].date, power)
    ensures result.Ok? ==> |result.value.drawdown| == |Dates(frame)|
    ensures result.Ok? ==> result.value.maxDrawdown in result.value.drawdown
    ensures result.Ok? ==> forall i :: 0 <= i < |result.value.drawdown| ==>
      result.value.maxDrawdown <= result.value.drawdown[i]
    ensures result.Ok? ==> (result.value.years > 0.0 <==> |Dates(frame)| > 1)
    ensures result.Ok? && result.value.years <= 0.0 ==> result.value.cagr == 0.0
    ensures result.Ok? && |Dates(frame)| == 1 ==>
      result.value.totalReturn == 0.0 && result.value.cagr == 0.0 && result.value.drawdown == [0.0] &&
      result.value.maxDrawdown == 0.0 && result.value.riskRatio == 0.0
    ensures PositiveFrame(frame) ==> (result.Ok? &&
      (forall i :: 0 <= i < |result.value.drawdown| ==> result.value.drawdown[i] <= 0.0) &&
      -1.0 <= result.value.maxDrawdown <= 0.0)
  {
    var mainDf := SortByDate(frame);
    var portfolioValues := GroupLast(mainDf);
    SeriesOfFrame(frame, portfolioValues);
    if portfolioValues == [] {
      return Err(NoData);
    }
    if !AllPresent(portfolioValues) {
      return Err(MissingValue);
    }
    var values := ValuesOf(portfolioValues);
    var n := |values|;
    if PositiveFrame(frame) {
      PositiveStartPeaks(values);
    }
    if !NonZeroPeaks(values) {
      return Err(ZeroPeak);
    }
    var kpis := KpisOfSeries(values, portfolioValues[0].date, portfolioValues[n - 1].date, power);
    assert n == |portfolioValues|;
    result := Ok(kpis);
    if n > 1 {
      assert portfolioValues[0].date < portfolioValues[n - 1].date;
    }
  }

  // ---------------------------------------------------------------------------
  // Current holdings (lines 121-126)
  // ---------------------------------------------------------------------------

  /** The latest date of a non-empty frame. */
  function LatestDate(frame: seq<Row>): (d: int)
    requires frame != []
    ensures d in Dates(frame)
    ensures forall i :: 0 <= i < |frame| ==> frame[i].date <= d
  {
    if |frame| == 1 then frame[0].date
    else
      var rest := LatestDate(frame[1..]);
      assert forall i :: 1 <= i < |frame| ==> frame[i] == frame[1..][i - 1];
      assert rest in Dates(frame) by {
        var k :| 0 <= k < |frame[1..]| && frame[1..][k].date == rest;
        assert frame[k + 1].date == rest;
      }
      if frame[0].date >= rest then frame[0].date else rest
  }

  /** In the sorted frame the latest date is the last row's. */
  lemma LatestOfSorted(frame: seq<Row>)
    requires frame != [] && SortedByDate(frame)
    ensures LatestDate(frame) == frame[|frame| - 1].date
  {
  }

  predicate ShownRow(row: Row, latest: int) {
    row.date == latest && row.status == "Held"
  }

  /** The table columns of the rows dated `latest` whose status is "Held", in row order. */
  function HeldOn(rows: seq<Row>, latest: int): (shown: seq<Holding>)
    ensures |shown| <= |rows|
  {
    if rows == [] then []
    else (if ShownRow(rows[0], latest) then [rows[0].holding] else []) + HeldOn(rows[1..], latest)
  }

  /** A holding is shown exactly when some row dated `latest` with status "Held" carries it. */
  lemma {:induction false} HeldOnMembers(rows: seq<Row>, latest: int)
    ensures forall h :: h in HeldOn(rows, latest) <==>
      exists i :: 0 <= i < |rows| && ShownRow(rows[i], latest) && rows[i].holding == h
  {
    if rows != [] {
      HeldOnMembers(rows[1..], latest);
      assert forall i :: 1 <= i < |rows| ==> rows[i] == rows[1..][i - 1];
      forall h | (exists i :: 0 <= i < |rows| && ShownRow(rows[i], latest) && rows[i].holding == h)
        ensures h in HeldOn(rows, latest)
      {
        var i :| 0 <= i < |rows| && ShownRow(rows[i], latest) && rows[i].holding == h;
        if i > 0 {
          assert ShownRow(rows[1..][i - 1], latest) && rows[1..][i - 1].holding == h;
        }
      }
    }
  }

  /** Selecting shown rows commutes with splitting the frame, so row order is kept. */
  lemma {:induction false} HeldOnConcat(a: seq<Row>, b: seq<Row>, latest: int)
    ensures HeldOn(a + b, latest) == HeldOn(a, latest) + HeldOn(b, latest)
  {
    if a == [] {
      assert a + b == b;
    } else {
      var ab := a + b;
      var head := if ShownRow(a[0], latest) then [a[0].holding] else [];
      assert ab[0] == a[0];
      assert ab[1..] == a[1..] + b;
      assert HeldOn(ab, latest) == head + HeldOn(a[1..] + b, latest);
      HeldOnConcat(a[1..], b, latest);
      assert HeldOn(a, latest) == head + HeldOn(a[1..], latest);
    }
  }

  /** The "Current Holding" table: held rows at the frame's latest date. */
  function CurrentHoldings(frame: seq<Row>): (shown: seq<Holding>)
    ensures frame == [] ==> shown == []
    ensures frame != [] ==> forall h :: h in shown <==>
      exists i :: 0 <= i < |frame| && ShownRow(frame[i], LatestDate(frame)) && frame[i].holding == h
  {
    if frame == [] then []
    else
      HeldOnMembers(frame, LatestDate(frame));
      HeldOn(frame, LatestDate(frame))
  }

  // ---------------------------------------------------------------------------
  // Returns against the benchmark (lines 26-45)
  // ---------------------------------------------------------------------------

  /** A dated value with no missing entry. */
  datatype Point = Point(date: int, value: real)

  function PointsOf(series: seq<Observation>): (points: seq<Point>)
    requires AllPresent(series)
    ensures |points| == |series|
    ensures forall i :: 0 <= i < |series| ==>
      points[i].date == series[i].date && series[i].value == Some(points[i].value)
  {
    seq(|series|, i requires 0 <= i < |series| => Point(series[i].date, series[i].value.value))
  }

  function DatesOf(s: seq<Point>): (ds: seq<int>)
    ensures |ds| == |s|
    ensures forall i :: 0 <= i < |s| ==> ds[i] == s[i].date
  {
    seq(|s|, i requires 0 <= i < |s| => s[i].date)
  }

  predicate Increasing(xs: seq<int>) {
    forall i, j :: 0 <= i < j < |xs| ==> xs[i] < xs[j]
  }

  /**
   * pct_change().dropna(): from the second entry on, the change against the entry
   * before it; the first entry, which has none, is dropped.
   */
  function PctChange(s: seq<Point>): (r: seq<Point>)
    requires forall i :: 0 <= i < |s| - 1 ==> s[i].value != 0.0
    ensures |r| == if s == [] then 0 else |s| - 1
    ensures forall i :: 0 <= i < |r| ==> r[i].date == s[i + 1].date
  {
    if |s| <= 1 then []
    else seq(|s| - 1, i requires 0 <= i < |s| - 1 => Point(s[i + 1].date, s[i + 1].value / s[i].value - 1.0))
  }

  /** (1 + returns).cumprod() at entry i. */
  function GrowthAt(rets: seq<Point>, i: nat): real
    requires i < |rets|
  {
    (if i == 0 then 1.0 else GrowthAt(rets, i - 1)) * (1.0 + rets[i].value)
  }

  /** (1 + returns).cumprod(), keeping the dates. */
  function CumGrowth(rets: seq<Point>): (c: seq<Point>)
    ensures |c| == |rets|
    ensures forall i :: 0 <= i < |c| ==> c[i].date == rets[i].date
    ensures |c| > 0 ==> c[0].value == 1.0 + rets[0].value
    ensures forall i :: 0 < i < |c| ==> c[i].value == c[i - 1].value * (1.0 + rets[i].value)
  {
    seq(|rets|, i requires 0 <= i < |rets| => Point(rets[i].date, GrowthAt(rets, i)))
  }

  lemma PctChangeStep(s: seq<Point>, i: nat)
    requires forall k :: 0 <= k < |s| - 1 ==> s[k].value != 0.0
    requires i < |s| - 1
    ensures 1.0 + PctChange(s)[i].value == s[i + 1].value / s[i].value
  {
  }

  lemma RatioChain(g: real, step: real, a: real, b: real, c: real)
    requires a != 0.0 && b != 0.0
    requires g == b / a && step == c / b
    ensures g * step == c / a
  {
  }

  /**
   * Compounding the day-to-day changes of a series gives back each value over the
   * first one: the cumulative curve ends where the portfolio did.
   */
  lemma {:induction false} GrowthTelescopes(s: seq<Point>, i: nat)
    requires forall k :: 0 <= k < |s| - 1 ==> s[k].value != 0.0
    requires i < |s| - 1
    ensures GrowthAt(PctChange(s), i) == s[i + 1].value / s[0].value
  {
    var r := PctChange(s);
    var step := 1.0 + r[i].value;
    PctChangeStep(s, i);
    if i == 0 {
      assert GrowthAt(r, 0) == step;
    } else {
      var before := GrowthAt(r, i - 1);
      GrowthTelescopes(s, i - 1);
      assert GrowthAt(r, i) == before * step;
      RatioChain(before, step, s[0].value, s[i].value, s[i + 1].value);
    }
  }

  /**
   * Daily returns of a positive, date-ascending series compound back to the series:
   * the curve holds value i + 1 over the first value at entry i, so it ends at 1
   * plus the total return.
   */
  lemma ReturnsCompound(series: seq<Observation>)
    requires |series| > 1 && StrictlyAscending(series) && AllPresent(series)
    requires forall i :: 0 <= i < |series| ==> ValuesOf(series)[i] > 0.0
    ensures var values := ValuesOf(series);
      var rets := PctChange(PointsOf(series));
      |rets| == |series| - 1 && Increasing(DatesOf(rets)) &&
      (forall i :: 0 <= i < |rets| ==> CumGrowth(rets)[i].value == values[i + 1] / values[0]) &&
      CumGrowth(rets)[|rets| - 1].value == 1.0 + TotalReturn(values[0], values[|values| - 1])
  {
    var values := ValuesOf(series);
    var points := PointsOf(series);
    assert forall k :: 0 <= k < |points| ==> points[k].value == values[k];
    var rets := PctChange(points);
    forall i, j | 0 <= i < j < |rets| ensures DatesOf(rets)[i] < DatesOf(rets)[j] {
      assert rets[i].date == series[i + 1].date && rets[j].date == series[j + 1].date;
    }
    forall i | 0 <= i < |rets| ensures CumGrowth(rets)[i].value == values[i + 1] / values[0] {
      GrowthTelescopes(points, i);
    }
  }

  /**
   * Lines 25-27 over a positive frame with two dates or more: the per-date
   * portfolio and its daily returns with the first dropped, compounded here before
   * any alignment with the benchmark; the curve ends at 1 plus the portfolio's
   * total return.
   */
  lemma PortfolioReturnsCompound(frame: seq<Row>)
    requires PositiveFrame(frame) && |Dates(frame)| > 1
    ensures var series := GroupLast(SortByDate(frame));
      |series| == |Dates(frame)| && StrictlyAscending(series) && AllPresent(series) &&
      (forall i :: 0 <= i < |series| ==> ValuesOf(series)[i] > 0.0) &&
      var values := ValuesOf(series);
      var rets := PctChange(PointsOf(series));
      |rets| == |series| - 1 && Increasing(DatesOf(rets)) &&
      (forall i :: 0 <= i < |rets| ==> CumGrowth(rets)[i].value == values[i + 1] / values[0]) &&
      CumGrowth(rets)[|rets| - 1].value == 1.0 + TotalReturn(values[0], values[|values| - 1])
  {
    var series := GroupLast(SortByDate(frame));
    SeriesOfFrame(frame, series);
    ReturnsCompound(series);
  }

  /** The entries of `s` whose date is in `keep`, in order. */
  function KeepDates(s: seq<Point>, keep: seq<int>): (r: seq<Point>)
    ensures forall p :: p in r <==> p in s && p.date in keep
  {
    if s == [] then []
    else
      var rest := KeepDates(s[1..], keep);
      assert forall p :: p in s <==> p == s[0] || p in s[1..];
      (if s[0].date in keep then [s[0]] else []) + rest
  }

  lemma IncreasingCons(d: int, xs: seq<int>)
    requires Increasing(xs)
    requires forall i :: 0 <= i < |xs| ==> d < xs[i]
    ensures Increasing([d] + xs)
  {
    var ys := [d] + xs;
    forall i, j | 0 <= i < j < |ys| ensures ys[i] < ys[j] {
      assert ys[j] == xs[j - 1];
      if i > 0 {
        assert ys[i] == xs[i - 1];
      }
    }
  }

  /** Filtering keeps a lower bound on the dates. */
  lemma KeepDatesAbove(s: seq<Point>, keep: seq<int>, d: int)
    requires forall k :: 0 <= k < |s| ==> d < s[k].date
    ensures forall i :: 0 <= i < |KeepDates(s, keep)| ==> d < DatesOf(KeepDates(s, keep))[i]
  {
    var l := KeepDates(s, keep);
    forall i | 0 <= i < |l| ensures d < DatesOf(l)[i] {
      assert l[i] in s;
    }
  }

  lemma {:induction false} KeepDatesAscending(s: seq<Point>, keep: seq<int>)
    requires Increasing(DatesOf(s))
    ensures Increasing(DatesOf(KeepDates(s, keep)))
  {
    if s != [] {
      var tail := s[1..];
      var ds := DatesOf(s);
      forall i, j | 0 <= i < j < |tail| ensures DatesOf(tail)[i] < DatesOf(tail)[j] {
        assert ds[i + 1] < ds[j + 1];
      }
      forall k | 0 <= k < |tail| ensures s[0].date < tail[k].date {
        assert ds[0] < ds[k + 1];
      }
      KeepDatesAscending(tail, keep);
      var rest := KeepDates(tail, keep);
      if s[0].date in keep {
        KeepDatesAbove(tail, keep, s[0].date);
        IncreasingCons(s[0].date, DatesOf(rest));
        assert KeepDates(s, keep) == [s[0]] + rest;
        assert DatesOf([s[0]] + rest) == [s[0].date] + DatesOf(rest);
      } else {
        assert KeepDates(s, keep) == rest;
      }
    }
  }

  /** Two increasing sequences with the same elements are equal. */
  lemma {:induction false} IncreasingUnique(a: seq<int>, b: seq<int>)
    requires Increasing(a) && Increasing(b)
    requires forall x :: x in a <==> x in b
    ensures a == b
  {
    // each first element occurs in the other sequence, so neither is empty unless both are
    assert a != [] ==> a[0] in a && a[0] in b;
    assert b != [] ==> b[0] in b && b[0] in a;
    if a != [] && b != [] {
      assert a[0] == b[0];
      forall x ensures x in a[1..] <==> x in b[1..] {
        assert x in a[1..] <==> x in a && x != a[0];
        assert x in b[1..] <==> x in b && x != b[0];
      }
      IncreasingUnique(a[1..], b[1..]);
      assert a == [a[0]] + a[1..];
      assert b == [b[0]] + b[1..];
    }
  }

  /** The dates kept are exactly the series' dates that are listed in `keep`. */
  lemma KeepDatesDates(s: seq<Point>, keep: seq<int>)
    ensures forall d :: d in DatesOf(KeepDates(s, keep)) <==> d in DatesOf(s) && d in keep
  {
    var l := KeepDates(s, keep);
    forall d ensures d in DatesOf(l) <==> d in DatesOf(s) && d in keep {
      if d in DatesOf(l) {
        var i :| 0 <= i < |l| && DatesOf(l)[i] == d;
        assert l[i] in s;
        var k :| 0 <= k < |s| && s[k] == l[i];
        assert DatesOf(s)[k] == d;
      }
      if d in DatesOf(s) && d in keep {
        var k :| 0 <= k < |s| && DatesOf(s)[k] == d;
        assert s[k] in l;
        var i :| 0 <= i < |l| && l[i] == s[k];
        assert DatesOf(l)[i] == d;
      }
    }
  }

  /**
   * port_ret.align(bench_ret, join="inner"): both series restricted to shared dates.
   * On two date-ascending series both sides get the same ascending dates, exactly
   * the shared ones, each paired with its own series' value.
   */
  function Align(port: seq<Point>, bench: seq<Point>): (aligned: (seq<Point>, seq<Point>))
    ensures forall p :: p in aligned.0 <==> p in port && p.date in DatesOf(bench)
    ensures forall p :: p in aligned.1 <==> p in bench && p.date in DatesOf(port)
    ensures Increasing(DatesOf(port)) && Increasing(DatesOf(bench)) ==>
      DatesOf(aligned.0) == DatesOf(aligned.1) && Increasing(DatesOf(aligned.0)) &&
      forall d :: d in DatesOf(aligned.0) <==> d in DatesOf(port) && d in DatesOf(bench)
  {
    var l := KeepDates(port, DatesOf(bench));
    var r := KeepDates(bench, DatesOf(port));
    KeepDatesDates(port, DatesOf(bench));
    KeepDatesDates(bench, DatesOf(port));
    if Increasing(DatesOf(port)) && Increasing(DatesOf(bench)) then
      KeepDatesAscending(port, DatesOf(bench));
      KeepDatesAscending(bench, DatesOf(port));
      IncreasingUnique(DatesOf(l), DatesOf(r));
      (l, r)
    else
      (l, r)
  }
}
