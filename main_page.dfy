/**
 * main.py: the first version of the dashboard page. Its KPIs are taken over the
 * raw sorted rows, with no guard on the year fraction; only its drawdown chart
 * is built from one value per date.
 */
module MainPage {
  import opened Wrappers
  import opened Frame
  import opened Metrics

  /** The page's KPIs and the series behind its drawdown chart. */
  datatype Report = Report(
    totalReturn: real,
    years: real,
    cagr: real,
    drawdown: seq<real>,
    maxDrawdown: real,
    chartDrawdown: seq<real>)

  /**
   * report holds the KPIs of main.py over the row values `values`, whose first
   * and last dates are given: last / first - 1, the span in years (never 0 here,
   * since 1 / years would have raised), the unguarded CAGR, one drawdown entry per
   * row and their minimum.
   */
  predicate RowFigures(report: Report, values: seq<real>, firstDate: int, lastDate: int,
                       power: (real, real) -> real) {
    |values| > 0 && NonZeroPeaks(values) && values[0] != 0.0 &&
    report.totalReturn == TotalReturn(values[0], values[|values| - 1]) &&
    report.years == Years(lastDate - firstDate) && report.years != 0.0 &&
    report.cagr == Cagr(values[|values| - 1] / values[0], report.years, power) &&
    report.drawdown == Drawdown(values) &&
    report.maxDrawdown == MaxDrawdown(values)
  }

  /**
   * The KPI block (lines 25-34) over the sorted rows: every row counts, one
   * drawdown entry per row, and no guard before 1 / years. The chart series is
   * left empty here and filled in by ComputeReport.
   */
  method RowKpis(mainDf: seq<Row>, power: (real, real) -> real) returns (result: Result<Report, Failure>)
    requires mainDf != [] && SortedByDate(mainDf)
    ensures result != Err(NoData)
    ensures result == Err(ZeroDivision) <==> mainDf[0].date == mainDf[|mainDf| - 1].date
    ensures result == Err(MissingValue) <==>
      mainDf[0].date < mainDf[|mainDf| - 1].date && !RowsPresent(mainDf)
    ensures result == Err(ZeroPeak) <==>
      mainDf[0].date < mainDf[|mainDf| - 1].date && RowsPresent(mainDf) && !NonZeroPeaks(RowValues(mainDf))
    ensures result.Ok? <==> (mainDf[0].date < mainDf[|mainDf| - 1].date &&
      RowsPresent(mainDf) && NonZeroPeaks(RowValues(mainDf)))
    ensures result.Ok? ==> (RowsPresent(mainDf) &&
      RowFigures(result.value, RowValues(mainDf), mainDf[0].date, mainDf[|mainDf| - 1].date, power) &&
      result.value.chartDrawdown == [])
    ensures result.Ok? ==> result.value.years > 0.0 && mainDf[0].date < mainDf[|mainDf| - 1].date
  {
    var n := |mainDf|;
    // Line 27 cannot stop the page (numpy division yields inf or NaN), so the
    // first failure Python raises is 1 / years on line 30.
    var days := mainDf[n - 1].date - mainDf[0].date;
    assert days >= 0;
    var years := Years(days);
    if years == 0.0 {
      // 1 / years: Python raises ZeroDivisionError and the page stops here
      return Err(ZeroDivision);
    }
    if !RowsPresent(mainDf) {
      return Err(MissingValue);
    }
    var portfolioValue := RowValues(mainDf);
    if !NonZeroPeaks(portfolioValue) {
      return Err(ZeroPeak);
    }
    assert portfolioValue[0] != 0.0 by {
      assert RunningMax(portfolioValue)[0] == PeakAt(portfolioValue, 0) == portfolioValue[0];
    }
    var totalReturn := TotalReturn(portfolioValue[0], portfolioValue[n - 1]);
    var cagr := Cagr(portfolioValue[n - 1] / portfolioValue[0], years, power);
    var drawdown := Drawdown(portfolioValue);
    var maxDrawdown := SeqMin(drawdown);
    result := Ok(Report(totalReturn, years, cagr, drawdown, maxDrawdown, []));
  }

  /**
   * The page's computations in source order: the KPIs over every sorted row
   * (lines 19-34), then the per-date drawdown chart (lines 108-123).
   */
  method ComputeReport(frame: seq<Row>, power: (real, real) -> real) returns (result: Result<Report, Failure>)
    ensures result == Err(NoData) <==> frame == []
    ensures result == Err(ZeroDivision) <==> frame != [] && |Dates(frame)| == 1
    ensures result == Err(MissingValue) <==> (frame != [] && |Dates(frame)| > 1 &&
      !RowsPresent(SortByDate(frame)))
    ensures result == Err(ZeroPeak) <==> (frame != [] && |Dates(frame)| > 1 &&
      RowsPresent(SortByDate(frame)) && AllPresent(GroupLast(SortByDate(frame))) &&
      (!NonZeroPeaks(RowValues(SortByDate(frame))) || !NonZeroPeaks(ValuesOf(GroupLast(SortByDate(frame))))))
    ensures result.Ok? <==> (frame != [] && |Dates(frame)| > 1 &&
      RowsPresent(SortByDate(frame)) && NonZeroPeaks(RowValues(SortByDate(frame))) &&
      AllPresent(GroupLast(SortByDate(frame))) && NonZeroPeaks(ValuesOf(GroupLast(SortByDate(frame)))))
    ensures PositiveFrame(frame) && |Dates(frame)| > 1 ==> result.Ok?
    ensures result.Ok? ==> |Dates(frame)| > 1 && result.value.years > 0.0
    ensures result.Ok? ==> var sorted := SortByDate(frame);
      |sorted| == |frame| && RowsPresent(sorted) &&
      RowFigures(result.value, RowValues(sorted), sorted[0].date, sorted[|sorted| - 1].date, power)
    ensures result.Ok? ==> |result.value.drawdown| == |frame|
    ensures result.Ok? ==> result.value.maxDrawdown in result.value.drawdown
    ensures result.Ok? ==> forall i :: 0 <= i < |result.value.drawdown| ==>
      result.value.maxDrawdown <= result.value.drawdown[i]
    ensures result.Ok? ==> var series := GroupLast(SortByDate(frame));
      AllPresent(series) && NonZeroPeaks(ValuesOf(series)) &&
      result.value.chartDrawdown == Drawdown(ValuesOf(series))
    ensures result.Ok? ==> |result.value.chartDrawdown| == |Dates(frame)|
    ensures result.Ok? && PositiveFrame(frame) ==>
      (forall i :: 0 <= i < |result.value.drawdown| ==> result.value.drawdown[i] <= 0.0) &&
      (forall i :: 0 <= i < |result.value.chartDrawdown| ==> result.value.chartDrawdown[i] <= 0.0) &&
      -1.0 <= result.value.maxDrawdown <= 0.0
  {
    if frame == [] {
      return Err(NoData);
    }
    var mainDf := SortByDate(frame);
    RowsOfFrame(frame, mainDf);
    ghost var single := |Dates(frame)| == 1;
    assert mainDf[0].date == mainDf[|mainDf| - 1].date <==> single;
    var kpis := RowKpis(mainDf, power);
    assert kpis == Err(ZeroDivision) <==> single;
    if RowsPresent(mainDf) {
      GroupLastPresent(mainDf);
    }
    if PositiveFrame(frame) {
      PositiveFrameUsable(frame, mainDf);
      if !single {
        assert mainDf[0].date < mainDf[|mainDf| - 1].date;
      }
    }
    if kpis.Err? {
      return Err(kpis.error);
    }
    assert !single;
    var chart := ChartOf(mainDf);
    if chart.Err? {
      return Err(chart.error);
    }
    result := Ok(kpis.value.(chartDrawdown := chart.value));
    if PositiveFrame(frame) {
      PositiveRows(frame);
      ChartDrawdownNonPositive(frame);
    }
  }

  /**
   * The drawdown chart (lines 108-123): sort the rows again, keep the last value
   * per date, then value / running max - 1, which is the KPI's drawdown formula
   * applied to the per-date series.
   */
  method ChartOf(rows: seq<Row>) returns (result: Result<seq<real>, Failure>)
    requires SortedByDate(rows) && RowsPresent(rows)
    ensures AllPresent(GroupLast(rows))
    ensures result.Err? ==> result.error == ZeroPeak
    ensures result.Ok? <==> NonZeroPeaks(ValuesOf(GroupLast(rows)))
    ensures result.Ok? ==> result.value == Drawdown(ValuesOf(GroupLast(rows)))
    ensures |GroupLast(rows)| == |Dates(rows)|
  {
    SortSortedIsIdentity(rows);
    var mainDf := SortByDate(rows);
    var perDate := GroupLast(mainDf);
    GroupLastPresent(mainDf);
    GroupLastSpec(mainDf);
    var dailyValue := ValuesOf(perDate);
    if !NonZeroPeaks(dailyValue) {
      return Err(ZeroPeak);
    }
    var chartDrawdown := DrawdownByRatio(dailyValue);
    DrawdownFormsAgree(dailyValue);
    result := Ok(chartDrawdown);
  }

  /** What sorting tells about the raw rows the KPIs are taken over. */
  lemma RowsOfFrame(frame: seq<Row>, mainDf: seq<Row>)
    requires frame != [] && mainDf == SortByDate(frame)
    ensures mainDf != [] && |mainDf| == |frame|
    ensures Dates(mainDf) == Dates(frame) && |Dates(frame)| >= 1
    ensures mainDf[0].date == mainDf[|mainDf| - 1].date <==> |Dates(frame)| == 1
  {
    assert frame[0] in multiset(mainDf);
    assert frame[0].date in Dates(frame);
    assert |mainDf| == |multiset(mainDf)| == |multiset(frame)| == |frame|;
    SortKeepsDates(frame);
    SingleDateIffEndsMeet(mainDf);
  }

  /** Over a positive frame both the raw-row KPIs and the per-date chart are defined. */
  lemma PositiveFrameUsable(frame: seq<Row>, mainDf: seq<Row>)
    requires PositiveFrame(frame) && mainDf == SortByDate(frame)
    ensures RowsPresent(mainDf) && NonZeroPeaks(RowValues(mainDf))
    ensures AllPresent(GroupLast(mainDf)) && NonZeroPeaks(ValuesOf(GroupLast(mainDf)))
  {
    SortKeepsPositive(frame);
    PositiveStartPeaks(RowValues(mainDf));
    ChartDrawdownNonPositive(frame);
  }

  /** Over a positive frame the raw-row KPIs are defined, with drawdowns in [-1, 0]. */
  lemma PositiveRows(frame: seq<Row>)
    requires PositiveFrame(frame)
    ensures |SortByDate(frame)| == |frame|
    ensures RowsPresent(SortByDate(frame)) && NonZeroPeaks(RowValues(SortByDate(frame)))
    ensures forall i :: 0 <= i < |frame| ==> Drawdown(RowValues(SortByDate(frame)))[i] <= 0.0
    ensures -1.0 <= MaxDrawdown(RowValues(SortByDate(frame))) <= 0.0
  {
    var sorted := SortByDate(frame);
    assert |sorted| == |multiset(sorted)| == |multiset(frame)| == |frame|;
    SortKeepsPositive(frame);
    var values := RowValues(sorted);
    DrawdownBounds(values);
    MaxDrawdownBounds(values);
  }

  /** Over a positive frame every entry of the per-date drawdown is at most 0. */
  lemma ChartDrawdownNonPositive(frame: seq<Row>)
    requires PositiveFrame(frame)
    ensures AllPresent(GroupLast(SortByDate(frame)))
    ensures NonZeroPeaks(ValuesOf(GroupLast(SortByDate(frame))))
    ensures forall i :: 0 <= i < |GroupLast(SortByDate(frame))| ==>
      Drawdown(ValuesOf(GroupLast(SortByDate(frame))))[i] <= 0.0
  {
    var sorted := SortByDate(frame);
    SortKeepsPositive(frame);
    GroupLastPresent(sorted);
    GroupLastSpec(sorted);
    var series := GroupLast(sorted);
    assert series != [] by {
      assert sorted[0].date in Dates(sorted);
    }
    var values := ValuesOf(series);
    assert values[0] > 0.0 by {
      var k :| 0 <= k < |sorted| && sorted[k].value == series[0].value;
    }
    DrawdownBounds(values);
  }

  /** Three rows, two of them on date 1: the value dips to 50 and recovers the same day. */
  function DuplicateDateFrame(): seq<Row> {
    var h := Holding("AAA", 1.0, 100.0, 100.0, 100.0);
    [Row(1, Some(100.0), "Held", h), Row(1, Some(50.0), "Held", h), Row(2, Some(100.0), "Held", h)]
  }

  lemma DuplicateDateSorted()
    ensures SortByDate(DuplicateDateFrame()) == DuplicateDateFrame()
  {
    var frame := DuplicateDateFrame();
    assert SortedByDate(frame);
    SortSortedIsIdentity(frame);
  }

  lemma DuplicateDateValues()
    ensures RowsPresent(DuplicateDateFrame())
    ensures RowValues(DuplicateDateFrame()) == [100.0, 50.0, 100.0]
  {
    var frame := DuplicateDateFrame();
    var values := RowValues(frame);
    assert values == seq(3, i requires 0 <= i < 3 => frame[i].value.value);
  }

  lemma DuplicateDateRawDrawdown()
    ensures NonZeroPeaks([100.0, 50.0, 100.0]) && MaxDrawdown([100.0, 50.0, 100.0]) == -0.5
  {
    var values := [100.0, 50.0, 100.0];
    assert PeakAt(values, 1) == 100.0;
    assert PeakAt(values, 2) == 100.0;
    assert Drawdown(values) == [0.0, -0.5, 0.0];
    var dd := [0.0, -0.5, 0.0];
    assert dd[1..] == [-0.5, 0.0] && dd[1..][1..] == [0.0];
  }

  lemma DuplicateDateSeries()
    ensures GroupLast(DuplicateDateFrame()) == [Observation(1, Some(50.0)), Observation(2, Some(100.0))]
  {
    var frame := DuplicateDateFrame();
    assert frame[..1][..0] == [];
    assert GroupLast(frame[..1]) == [Observation(1, Some(100.0))];
    assert frame[..2][..1] == frame[..1];
    assert GroupLast(frame[..2]) == [Observation(1, Some(50.0))];
    assert frame[..2] == frame[..|frame| - 1];
  }

  lemma DuplicateDateSeriesValues()
    ensures AllPresent(GroupLast(DuplicateDateFrame()))
    ensures ValuesOf(GroupLast(DuplicateDateFrame())) == [50.0, 100.0]
  {
    DuplicateDateSeries();
    var series := GroupLast(DuplicateDateFrame());
    var values := ValuesOf(series);
    assert values == seq(2, i requires 0 <= i < 2 => series[i].value.value);
  }

  lemma DuplicateDateChartDrawdown()
    ensures NonZeroPeaks([50.0, 100.0]) && SeqMin(Drawdown([50.0, 100.0])) == 0.0
  {
    var values := [50.0, 100.0];
    assert PeakAt(values, 1) == 100.0;
    assert Drawdown(values) == [0.0, 0.0];
    assert [0.0, 0.0][1..] == [0.0];
  }

  /**
   * Two rows on one date: the KPI drawdown, taken over raw rows, reports a
   * 50% fall that the per-date chart of the same page (last row per date)
   * does not show at all.
   */
  lemma DuplicateDateDeepensKpi()
    ensures var sorted := SortByDate(DuplicateDateFrame());
      var series := GroupLast(sorted);
      RowsPresent(sorted) && NonZeroPeaks(RowValues(sorted)) &&
      MaxDrawdown(RowValues(sorted)) == -0.5 &&
      AllPresent(series) && NonZeroPeaks(ValuesOf(series)) &&
      SeqMin(Drawdown(ValuesOf(series))) == 0.0
  {
    DuplicateDateSorted();
    DuplicateDateValues();
    DuplicateDateRawDrawdown();
    DuplicateDateSeriesValues();
    DuplicateDateChartDrawdown();
  }
}
