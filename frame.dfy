/**
 * The portfolio CSV as a data frame: one row per (date, holding) line, after
 * `pd.to_datetime` and `pd.to_numeric(errors="coerce")` have run. Dates are day
 * numbers; a value that failed coercion is `None` (NaN in pandas).
 *
 * Two frame operations are modelled: `sort_values(by=date)` (SortByDate) and
 * `groupby(date)["total_portfolio_value"].last()` (GroupLast).
 */
module Frame {
  import opened Wrappers

  /** The columns of a row shown in the "Current Holding" table. */
  datatype Holding = Holding(
    ticker: string,
    sharesQty: real,
    boughtPrice: real,
    currentPrice: real,
    currentValue: real)

  /** One CSV row: its date, its total portfolio value and its holding status. */
  datatype Row = Row(date: int, value: Option<real>, status: string, holding: Holding)

  /** One entry of the per-date portfolio series that `groupby(...).last()` yields. */
  datatype Observation = Observation(date: int, value: Option<real>)

  predicate SortedByDate(rows: seq<Row>) {
    forall i, j :: 0 <= i < j < |rows| ==> rows[i].date <= rows[j].date
  }

  predicate StrictlyAscending(series: seq<Observation>) {
    forall i, j :: 0 <= i < j < |series| ==> series[i].date < series[j].date
  }

  function Dates(rows: seq<Row>): set<int> {
    set i | 0 <= i < |rows| :: rows[i].date
  }

  function SeriesDates(series: seq<Observation>): set<int> {
    set i | 0 <= i < |series| :: series[i].date
  }

  predicate AllPresent(series: seq<Observation>) {
    forall i :: 0 <= i < |series| ==> series[i].value.Some?
  }

  /** Every row of the frame has a positive total portfolio value. */
  predicate PositiveFrame(frame: seq<Row>) {
    frame != [] && forall i :: 0 <= i < |frame| ==> frame[i].value.Some? && frame[i].value.value > 0.0
  }

  predicate RowsPresent(rows: seq<Row>) {
    forall i :: 0 <= i < |rows| ==> rows[i].value.Some?
  }

  /** The value column of a series with no missing entry. */
  function ValuesOf(series: seq<Observation>): (values: seq<real>)
    requires AllPresent(series)
    ensures |values| == |series|
    ensures forall i :: 0 <= i < |series| ==> series[i].value == Some(values[i])
  {
    seq(|series|, i requires 0 <= i < |series| => series[i].value.value)
  }

  /** The value column of rows with no missing entry. */
  function RowValues(rows: seq<Row>): (values: seq<real>)
    requires RowsPresent(rows)
    ensures |values| == |rows|
    ensures forall i :: 0 <= i < |rows| ==> rows[i].value == Some(values[i])
  {
    seq(|rows|, i requires 0 <= i < |rows| => rows[i].value.value)
  }

  // ---------------------------------------------------------------------------
  // sort_values(by=date)
  // ---------------------------------------------------------------------------

  /** Places `r` in front of the first row that is not earlier than it. */
  function Insert(r: Row, rows: seq<Row>): (out: seq<Row>)
    ensures multiset(out) == multiset(rows) + multiset{r}
  {
    if rows == [] || r.date <= rows[0].date then
      [r] + rows
    else
      assert rows == [rows[0]] + rows[1..];
      [rows[0]] + Insert(r, rows[1..])
  }

  /** Inserting a row no earlier than `d` among rows no earlier than `d` keeps every row so. */
  lemma {:induction false} InsertAbove(r: Row, rows: seq<Row>, d: int)
    requires d <= r.date && forall k :: 0 <= k < |rows| ==> d <= rows[k].date
    ensures forall k :: 0 <= k < |Insert(r, rows)| ==> d <= Insert(r, rows)[k].date
  {
    var out := Insert(r, rows);
    forall k | 0 <= k < |out| ensures d <= out[k].date {
      assert out[k] in multiset(rows) + multiset{r};
    }
  }

  /** Inserting into a sorted frame keeps it sorted. */
  lemma {:induction false} InsertSorted(r: Row, rows: seq<Row>)
    requires SortedByDate(rows)
    ensures SortedByDate(Insert(r, rows))
  {
    if rows != [] && r.date > rows[0].date {
      var tail := Insert(r, rows[1..]);
      InsertSorted(r, rows[1..]);
      assert rows == [rows[0]] + rows[1..];
      InsertAbove(r, rows[1..], rows[0].date);
      ConsSorted(rows[0], tail);
      assert Insert(r, rows) == [rows[0]] + tail;
    }
  }

  /** A row no later than every row of a sorted frame can go in front of it. */
  lemma ConsSorted(first: Row, rows: seq<Row>)
    requires SortedByDate(rows) && forall k :: 0 <= k < |rows| ==> first.date <= rows[k].date
    ensures SortedByDate([first] + rows)
  {
    var out := [first] + rows;
    forall i, j | 0 <= i < j < |out| ensures out[i].date <= out[j].date {
      assert out[j] == rows[j - 1];
      if i > 0 {
        assert out[i] == rows[i - 1];
      }
    }
  }

  /**
   * The frame sorted by date. Rows that share a date keep their file order;
   * pandas' default sort promises no order for them, so this fixes one.
   */
  function SortByDate(rows: seq<Row>): (out: seq<Row>)
    ensures SortedByDate(out)
    ensures multiset(out) == multiset(rows)
  {
    if rows == [] then []
    else
      assert rows == [rows[0]] + rows[1..];
      InsertSorted(rows[0], SortByDate(rows[1..]));
      Insert(rows[0], SortByDate(rows[1..]))
  }

  /** Sorting a frame that is already sorted leaves it as it is (main.py re-sorts its sorted frame at lines 108 and 116). */
  lemma {:induction false} SortSortedIsIdentity(rows: seq<Row>)
    requires SortedByDate(rows)
    ensures SortByDate(rows) == rows
  {
    if rows != [] {
      SortSortedIsIdentity(rows[1..]);
    }
  }

  /** Sorting keeps every row, so it keeps a frame positive. */
  lemma SortKeepsPositive(rows: seq<Row>)
    requires PositiveFrame(rows)
    ensures PositiveFrame(SortByDate(rows))
  {
    var sorted := SortByDate(rows);
    assert rows[0] in multiset(sorted);
    forall k | 0 <= k < |sorted| ensures sorted[k].value.Some? && sorted[k].value.value > 0.0 {
      assert sorted[k] in multiset(rows);
    }
  }

  /** Sorting keeps the set of dates. */
  lemma SortKeepsDates(rows: seq<Row>)
    ensures Dates(SortByDate(rows)) == Dates(rows)
  {
    var sorted := SortByDate(rows);
    forall d | d in Dates(rows) ensures d in Dates(sorted) {
      var i :| 0 <= i < |rows| && rows[i].date == d;
      assert rows[i] in multiset(sorted);
      var j :| 0 <= j < |sorted| && sorted[j] == rows[i];
    }
    forall d | d in Dates(sorted) ensures d in Dates(rows) {
      var j :| 0 <= j < |sorted| && sorted[j].date == d;
      assert sorted[j] in multiset(rows);
      var i :| 0 <= i < |rows| && rows[i] == sorted[j];
    }
  }

  // ---------------------------------------------------------------------------
  // groupby(date)["total_portfolio_value"].last()
  // ---------------------------------------------------------------------------

  /**
   * The last non-missing value among the rows dated `d`, or None when every
   * such row is missing: the value pandas' GroupBy.last gives the group `d`.
   */
  function LastPresent(rows: seq<Row>, d: int): Option<real> {
    if rows == [] then None
    else if rows[|rows| - 1].date == d && rows[|rows| - 1].value.Some? then rows[|rows| - 1].value
    else LastPresent(rows[..|rows| - 1], d)
  }

  /**
   * LastPresent is None exactly when every row dated `d` is missing; otherwise it is
   * the value of a row dated `d` after which no row dated `d` has a value.
   */
  lemma {:induction false} LastPresentSpec(rows: seq<Row>, d: int)
    ensures LastPresent(rows, d).None? <==>
      forall i :: 0 <= i < |rows| && rows[i].date == d ==> rows[i].value.None?
    ensures LastPresent(rows, d).Some? ==> exists i :: (0 <= i < |rows| && rows[i].date == d &&
      rows[i].value == LastPresent(rows, d) &&
      forall j :: i < j < |rows| && rows[j].date == d ==> rows[j].value.None?)
  {
    if rows != [] {
      var n := |rows|;
      var p := rows[..n - 1];
      assert forall i :: 0 <= i < n - 1 ==> p[i] == rows[i];
      if rows[n - 1].date == d && rows[n - 1].value.Some? {
        assert rows[n - 1].value == LastPresent(rows, d);
      } else {
        assert LastPresent(rows, d) == LastPresent(p, d);
        LastPresentSpec(p, d);
        if LastPresent(p, d).Some? {
          var i :| 0 <= i < |p| && p[i].date == d && p[i].value == LastPresent(p, d) &&
            forall j :: i < j < |p| && p[j].date == d ==> p[j].value.None?;
          assert rows[i].date == d && rows[i].value == LastPresent(rows, d);
        }
      }
    }
  }

  /**
   * Reads one more row into the series: a row for the series' last date replaces
   * that date's value unless the row's own value is missing; a row for any other
   * date starts a new observation.
   */
  function Absorb(series: seq<Observation>, r: Row): seq<Observation> {
    if series != [] && series[|series| - 1].date == r.date then
      var kept := if r.value.Some? then r.value else series[|series| - 1].value;
      series[..|series| - 1] + [Observation(r.date, kept)]
    else
      series + [Observation(r.date, r.value)]
  }

  /** One observation per date of a frame sorted by date, reading rows in order. */
  function GroupLast(rows: seq<Row>): seq<Observation> {
    if rows == [] then [] else Absorb(GroupLast(rows[..|rows| - 1]), rows[|rows| - 1])
  }

  /** Absorbing a row keeps every earlier observation but the last, and ends with the row's date. */
  lemma AbsorbShape(series: seq<Observation>, r: Row)
    ensures var out := Absorb(series, r);
      var merged := series != [] && series[|series| - 1].date == r.date;
      |out| == (if merged then |series| else |series| + 1) &&
      out[|out| - 1].date == r.date &&
      out[|out| - 1].value == (if merged && r.value.None? then series[|series| - 1].value else r.value) &&
      forall i :: 0 <= i < |out| - 1 ==> out[i] == series[i]
  {
  }

  /** Absorbing a row adds its date to the series' dates. */
  lemma AbsorbDates(series: seq<Observation>, r: Row)
    ensures SeriesDates(Absorb(series, r)) == SeriesDates(series) + {r.date}
  {
    var out := Absorb(series, r);
    AbsorbShape(series, r);
    if series != [] && series[|series| - 1].date == r.date {
      var init := series[..|series| - 1];
      assert series == init + [series[|series| - 1]];
      assert out == init + [out[|out| - 1]];
      SeriesDatesOfAppend(init, series[|series| - 1]);
      SeriesDatesOfAppend(init, out[|out| - 1]);
    } else {
      assert out == series + [out[|out| - 1]];
      SeriesDatesOfAppend(series, out[|out| - 1]);
    }
  }

  lemma DatesOfPrefix(rows: seq<Row>)
    requires rows != []
    ensures Dates(rows) == Dates(rows[..|rows| - 1]) + {rows[|rows| - 1].date}
  {
    var p := rows[..|rows| - 1];
    assert forall i :: 0 <= i < |p| ==> p[i] == rows[i];
    forall d | d in Dates(rows) ensures d in Dates(p) + {rows[|rows| - 1].date} {
      var i :| 0 <= i < |rows| && rows[i].date == d;
      if i < |p| { assert p[i].date == d; }
    }
  }

  lemma SeriesDatesOfAppend(series: seq<Observation>, o: Observation)
    ensures SeriesDates(series + [o]) == SeriesDates(series) + {o.date}
  {
    var s := series + [o];
    assert forall i :: 0 <= i < |series| ==> s[i] == series[i];
    assert s[|series|] == o;
    forall d | d in SeriesDates(s) ensures d in SeriesDates(series) + {o.date} {
      var i :| 0 <= i < |s| && s[i].date == d;
      if i < |series| { assert series[i].date == d; }
    }
  }

  /** A row dated later than `d` does not change the last value seen for `d`. */
  lemma LastPresentSkipsOtherDate(rows: seq<Row>, d: int)
    requires rows != [] && rows[|rows| - 1].date != d
    ensures LastPresent(rows, d) == LastPresent(rows[..|rows| - 1], d)
  {
  }

  /** Absorbing a row dated no earlier than the series' last date keeps it strictly ascending. */
  lemma AbsorbAscending(series: seq<Observation>, r: Row)
    requires StrictlyAscending(series)
    requires series != [] ==> series[|series| - 1].date <= r.date
    ensures StrictlyAscending(Absorb(series, r))
  {
    var out := Absorb(series, r);
    AbsorbShape(series, r);
    var m := |series|;
    forall i, j | 0 <= i < j < |out| ensures out[i].date < out[j].date {
      if j < |out| - 1 {
        assert out[i] == series[i] && out[j] == series[j];
      } else if i < m - 1 {
        assert out[i] == series[i] && series[i].date < series[m - 1].date;
      } else {
        assert i == m - 1 && out[i] == series[m - 1];
      }
    }
  }

  /** The series is strictly ascending and ends at the frame's last date. */
  lemma {:induction false} GroupLastAscending(rows: seq<Row>)
    requires SortedByDate(rows)
    ensures StrictlyAscending(GroupLast(rows))
    ensures rows != [] ==> (GroupLast(rows) != [] &&
      GroupLast(rows)[|GroupLast(rows)| - 1].date == rows[|rows| - 1].date)
  {
    if rows != [] {
      var n := |rows|;
      var p := rows[..n - 1];
      var r := rows[n - 1];
      assert SortedByDate(p) by {
        assert forall i :: 0 <= i < |p| ==> p[i] == rows[i];
      }
      GroupLastAscending(p);
      var prev := GroupLast(p);
      if prev != [] {
        assert p[|p| - 1] == rows[n - 2];
      }
      AbsorbAscending(prev, r);
      AbsorbShape(prev, r);
    }
  }

  /** The series holds exactly the frame's dates. */
  lemma {:induction false} GroupLastDates(rows: seq<Row>)
    ensures SeriesDates(GroupLast(rows)) == Dates(rows)
  {
    if rows != [] {
      var n := |rows|;
      var p := rows[..n - 1];
      GroupLastDates(p);
      DatesOfPrefix(rows);
      AbsorbDates(GroupLast(p), rows[n - 1]);
    }
  }

  /** In a sorted frame, a date past the last series date has no rows before it. */
  lemma NoRowsForNewDate(rows: seq<Row>, d: int)
    requires SortedByDate(rows) && rows != [] && rows[|rows| - 1].date < d
    ensures LastPresent(rows, d).None?
  {
    LastPresentSpec(rows, d);
  }

  /**
   * One step of GroupLastValues: when `prev` holds the last non-missing value of
   * each date of `p`, reading row `r` keeps that so for `p + [r]`.
   */
  lemma {:induction false} AbsorbValueAt(p: seq<Row>, r: Row, prev: seq<Observation>, i: nat)
    requires SortedByDate(p + [r])
    requires StrictlyAscending(prev)
    requires p == [] ==> prev == []
    requires p != [] ==> prev != [] && prev[|prev| - 1].date == p[|p| - 1].date
    requires forall k :: 0 <= k < |prev| ==> prev[k].value == LastPresent(p, prev[k].date)
    requires i < |Absorb(prev, r)|
    ensures Absorb(prev, r)[i].value == LastPresent(p + [r], Absorb(prev, r)[i].date)
  {
    var rows := p + [r];
    assert rows[..|rows| - 1] == p;
    var out := Absorb(prev, r);
    AbsorbShape(prev, r);
    var m := |prev|;
    if p != [] {
      assert p[|p| - 1] == rows[|p| - 1] && rows[|p|] == r;
      assert prev[m - 1].date <= r.date;
    }
    if i < |out| - 1 {
      assert out[i] == prev[i];
      assert prev[i].date < r.date by {
        if i < m - 1 {
          assert prev[i].date < prev[m - 1].date;
        }
      }
      LastPresentSkipsOtherDate(rows, out[i].date);
    } else if r.value.None? {
      assert LastPresent(rows, r.date) == LastPresent(p, r.date);
      if !(prev != [] && prev[m - 1].date == r.date) && p != [] {
        assert SortedByDate(p) by {
          assert forall k :: 0 <= k < |p| ==> p[k] == rows[k];
        }
        NoRowsForNewDate(p, r.date);
      }
    }
  }

  /** Each date carries the last non-missing value among its rows. */
  lemma {:induction false} GroupLastValues(rows: seq<Row>)
    requires SortedByDate(rows)
    ensures forall i :: 0 <= i < |GroupLast(rows)| ==>
      GroupLast(rows)[i].value == LastPresent(rows, GroupLast(rows)[i].date)
  {
    if rows != [] {
      var n := |rows|;
      var p := rows[..n - 1];
      var r := rows[n - 1];
      assert rows == p + [r];
      assert SortedByDate(p) by {
        assert forall i :: 0 <= i < |p| ==> p[i] == rows[i];
      }
      GroupLastValues(p);
      GroupLastAscending(p);
      forall i | 0 <= i < |GroupLast(rows)|
        ensures GroupLast(rows)[i].value == LastPresent(rows, GroupLast(rows)[i].date)
      {
        AbsorbValueAt(p, r, GroupLast(p), i);
      }
    }
  }

  /**
   * groupby(date).last() on the sorted frame: exactly the frame's dates, each once and
   * in strictly ascending order, each with the last non-missing value among its rows.
   */
  lemma GroupLastSpec(rows: seq<Row>)
    requires SortedByDate(rows)
    ensures StrictlyAscending(GroupLast(rows))
    ensures SeriesDates(GroupLast(rows)) == Dates(rows)
    ensures |GroupLast(rows)| == |Dates(rows)|
    ensures forall i :: 0 <= i < |GroupLast(rows)| ==>
      GroupLast(rows)[i].value == LastPresent(rows, GroupLast(rows)[i].date)
  {
    GroupLastAscending(rows);
    GroupLastDates(rows);
    GroupLastValues(rows);
    AscendingCount(GroupLast(rows));
  }

  /** A strictly ascending series has as many entries as distinct dates. */
  lemma {:induction false} AscendingCount(series: seq<Observation>)
    requires StrictlyAscending(series)
    ensures |SeriesDates(series)| == |series|
  {
    if series != [] {
      var n := |series|;
      var init := series[..n - 1];
      assert series == init + [series[n - 1]];
      AscendingCount(init);
      SeriesDatesOfAppend(init, series[n - 1]);
      assert series[n - 1].date !in SeriesDates(init);
    }
  }

  /**
   * When no row of the sorted frame is missing its value, neither is any date of the
   * series, and each date's value is the value of one of the frame's rows.
   */
  lemma GroupLastPresent(rows: seq<Row>)
    requires SortedByDate(rows) && RowsPresent(rows)
    ensures AllPresent(GroupLast(rows))
    ensures forall i :: 0 <= i < |GroupLast(rows)| ==>
      exists k :: 0 <= k < |rows| && rows[k].value == GroupLast(rows)[i].value
  {
    var series := GroupLast(rows);
    GroupLastSpec(rows);
    forall i | 0 <= i < |series|
      ensures series[i].value.Some?
      ensures exists k :: 0 <= k < |rows| && rows[k].value == series[i].value
    {
      assert series[i].date in SeriesDates(series);
      LastPresentSpec(rows, series[i].date);
    }
  }

  /** A sorted frame spans a single date exactly when its first and last rows share it. */
  lemma SingleDateIffEndsMeet(rows: seq<Row>)
    requires rows != [] && SortedByDate(rows)
    ensures rows[0].date == rows[|rows| - 1].date <==> |Dates(rows)| == 1
  {
    var first, last := rows[0].date, rows[|rows| - 1].date;
    if first == last {
      assert Dates(rows) == {first};
    } else {
      assert rows[0].date in Dates(rows) && rows[|rows| - 1].date in Dates(rows);
      assert {first, last} <= Dates(rows);
      assert Dates(rows) == {first, last} + (Dates(rows) - {first, last});
    }
  }
}
