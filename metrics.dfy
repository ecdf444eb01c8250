/**
 * The performance arithmetic that Home.py and main.py share: total return, the
 * year fraction, CAGR, the running maximum (pandas cummax), the drawdown series in
 * both of its written forms, max drawdown, the CAGR-to-drawdown ratio and the
 * green/red colour rules. Values are exact reals in place of floats.
 */
module Metrics {

  /** Why a page could not produce its figures. */
  datatype Failure =
    | NoData        // iloc[0] on an empty series raises IndexError
    | ZeroDivision  // 1 / years with years == 0.0 raises ZeroDivisionError
    | MissingValue  // a NaN reached the arithmetic (not carried by this model)
    | ZeroPeak      // a running maximum of 0 would make the float result inf or NaN

  const DAYS_PER_YEAR: real := 365.25

  function Abs(x: real): real {
    if x < 0.0 then -x else x
  }

  function Max(a: real, b: real): real {
    if a >= b then a else b
  }

  /** last / first - 1: the return over the whole series. */
  function TotalReturn(first: real, last: real): (r: real)
    requires first != 0.0
    ensures r == 0.0 <==> last == first
    ensures first > 0.0 ==> (r > 0.0 <==> last > first) && (last >= 0.0 ==> r >= -1.0)
  {
    last / first - 1.0
  }

  /** The span in days as a fraction of a 365.25-day year. */
  function Years(days: int): (y: real)
    ensures y > 0.0 <==> days > 0
    ensures y == 0.0 <==> days == 0
  {
    days as real / DAYS_PER_YEAR
  }

  /**
   * ratio ** (1 / years) - 1. Dafny's reals have no fractional power, so the
   * power operator is a parameter; only the guard around it is modelled.
   */
  function Cagr(ratio: real, years: real, power: (real, real) -> real): real
    requires years != 0.0
  {
    power(ratio, 1.0 / years) - 1.0
  }

  /** x raised to a whole power. */
  function Pow(x: real, n: nat): real {
    if n == 0 then 1.0 else x * Pow(x, n - 1)
  }

  /** A positive base above 1 stays above 1 under a positive power, one below 1 stays below. */
  lemma {:induction false} PowOrder(x: real, n: nat)
    requires x > 0.0
    ensures Pow(x, n) > 0.0
    ensures n > 0 ==> (Pow(x, n) > 1.0 <==> x > 1.0) && (Pow(x, n) == 1.0 <==> x == 1.0)
  {
    if n > 0 {
      PowOrder(x, n - 1);
      var p := Pow(x, n - 1);
      assert x * p - x == x * (p - 1.0);
      assert x * p - p == (x - 1.0) * p;
      if x > 1.0 {
        assert p >= 1.0;
      } else if x < 1.0 {
        assert p <= 1.0;
      }
    }
  }

  /**
   * What CAGR means: when `power` yields the positive n-th root of the ratio,
   * compounding 1 + CAGR over the n years gives the ratio back, and CAGR is
   * positive exactly when the portfolio grew and 0 exactly when it did not move.
   */
  lemma CagrCompounds(ratio: real, n: nat, power: (real, real) -> real)
    requires n > 0 && ratio > 0.0
    requires power(ratio, 1.0 / n as real) > 0.0 && Pow(power(ratio, 1.0 / n as real), n) == ratio
    ensures Pow(1.0 + Cagr(ratio, n as real, power), n) == ratio
    ensures Cagr(ratio, n as real, power) > 0.0 <==> ratio > 1.0
    ensures Cagr(ratio, n as real, power) == 0.0 <==> ratio == 1.0
  {
    PowOrder(power(ratio, 1.0 / n as real), n);
  }

  /** Home.py's CAGR: computed only over a positive span, 0 otherwise. */
  function GuardedCagr(ratio: real, years: real, power: (real, real) -> real): (c: real)
    ensures years <= 0.0 ==> c == 0.0
    ensures years > 0.0 ==> c == Cagr(ratio, years, power)
  {
    if years > 0.0 then Cagr(ratio, years, power) else 0.0
  }

  // ---------------------------------------------------------------------------
  // cummax and drawdown
  // ---------------------------------------------------------------------------

  /** x is one of values[..i + 1]. */
  predicate SeenBy(values: seq<real>, i: int, x: real) {
    exists k :: 0 <= k <= i && k < |values| && values[k] == x
  }

  /** The largest of values[..i + 1]. */
  function PeakAt(values: seq<real>, i: nat): real
    requires i < |values|
  {
    if i == 0 then values[0] else Max(PeakAt(values, i - 1), values[i])
  }

  /** pandas cummax: entry i is the largest of values[..i + 1]. */
  function RunningMax(values: seq<real>): (rm: seq<real>)
    ensures |rm| == |values|
    ensures forall i :: 0 <= i < |values| ==> rm[i] == PeakAt(values, i)
  {
    seq(|values|, i requires 0 <= i < |values| => PeakAt(values, i))
  }

  /** The peak up to i dominates values[..i + 1] and is one of them. */
  lemma {:induction false} PeakAtIsPrefixMax(values: seq<real>, i: nat)
    requires i < |values|
    ensures forall j :: 0 <= j <= i ==> values[j] <= PeakAt(values, i)
    ensures SeenBy(values, i, PeakAt(values, i))
  {
    if i == 0 {
      assert PeakAt(values, 0) == values[0];
    } else {
      PeakAtIsPrefixMax(values, i - 1);
      var k :| 0 <= k <= i - 1 && values[k] == PeakAt(values, i - 1);
      if PeakAt(values, i) == values[k] {
        assert 0 <= k <= i && values[k] == PeakAt(values, i);
      } else {
        assert PeakAt(values, i) == values[i];
      }
    }
  }

  /** Peaks never decrease. */
  lemma {:induction false} PeakAtMonotone(values: seq<real>, i: nat, j: nat)
    requires i <= j < |values|
    ensures PeakAt(values, i) <= PeakAt(values, j)
    decreases j
  {
    if i < j {
      PeakAtMonotone(values, i, j - 1);
    }
  }

  /**
   * The running maximum never decreases, dominates every value seen so far, and
   * is always one of those values.
   */
  lemma RunningMaxIsPrefixMax(values: seq<real>)
    ensures forall i, j :: 0 <= i <= j < |values| ==> RunningMax(values)[i] <= RunningMax(values)[j]
    ensures forall i, j :: 0 <= j <= i < |values| ==> values[j] <= RunningMax(values)[i]
    ensures forall i :: 0 <= i < |values| ==> SeenBy(values, i, RunningMax(values)[i])
  {
    forall i, j | 0 <= i <= j < |values| ensures RunningMax(values)[i] <= RunningMax(values)[j] {
      PeakAtMonotone(values, i, j);
    }
    var rm := RunningMax(values);
    forall i, j | 0 <= j <= i < |values| ensures values[j] <= rm[i] {
      PeakAtIsPrefixMax(values, i);
    }
    forall i | 0 <= i < |values| ensures SeenBy(values, i, rm[i]) {
      PeakAtIsPrefixMax(values, i);
    }
  }

  /** The running maximum at i is values[i] exactly when no earlier value exceeds it. */
  lemma AtPeakIffDominates(values: seq<real>, i: int)
    requires 0 <= i < |values|
    ensures RunningMax(values)[i] == values[i] <==> forall j :: 0 <= j <= i ==> values[j] <= values[i]
  {
    RunningMaxIsPrefixMax(values);
  }

  /** cummax written as the loop pandas runs, proved to compute RunningMax. */
  method CumMax(values: seq<real>) returns (rm: seq<real>)
    ensures rm == RunningMax(values)
    ensures forall i, j :: 0 <= j <= i < |values| ==> values[j] <= rm[i]
    ensures forall i :: 0 <= i < |values| ==> SeenBy(values, i, rm[i])
  {
    rm := [];
    var i := 0;
    while i < |values|
      invariant 0 <= i <= |values|
      invariant |rm| == i
      invariant forall k :: 0 <= k < i ==> rm[k] == PeakAt(values, k)
    {
      rm := rm + [if i == 0 then values[0] else Max(rm[i - 1], values[i])];
      i := i + 1;
    }
    RunningMaxIsPrefixMax(values);
  }

  predicate NonZeroPeaks(values: seq<real>) {
    forall i :: 0 <= i < |values| ==> RunningMax(values)[i] != 0.0
  }

  /** A positive first value keeps every running maximum positive. */
  lemma PositiveStartPeaks(values: seq<real>)
    requires |values| > 0 && values[0] > 0.0
    ensures NonZeroPeaks(values)
    ensures forall i :: 0 <= i < |values| ==> RunningMax(values)[i] >= values[0]
  {
    RunningMaxIsPrefixMax(values);
  }

  /** (value - running_max) / running_max, entry by entry (Home.py and main.py KPIs). */
  function Drawdown(values: seq<real>): (dd: seq<real>)
    requires NonZeroPeaks(values)
    ensures |dd| == |values|
  {
    var rm := RunningMax(values);
    seq(|values|, i requires 0 <= i < |values| => (values[i] - rm[i]) / rm[i])
  }

  /** value / running_max - 1, entry by entry (main.py's drawdown chart). */
  function DrawdownByRatio(values: seq<real>): (dd: seq<real>)
    requires NonZeroPeaks(values)
    ensures |dd| == |values|
  {
    var rm := RunningMax(values);
    seq(|values|, i requires 0 <= i < |values| => values[i] / rm[i] - 1.0)
  }

  lemma GapIsRatioMinusOne(v: real, m: real)
    requires m != 0.0
    ensures (v - m) / m == v / m - 1.0
  {
    assert (v - m) / m == v / m - m / m;
  }

  /** The two written forms of the drawdown are the same series. */
  lemma DrawdownFormsAgree(values: seq<real>)
    requires NonZeroPeaks(values)
    ensures Drawdown(values) == DrawdownByRatio(values)
  {
    var rm := RunningMax(values);
    forall i | 0 <= i < |values| ensures Drawdown(values)[i] == DrawdownByRatio(values)[i] {
      GapIsRatioMinusOne(values[i], rm[i]);
    }
  }

  lemma RelativeGapBounds(v: real, m: real)
    requires m > 0.0 && v <= m
    ensures (v - m) / m <= 0.0
    ensures (v - m) / m == 0.0 <==> v == m
    ensures v >= 0.0 ==> (v - m) / m >= -1.0
  {
    var q := (v - m) / m;
    assert q * m == v - m;
    if v >= 0.0 {
      assert (q + 1.0) * m == v;
    }
  }

  /**
   * Starting from a positive value, no drawdown is positive; it is 0 exactly where
   * the value is a new peak or ties one; over non-negative values it is at least -1.
   */
  lemma DrawdownBounds(values: seq<real>)
    requires |values| > 0 && values[0] > 0.0
    ensures NonZeroPeaks(values)
    ensures forall i :: 0 <= i < |values| ==> Drawdown(values)[i] <= 0.0
    ensures forall i :: 0 <= i < |values| ==>
      (Drawdown(values)[i] == 0.0 <==> forall j :: 0 <= j <= i ==> values[j] <= values[i])
    ensures (forall i :: 0 <= i < |values| ==> values[i] >= 0.0) ==>
      forall i :: 0 <= i < |values| ==> Drawdown(values)[i] >= -1.0
  {
    PositiveStartPeaks(values);
    RunningMaxIsPrefixMax(values);
    var rm := RunningMax(values);
    forall i | 0 <= i < |values|
      ensures Drawdown(values)[i] <= 0.0
      ensures Drawdown(values)[i] == 0.0 <==> forall j :: 0 <= j <= i ==> values[j] <= values[i]
      ensures values[i] >= 0.0 ==> Drawdown(values)[i] >= -1.0
    {
      RelativeGapBounds(values[i], rm[i]);
      AtPeakIffDominates(values, i);
    }
  }

  // ---------------------------------------------------------------------------
  // max drawdown and the ratio
  // ---------------------------------------------------------------------------

  /** Series.min() of a non-empty series. */
  function SeqMin(s: seq<real>): (m: real)
    requires |s| > 0
    ensures m in s
    ensures forall i :: 0 <= i < |s| ==> m <= s[i]
  {
    if |s| == 1 then s[0]
    else
      var rest := SeqMin(s[1..]);
      assert forall i :: 1 <= i < |s| ==> s[i] == s[1..][i - 1];
      if s[0] <= rest then s[0] else rest
  }

  /** The most negative drawdown. */
  function MaxDrawdown(values: seq<real>): (m: real)
    requires |values| > 0 && NonZeroPeaks(values)
    ensures m in Drawdown(values)
    ensures forall i :: 0 <= i < |values| ==> m <= Drawdown(values)[i]
  {
    SeqMin(Drawdown(values))
  }

  predicate NonDecreasing(values: seq<real>) {
    forall i, j :: 0 <= i <= j < |values| ==> values[i] <= values[j]
  }

  /**
   * From a positive start, max drawdown lies in [-1, 0] over non-negative values
   * (the drawdown chart's domain), and it is 0 exactly when the series never falls.
   */
  lemma MaxDrawdownBounds(values: seq<real>)
    requires |values| > 0 && values[0] > 0.0
    ensures NonZeroPeaks(values)
    ensures MaxDrawdown(values) <= 0.0
    ensures (forall i :: 0 <= i < |values| ==> values[i] >= 0.0) ==> MaxDrawdown(values) >= -1.0
    ensures MaxDrawdown(values) == 0.0 <==> NonDecreasing(values)
  {
    DrawdownBounds(values);
    var dd := Drawdown(values);
    var m := MaxDrawdown(values);
    if m == 0.0 {
      forall i, j | 0 <= i <= j < |values| ensures values[i] <= values[j] {
        assert dd[j] >= m;
      }
    }
    if NonDecreasing(values) {
      forall i | 0 <= i < |values| ensures dd[i] == 0.0 {
        assert forall j :: 0 <= j <= i ==> values[j] <= values[i];
      }
    }
  }

  /** The CAGR-to-drawdown ratio, 0 when there was no drawdown. */
  function RiskRatio(cagr: real, maxDrawdown: real): (r: real)
    ensures maxDrawdown == 0.0 ==> r == 0.0
    ensures maxDrawdown != 0.0 ==> (r > 0.0 <==> cagr > 0.0) && (r < 0.0 <==> cagr < 0.0)
  {
    if maxDrawdown != 0.0 then cagr / Abs(maxDrawdown) else 0.0
  }

  // ---------------------------------------------------------------------------
  // colour rules
  // ---------------------------------------------------------------------------

  const GREEN_STYLE := "color: green; font-weight:600"
  const RED_STYLE := "color: red; font-weight:600"

  /** Colour of a monthly-return bar: green only for a strict gain. */
  function MonthlyColour(ret: real): (c: string)
    ensures c == "green" <==> ret > 0.0
    ensures c == "red" <==> ret <= 0.0
  {
    if ret > 0.0 then "green" else "red"
  }

  /** Style of a yearly-return cell: green for a gain or no change. */
  function YearlyStyle(ret: real): (c: string)
    ensures c == GREEN_STYLE <==> ret >= 0.0
    ensures c == RED_STYLE <==> ret < 0.0
  {
    if ret >= 0.0 then GREEN_STYLE else RED_STYLE
  }

  /** The two rules disagree on a return of exactly 0 and nowhere else. */
  lemma ColourRulesDifferOnlyAtZero(ret: real)
    ensures (MonthlyColour(ret) == "green") != (YearlyStyle(ret) == GREEN_STYLE) <==> ret == 0.0
  {
  }
}
