/**
 * The guards and period arithmetic of the historical revenue growth
 * (compound annual growth rate).  The revenue row is sorted by period
 * before its first and last values are read; the fractional power that
 * turns the revenue ratio into a rate is not computed here: the model
 * yields the ratio and the number of years, and `IsCagrPct` states what a
 * growth percentage must satisfy for them.
 */
module Growth {
  import opened Wrappers
  import opened RealMath

  datatype RevenuePoint = RevenuePoint(period: int, revenue: real)

  /** What the CAGR is computed from: end revenue / start revenue, and the years between them. */
  datatype CagrTerms = CagrTerms(ratio: real, years: nat)

  /**
   * Index of the point a stable ascending sort by period puts first: the
   * first point with the smallest period.
   */
  function EarliestIndex(points: seq<RevenuePoint>): (k: nat)
    requires points != []
    ensures k < |points|
    ensures forall j :: 0 <= j < |points| ==> points[k].period <= points[j].period
    ensures forall j :: 0 <= j < k ==> points[k].period < points[j].period
  {
    if |points| == 1 then 0
    else
      var k := EarliestIndex(points[..|points| - 1]);
      if points[|points| - 1].period < points[k].period then |points| - 1 else k
  }

  /**
   * Index of the point a stable ascending sort by period puts last: the
   * last point with the largest period.
   */
  function LatestIndex(points: seq<RevenuePoint>): (k: nat)
    requires points != []
    ensures k < |points|
    ensures forall j :: 0 <= j < |points| ==> points[j].period <= points[k].period
    ensures forall j :: k < j < |points| ==> points[j].period < points[k].period
  {
    if |points| == 1 then 0
    else
      var k := LatestIndex(points[..|points| - 1]);
      if points[|points| - 1].period >= points[k].period then |points| - 1 else k
  }

  /**
   * `get_historical_growth` up to the power: fewer than two points, or a
   * non-positive starting revenue, give no result (the source's NaN);
   * otherwise the ratio of the latest to the earliest revenue over
   * `len - 1` years.  The source's `years <= 0` test can never fire.
   */
  function HistoricalGrowthTerms(points: seq<RevenuePoint>): (r: Option<CagrTerms>)
    ensures r.Some? <==> |points| >= 2 && points[EarliestIndex(points)].revenue > 0.0
    ensures r.Some? ==> r.value.years == |points| - 1 && r.value.years >= 1
    ensures r.Some? ==>
      r.value.ratio * points[EarliestIndex(points)].revenue == points[LatestIndex(points)].revenue
  {
    if |points| < 2 then None
    else
      var start := points[EarliestIndex(points)].revenue;
      var end := points[LatestIndex(points)].revenue;
      var years := |points| - 1;
      if start <= 0.0 || years <= 0 then None
      else Some(CagrTerms(end / start, years))
  }

  /**
   * pct is the compound annual growth rate, in percent, for the given terms:
   * a rate of at least -100 % whose yearly factor, compounded over the
   * years, gives the ratio.  -100 % is the rate of a revenue that fell to 0.
   */
  ghost predicate IsCagrPct(pct: real, terms: CagrTerms): (b: bool)
    ensures b ==> pct >= -100.0
    ensures b && pct > -100.0 ==> terms.ratio > 0.0
  {
    var factor := 1.0 + pct / 100.0;
    if factor > 0.0 then
      PowPositive(factor, terms.years);
      Pow(factor, terms.years) == terms.ratio
    else
      factor == 0.0 && Pow(factor, terms.years) == terms.ratio
  }

  /** At most one rate satisfies the CAGR equation for a positive number of years. */
  lemma CagrPctUnique(p1: real, p2: real, terms: CagrTerms)
    requires terms.years >= 1
    requires IsCagrPct(p1, terms) && IsCagrPct(p2, terms)
    ensures p1 == p2
  {
    if p1 < p2 {
      FactorsBelow(1.0 + p1 / 100.0, 1.0 + p2 / 100.0, terms.years);
    } else if p2 < p1 {
      FactorsBelow(1.0 + p2 / 100.0, 1.0 + p1 / 100.0, terms.years);
    }
  }

  /** A smaller non-negative yearly factor compounds to a strictly smaller ratio. */
  lemma FactorsBelow(a: real, b: real, n: nat)
    requires 0.0 <= a < b && n >= 1
    ensures Pow(a, n) < Pow(b, n)
  {
    if a == 0.0 {
      assert Pow(a, n) == Pow(a, n - 1) * a;
      PowPositive(b, n);
    } else {
      PowStrictlyIncreasing(a, b, n);
    }
  }

  /** A revenue that fell to 0 from a positive start has a ratio of 0: a CAGR of -100 %. */
  lemma VanishedRevenueIsMinusHundred(points: seq<RevenuePoint>)
    requires HistoricalGrowthTerms(points).Some?
    requires points[LatestIndex(points)].revenue == 0.0
    ensures HistoricalGrowthTerms(points).value.ratio == 0.0
    ensures IsCagrPct(-100.0, HistoricalGrowthTerms(points).value)
  {
    var terms := HistoricalGrowthTerms(points).value;
    assert Pow(0.0, terms.years) == Pow(0.0, terms.years - 1) * 0.0;
  }

  /**
   * Revenues 100, 110, 121 over three consecutive periods, given in any
   * order, span two years and grow at 10 % a year; the first and last of
   * them alone span one year and grow 21 %.
   */
  lemma CagrExamples()
    ensures var three := [RevenuePoint(2023, 121.0), RevenuePoint(2021, 100.0), RevenuePoint(2022, 110.0)];
      HistoricalGrowthTerms(three) == Some(CagrTerms(1.21, 2)) && IsCagrPct(10.0, CagrTerms(1.21, 2))
    ensures var two := [RevenuePoint(2021, 100.0), RevenuePoint(2023, 121.0)];
      HistoricalGrowthTerms(two) == Some(CagrTerms(1.21, 1)) && IsCagrPct(21.0, CagrTerms(1.21, 1))
  {
    var three := [RevenuePoint(2023, 121.0), RevenuePoint(2021, 100.0), RevenuePoint(2022, 110.0)];
    assert EarliestIndex(three) == 1 && LatestIndex(three) == 0;
    assert Pow(1.1, 2) == 1.21;
    var two := [RevenuePoint(2021, 100.0), RevenuePoint(2023, 121.0)];
    assert EarliestIndex(two) == 0 && LatestIndex(two) == 1;
    assert Pow(1.21, 1) == 1.21;
  }
}
