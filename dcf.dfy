/**
 * The reverse discounted-cash-flow solver of the finance engine: a ten-year
 * projection of free cash flow plus a Gordon-growth terminal value, and the
 * bisection that back-solves the growth rate the market price implies.
 *
 * Rates are fractions (0.10 is 10 %); the implied growth is reported as a
 * percentage.  A missing or NaN input is `None`.
 */
module Dcf {
  import opened Wrappers
  import opened RealMath

  const ProjectionYears: nat := 10
  const MaxIterations: nat := 100
  /** The bracket the bisection starts from: -50 % to +100 % growth. */
  const SearchLow: real := -0.5
  const SearchHigh: real := 1.0
  /** Relative tolerance on the valuation gap: 0.1 % of the target value. */
  const Tolerance: real := 0.001

  /** Free cash flow `year` years ahead when it compounds at rate `g`. */
  function Flow(fcf: real, g: real, year: nat): real
  {
    fcf * Pow(1.0 + g, year)
  }

  /** Σ_{i=1..n} Flow(fcf, g, i) / (1 + r)^i. */
  function DiscountedFlows(fcf: real, g: real, r: real, n: nat): real
    requires 1.0 + r != 0.0
  {
    if n == 0 then 0.0
    else
      PowNonZero(1.0 + r, n);
      DiscountedFlows(fcf, g, r, n - 1) + Flow(fcf, g, n) / Pow(1.0 + r, n)
  }

  /** Gordon-growth value, at year ten, of the flows after year ten. */
  function TerminalValue(lastFlow: real, r: real, tg: real): real
    requires r != tg
  {
    lastFlow * (1.0 + tg) / (r - tg)
  }

  /** The terminal value discounted back ten years. */
  function DiscountedTerminalValue(fcf: real, g: real, r: real, tg: real): real
    requires r != tg && 1.0 + r != 0.0
  {
    PowNonZero(1.0 + r, ProjectionYears);
    TerminalValue(Flow(fcf, g, ProjectionYears), r, tg) / Pow(1.0 + r, ProjectionYears)
  }

  /**
   * The closed form of the valuation:
   *   Σ_{i=1..10} fcf·(1+g)^i/(1+r)^i + fcf·(1+g)^10·(1+tg)/(r−tg)/(1+r)^10.
   */
  function DcfValue(fcf: real, g: real, r: real, tg: real): real
    requires r != tg && 1.0 + r != 0.0
  {
    DiscountedFlows(fcf, g, r, ProjectionYears) + DiscountedTerminalValue(fcf, g, r, tg)
  }

  /**
   * The step-by-step valuation loop: compound the cash flow once a year,
   * discount it and accumulate, then add the discounted terminal value.
   * Division by zero (r = tg or r = -1) raises in the source, hence the requires.
   */
  method CalculateDcfValue(fcf: real, g: real, r: real, tg: real) returns (total: real)
    requires r != tg && 1.0 + r != 0.0
    ensures total == DcfValue(fcf, g, r, tg)
  {
    total := 0.0;
    var current := fcf;
    for i := 1 to ProjectionYears + 1
      invariant current == Flow(fcf, g, i - 1)
      invariant total == DiscountedFlows(fcf, g, r, i - 1)
    {
      current := current * (1.0 + g);
      PowNonZero(1.0 + r, i);
      total := total + current / Pow(1.0 + r, i);
    }
    var terminal := TerminalValue(current, r, tg);
    PowNonZero(1.0 + r, ProjectionYears);
    total := total + terminal / Pow(1.0 + r, ProjectionYears);
  }

  /** Each discounted flow grows with g, so their sum does (strictly once there is a flow). */
  lemma {:induction false} DiscountedFlowsIncreasing(fcf: real, g1: real, g2: real, r: real, n: nat)
    requires fcf > 0.0 && -1.0 < g1 < g2 && 1.0 + r > 0.0
    ensures n == 0 ==> DiscountedFlows(fcf, g1, r, n) == DiscountedFlows(fcf, g2, r, n)
    ensures n >= 1 ==> DiscountedFlows(fcf, g1, r, n) < DiscountedFlows(fcf, g2, r, n)
  {
    if n >= 1 {
      DiscountedFlowsIncreasing(fcf, g1, g2, r, n - 1);
      FlowIncreasing(fcf, g1, g2, n);
      PowPositive(1.0 + r, n);
      DivStrict(Flow(fcf, g1, n), Flow(fcf, g2, n), Pow(1.0 + r, n));
    }
  }

  /** A positive cash flow compounded at a higher rate (above -100 %) is strictly larger in every year from 1 on. */
  lemma FlowIncreasing(fcf: real, g1: real, g2: real, year: nat)
    requires fcf > 0.0 && -1.0 < g1 < g2 && year >= 1
    ensures 0.0 < Flow(fcf, g1, year) < Flow(fcf, g2, year)
  {
    PowStrictlyIncreasing(1.0 + g1, 1.0 + g2, year);
    MulStrict(Pow(1.0 + g1, year), Pow(1.0 + g2, year), fcf);
    MulPositive(fcf, Pow(1.0 + g1, year));
  }

  /**
   * Year ten's discounted flow and the discounted terminal value together are
   * the year-ten flow times one coefficient, (1 + r) / (r - tg) / (1 + r)^10.
   */
  lemma YearTenCoefficient(f: real, r: real, tg: real, d: real)
    requires tg < r && d > 0.0
    ensures f / d + f * (1.0 + tg) / (r - tg) / d == f * ((1.0 + r) / (r - tg) / d)
  {
  }

  /**
   * The valuation is the first nine discounted flows plus the year-ten flow
   * times the coefficient that carries both its own discounting and the
   * terminal value.
   */
  lemma YearTenSplit(fcf: real, g: real, r: real, tg: real, d: real)
    requires tg < r && 1.0 + r > 0.0 && d == Pow(1.0 + r, ProjectionYears) && d > 0.0
    ensures var f := Flow(fcf, g, ProjectionYears);
      DcfValue(fcf, g, r, tg) == DiscountedFlows(fcf, g, r, ProjectionYears - 1) + f * ((1.0 + r) / (r - tg) / d)
  {
    var f := Flow(fcf, g, ProjectionYears);
    YearTenCoefficient(f, r, tg, d);
    assert DiscountedFlows(fcf, g, r, ProjectionYears) == DiscountedFlows(fcf, g, r, ProjectionYears - 1) + f / d;
    assert TerminalValue(f, r, tg) == f * (1.0 + tg) / (r - tg);
    assert DiscountedTerminalValue(fcf, g, r, tg) == TerminalValue(f, r, tg) / d;
  }

  /**
   * The valuation is strictly increasing in the growth rate (above -100 %)
   * whenever the cash flow is positive, the discount rate exceeds the
   * terminal growth rate and exceeds -100 %.  The bisection's bracket update
   * relies on this.
   */
  lemma DcfValueIncreasing(fcf: real, g1: real, g2: real, r: real, tg: real)
    requires fcf > 0.0 && tg < r && 1.0 + r > 0.0 && -1.0 < g1 < g2
    ensures DcfValue(fcf, g1, r, tg) < DcfValue(fcf, g2, r, tg)
  {
    DiscountedFlowsIncreasing(fcf, g1, g2, r, ProjectionYears - 1);
    FlowIncreasing(fcf, g1, g2, ProjectionYears);
    PowPositive(1.0 + r, ProjectionYears);
    var d := Pow(1.0 + r, ProjectionYears);
    var c := (1.0 + r) / (r - tg) / d;
    DivStrict(0.0, 1.0 + r, r - tg);
    DivStrict(0.0, (1.0 + r) / (r - tg), d);
    var f1, f2 := Flow(fcf, g1, ProjectionYears), Flow(fcf, g2, ProjectionYears);
    MulStrict(f1, f2, c);
    YearTenSplit(fcf, g1, r, tg, d);
    YearTenSplit(fcf, g2, r, tg, d);
  }

  /** `abs(dcf_val - target_value) < target_value * tolerance`. */
  predicate WithinTolerance(value: real, target: real)
  {
    Abs(value - target) < target * Tolerance
  }

  /** What the source's guard accepts: a truthy, non-NaN value. */
  predicate Present(x: Option<real>): (p: bool)
    ensures !p <==> x == None || x == Some(0.0)
  {
    x.Some? && x.value != 0.0
  }

  /**
   * The guard in front of the search: price, free cash flow and shares are
   * all present and non-zero, and the free cash flow is positive.  A negative
   * price or share count passes.
   */
  predicate Usable(price: Option<real>, fcf: Option<real>, shares: Option<real>): (u: bool)
    ensures u ==> price.Some? && fcf.Some? && shares.Some?
    ensures u ==> fcf.value > 0.0 && price.value * shares.value != 0.0
    ensures !u <==> !Present(price) || !Present(shares) || fcf.None? || fcf.value <= 0.0
  {
    Present(price) && Present(fcf) && Present(shares) && fcf.value > 0.0
  }

  /** The valuation divides by r - tg and by (1 + r)^i. */
  predicate DividesByZero(r: real, tg: real)
  {
    r == tg || 1.0 + r == 0.0
  }

  /**
   * Assumptions under which the valuation is defined and increasing in g:
   * the discount rate exceeds the terminal growth rate and -100 %.
   */
  predicate SoundAssumptions(r: real, tg: real)
  {
    tg < r && 1.0 + r > 0.0
  }

  datatype ImpliedGrowth =
    | MissingInputs        // the source returns NaN
    | ZeroDivision         // the source raises ZeroDivisionError from the valuation
    | InvalidAssumptions   // rejected up front by the checked solver
    | Solved(growthPct: real, iterations: nat, converged: bool)

  /** Width of the bracket after k halvings: 1.5 / 2^k. */
  function BracketWidth(k: nat): (w: real)
    ensures w > 0.0
  {
    PowPositive(2.0, k);
    (SearchHigh - SearchLow) / Pow(2.0, k)
  }

  lemma BracketWidthHalves(k: nat)
    requires k >= 1
    ensures BracketWidth(k) == BracketWidth(k - 1) / 2.0
  {
    PowPositive(2.0, k - 1);
    assert Pow(2.0, k) == Pow(2.0, k - 1) * 2.0;
  }

  /** Every exact root of the valuation in the initial bracket lies in [low, high]. */
  ghost predicate Brackets(fcf: real, r: real, tg: real, target: real, low: real, high: real)
    requires r != tg && 1.0 + r != 0.0
  {
    forall root :: SearchLow <= root <= SearchHigh && DcfValue(fcf, root, r, tg) == target ==> low <= root <= high
  }

  /** Every exact root in the initial bracket lies within 1.5 / 2^k of g. */
  ghost predicate RootsNear(fcf: real, r: real, tg: real, target: real, g: real, k: nat)
    requires r != tg && 1.0 + r != 0.0
  {
    forall root :: SearchLow <= root <= SearchHigh && DcfValue(fcf, root, r, tg) == target ==>
      Abs(root - g) <= BracketWidth(k)
  }

  /**
   * What a finished bisection promises: the percentage lies strictly inside
   * the initial bracket, at most 100 midpoints were tried, the result is
   * flagged converged exactly when its valuation is within tolerance, an
   * unconverged result comes only after all 100 iterations, and when the
   * valuation is increasing every exact root in the bracket lies within
   * 1.5 / 2^iterations of the returned rate.
   */
  ghost predicate IsBisectionResult(fcf: real, r: real, tg: real, target: real, res: ImpliedGrowth)
    requires r != tg && 1.0 + r != 0.0
  {
    && res.Solved?
    && 1 <= res.iterations <= MaxIterations
    && SearchLow * 100.0 < res.growthPct < SearchHigh * 100.0
    && (res.converged <==> WithinTolerance(DcfValue(fcf, res.growthPct / 100.0, r, tg), target))
    && (!res.converged ==> res.iterations == MaxIterations)
    && (fcf > 0.0 && SoundAssumptions(r, tg) ==> RootsNear(fcf, r, tg, target, res.growthPct / 100.0, res.iterations))
  }

  /**
   * The bracket update keeps the roots: a valuation above target at mid puts
   * every root at or below mid, one at or below target puts it at or above.
   */
  lemma BracketUpdate(fcf: real, r: real, tg: real, target: real, low: real, high: real, mid: real)
    requires fcf > 0.0 && SoundAssumptions(r, tg)
    requires SearchLow <= low < mid < high <= SearchHigh
    requires Brackets(fcf, r, tg, target, low, high)
    ensures DcfValue(fcf, mid, r, tg) > target ==> Brackets(fcf, r, tg, target, low, mid)
    ensures DcfValue(fcf, mid, r, tg) <= target ==> Brackets(fcf, r, tg, target, mid, high)
  {
    var value := DcfValue(fcf, mid, r, tg);
    forall root | SearchLow <= root <= SearchHigh && DcfValue(fcf, root, r, tg) == target
      ensures value > target ==> root <= mid
      ensures value <= target ==> mid <= root
    {
      if value > target && mid < root {
        DcfValueIncreasing(fcf, mid, root, r, tg);
      } else if value <= target && root < mid {
        DcfValueIncreasing(fcf, root, mid, r, tg);
      }
    }
  }

  /**
   * The bisection loop: up to 100 midpoints of [-0.5, 1.0]; stop at the
   * first one whose valuation is within tolerance, otherwise move the bound
   * on the side the valuation says the root is, and after the last
   * iteration return the last midpoint without checking it again.
   */
  method Bisect(fcf: real, r: real, tg: real, target: real) returns (res: ImpliedGrowth)
    requires r != tg && 1.0 + r != 0.0
    ensures IsBisectionResult(fcf, r, tg, target, res)
  {
    ghost var increasing := fcf > 0.0 && SoundAssumptions(r, tg);
    var low, high := SearchLow, SearchHigh;
    var mid := 0.0;
    var k: nat := 0;
    while k < MaxIterations
      invariant k <= MaxIterations
      invariant SearchLow <= low < high <= SearchHigh
      invariant high - low == BracketWidth(k)
      invariant k > 0 ==> SearchLow < mid < SearchHigh
      invariant k > 0 ==> (mid == low || mid == high) && !WithinTolerance(DcfValue(fcf, mid, r, tg), target)
      invariant increasing ==> Brackets(fcf, r, tg, target, low, high)
    {
      mid := (low + high) / 2.0;
      k := k + 1;
      BracketWidthHalves(k);
      var value := CalculateDcfValue(fcf, mid, r, tg);
      if WithinTolerance(value, target) {
        assert mid * 100.0 / 100.0 == mid;
        return Solved(mid * 100.0, k, true);
      }
      if increasing {
        BracketUpdate(fcf, r, tg, target, low, high, mid);
      }
      if value > target {
        high := mid;
      } else {
        low := mid;
      }
    }
    assert mid * 100.0 / 100.0 == mid;
    return Solved(mid * 100.0, k, false);
  }

  /**
   * `calculate_reverse_dcf` as written: the guard returns NaN, the search
   * runs with no check on the assumptions, so r = tg (or r = -1) raises in
   * the first valuation.
   */
  method CalculateReverseDcf(price: Option<real>, fcf: Option<real>, r: real, tg: real, shares: Option<real>)
    returns (res: ImpliedGrowth)
    ensures res.MissingInputs? <==> !Usable(price, fcf, shares)
    ensures res.ZeroDivision? <==> Usable(price, fcf, shares) && DividesByZero(r, tg)
    ensures !res.InvalidAssumptions?
    ensures res.Solved? ==>
      && Usable(price, fcf, shares) && !DividesByZero(r, tg)
      && IsBisectionResult(fcf.value, r, tg, price.value * shares.value, res)
  {
    if !Usable(price, fcf, shares) {
      return MissingInputs;
    }
    var target := price.value * shares.value;
    if DividesByZero(r, tg) {
      return ZeroDivision;
    }
    res := Bisect(fcf.value, r, tg, target);
  }

  /**
   * The solver with an assumption check added: after the same input guard, a
   * discount rate not above the terminal growth rate, or not above -100 %, is
   * rejected before the search, so no valuation divides by zero and every
   * accepted search brackets the root.
   */
  method CheckedReverseDcf(price: Option<real>, fcf: Option<real>, r: real, tg: real, shares: Option<real>)
    returns (res: ImpliedGrowth)
    ensures res.MissingInputs? <==> !Usable(price, fcf, shares)
    ensures res.InvalidAssumptions? <==> Usable(price, fcf, shares) && !SoundAssumptions(r, tg)
    ensures !res.ZeroDivision?
    ensures res.Solved? ==>
      && Usable(price, fcf, shares) && SoundAssumptions(r, tg)
      && IsBisectionResult(fcf.value, r, tg, price.value * shares.value, res)
      && RootsNear(fcf.value, r, tg, price.value * shares.value, res.growthPct / 100.0, res.iterations)
  {
    if !Usable(price, fcf, shares) {
      return MissingInputs;
    }
    if !SoundAssumptions(r, tg) {
      return InvalidAssumptions;
    }
    res := Bisect(fcf.value, r, tg, price.value * shares.value);
  }
}
