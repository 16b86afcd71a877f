/**
 * The derivations the dashboard makes from the engine's results: the RSI
 * label, the valuation tab (implied growth, verdict against historical
 * growth, projected cash flows) and the competitor table with its margin
 * normalisation and target/peer split.
 *
 * A field read from the market-data dictionary is a `Reading`: Python's
 * `None`, a NaN float, or a number.  Truthiness follows Python: `None` and
 * 0 are false, NaN is true.
 */
module Dashboard {
  import opened Wrappers
  import opened RealMath
  import Dcf
  import Indicators

  datatype Reading = Null | NotANumber | Number(x: real)

  predicate Truthy(v: Reading): (t: bool)
    ensures !t <==> v == Null || v == Number(0.0)
    ensures v.NotANumber? ==> t
  {
    v.NotANumber? || (v.Number? && v.x != 0.0)
  }

  /** The value the engine sees: `None` and NaN are both missing. */
  function AsOption(v: Reading): (o: Option<real>)
    ensures o.Some? <==> v.Number?
    ensures v.Number? ==> o.value == v.x
  {
    if v.Number? then Some(v.x) else None
  }

  // ---------------------------------------------------------------------
  // Technical tab

  datatype RsiSignal = Overbought | Oversold | Neutral

  /**
   * The label under the RSI metric.  A NaN RSI fails both comparisons and
   * reads Neutral.
   */
  function RsiLabel(rsi: Option<real>): (signal: RsiSignal)
    ensures signal == Overbought <==> rsi.Some? && rsi.value > 70.0
    ensures signal == Oversold <==> rsi.Some? && rsi.value < 30.0
    ensures signal == Neutral <==> rsi.None? || 30.0 <= rsi.value <= 70.0
  {
    if rsi.Some? && rsi.value > 70.0 then Overbought
    else if rsi.Some? && rsi.value < 30.0 then Oversold
    else Neutral
  }

  /** The label shown for a history: that of the RSI on its last day. */
  function LatestRsiLabel(closes: seq<real>): (signal: RsiSignal)
    requires closes != []
    ensures |closes| < Indicators.RsiWindow ==> signal == Neutral
    ensures |closes| >= Indicators.RsiWindow && Indicators.NoMoveIn(closes, |closes| - Indicators.RsiWindow, |closes| - 1)
      ==> signal == Neutral
    ensures |closes| >= Indicators.RsiWindow && !Indicators.NoMoveIn(closes, |closes| - Indicators.RsiWindow, |closes| - 1)
      && Indicators.NoFallIn(closes, |closes| - Indicators.RsiWindow, |closes| - 1)
      ==> signal == Overbought
  {
    Indicators.RsiAt(closes, |closes| - 1);
    RsiLabel(Indicators.Rsi(closes)[|closes| - 1])
  }

  /** A history in which no close ever falls reads Overbought once its RSI is defined. */
  lemma RisingHistoryReadsOverbought(closes: seq<real>)
    requires closes != []
    requires forall j :: 1 <= j < |closes| ==> closes[j - 1] <= closes[j]
    requires Indicators.Rsi(closes)[|closes| - 1].Some?
    ensures LatestRsiLabel(closes) == Overbought
  {
    Indicators.RsiOfRisingHistory(closes);
  }

  // ---------------------------------------------------------------------
  // Valuation tab

  datatype Verdict = Undervalued | Overvalued

  /**
   * Shown only when the historical growth is a number; undervalued exactly
   * when the implied growth is strictly below it.  A NaN implied growth
   * (`None`) fails the comparison and reads overvalued, as does equality.
   */
  function ValuationVerdict(impliedPct: Option<real>, historicalPct: Option<real>): (v: Option<Verdict>)
    ensures v.None? <==> historicalPct.None?
    ensures v == Some(Undervalued) <==> impliedPct.Some? && historicalPct.Some? && impliedPct.value < historicalPct.value
    ensures v == Some(Overvalued) <==> historicalPct.Some? && (impliedPct.None? || impliedPct.value >= historicalPct.value)
  {
    if historicalPct.None? then None
    else if impliedPct.Some? && impliedPct.value < historicalPct.value then Some(Undervalued)
    else Some(Overvalued)
  }

  /** The bars of the implied cash-flow chart: year 1 to 10 at the implied growth. */
  function ProjectedCashFlows(fcf: real, impliedPct: real): (flows: seq<real>)
    ensures |flows| == Dcf.ProjectionYears
    ensures forall i :: 0 <= i < |flows| ==> flows[i] == Dcf.Flow(fcf, impliedPct / 100.0, i + 1)
  {
    seq(Dcf.ProjectionYears, i requires 0 <= i < Dcf.ProjectionYears => fcf * Pow(1.0 + impliedPct / 100.0, i + 1))
  }

  /** One more year of compounding multiplies the flow by the growth factor. */
  lemma CompoundStep(fcf: real, g: real, n: nat)
    ensures Dcf.Flow(fcf, g, n + 1) == Dcf.Flow(fcf, g, n) * (1.0 + g)
  {
    var p := Pow(1.0 + g, n);
    assert Pow(1.0 + g, n + 1) == p * (1.0 + g);
    assert fcf * (p * (1.0 + g)) == (fcf * p) * (1.0 + g);
  }

  /** Each bar is the previous one grown by the implied rate, the first is one year's growth. */
  lemma ProjectionCompounds(fcf: real, impliedPct: real)
    ensures var flows := ProjectedCashFlows(fcf, impliedPct);
      && flows[0] == fcf * (1.0 + impliedPct / 100.0)
      && forall i :: 1 <= i < |flows| ==> flows[i] == flows[i - 1] * (1.0 + impliedPct / 100.0)
  {
    var flows := ProjectedCashFlows(fcf, impliedPct);
    var g := impliedPct / 100.0;
    CompoundStep(fcf, g, 0);
    assert flows[0] == Dcf.Flow(fcf, g, 1);
    forall i | 1 <= i < |flows| ensures flows[i] == flows[i - 1] * (1.0 + g) {
      assert flows[i] == Dcf.Flow(fcf, g, i + 1);
      assert flows[i - 1] == Dcf.Flow(fcf, g, i);
      CompoundStep(fcf, g, i);
    }
  }

  /** With a positive cash flow and positive implied growth the bars strictly rise. */
  lemma ProjectionRises(fcf: real, impliedPct: real)
    requires fcf > 0.0 && impliedPct > 0.0
    ensures var flows := ProjectedCashFlows(fcf, impliedPct);
      forall i :: 1 <= i < |flows| ==> flows[i - 1] < flows[i]
  {
    var flows := ProjectedCashFlows(fcf, impliedPct);
    var q := 1.0 + impliedPct / 100.0;
    ProjectionCompounds(fcf, impliedPct);
    forall i | 1 <= i < |flows| ensures flows[i - 1] < flows[i] {
      PowPositive(q, i);
      MulPositive(fcf, Pow(q, i));
      MulStrict(1.0, q, flows[i - 1]);
    }
  }

  /** The implied growth as the tab uses it: a number, or NaN when the solver had no answer. */
  function ImpliedPct(g: Dcf.ImpliedGrowth): (pct: Option<real>)
    ensures pct.Some? <==> g.Solved?
    ensures pct.Some? ==> pct.value == g.growthPct
  {
    if g.Solved? then Some(g.growthPct) else None
  }

  datatype ValuationView =
    | InsufficientData        // "Missing FCF or Shares"
    | RejectedAssumptions     // discount rate not above terminal growth
    | Valuation(implied: Dcf.ImpliedGrowth, verdict: Option<Verdict>, projection: Option<seq<real>>)

  /**
   * `calculate_reverse_dcf` called with the screen's readings: the checked
   * solver's answer for a target of price times shares.
   */
  method SolveImpliedGrowth(price: Reading, fcf: Reading, shares: Reading, discountRate: real, terminalGrowth: real)
    returns (implied: Dcf.ImpliedGrowth)
    ensures implied.MissingInputs? <==> !Dcf.Usable(AsOption(price), AsOption(fcf), AsOption(shares))
    ensures implied.InvalidAssumptions? <==>
      Dcf.Usable(AsOption(price), AsOption(fcf), AsOption(shares)) && !Dcf.SoundAssumptions(discountRate, terminalGrowth)
    ensures !implied.ZeroDivision?
    ensures implied.Solved? ==>
      && price.Number? && fcf.Number? && shares.Number?
      && Dcf.SoundAssumptions(discountRate, terminalGrowth)
      && Dcf.IsBisectionResult(AsOption(fcf).value, discountRate, terminalGrowth,
                               AsOption(price).value * AsOption(shares).value, implied)
      && Dcf.RootsNear(AsOption(fcf).value, discountRate, terminalGrowth,
                       AsOption(price).value * AsOption(shares).value, implied.growthPct / 100.0, implied.iterations)
  {
    implied := Dcf.CheckedReverseDcf(AsOption(price), AsOption(fcf), discountRate, terminalGrowth, AsOption(shares));
  }

  /**
   * The valuation tab.  Nothing is computed unless the free cash flow and
   * the share count are truthy; then the implied growth is solved for a
   * target of price times shares, compared
   * with the historical growth and projected over ten years (a NaN implied
   * growth makes every bar NaN, `None` here).  The historical growth
   * percentage is an input: its fractional power is not modelled.
   */
  method ValuationTab(price: Reading, fcf: Reading, shares: Reading, discountRate: real, terminalGrowth: real,
                      historicalPct: Option<real>)
    returns (view: ValuationView)
    ensures view.InsufficientData? <==> !(Truthy(fcf) && Truthy(shares))
    ensures view.RejectedAssumptions? <==>
      Truthy(fcf) && Truthy(shares) && Dcf.Usable(AsOption(price), AsOption(fcf), AsOption(shares))
      && !Dcf.SoundAssumptions(discountRate, terminalGrowth)
    ensures view.Valuation? ==>
      && (view.implied.Solved? <==> Dcf.Usable(AsOption(price), AsOption(fcf), AsOption(shares)))
      && (view.implied.Solved? ==> -50.0 < view.implied.growthPct < 100.0)
      && (view.implied.Solved? ==>
            && price.Number? && fcf.Number? && shares.Number?
            && Dcf.SoundAssumptions(discountRate, terminalGrowth)
            && Dcf.IsBisectionResult(AsOption(fcf).value, discountRate, terminalGrowth,
                                     AsOption(price).value * AsOption(shares).value, view.implied)
            && Dcf.RootsNear(AsOption(fcf).value, discountRate, terminalGrowth,
                             AsOption(price).value * AsOption(shares).value,
                             view.implied.growthPct / 100.0, view.implied.iterations))
      && view.verdict == ValuationVerdict(ImpliedPct(view.implied), historicalPct)
      && (view.projection.Some? <==> view.implied.Solved?)
      && (view.projection.Some? ==> view.projection.value == ProjectedCashFlows(fcf.x, view.implied.growthPct))
  {
    if !(Truthy(fcf) && Truthy(shares)) {
      return InsufficientData;
    }
    var implied := SolveImpliedGrowth(price, fcf, shares, discountRate, terminalGrowth);
    if implied.InvalidAssumptions? {
      return RejectedAssumptions;
    }
    var verdict := ValuationVerdict(ImpliedPct(implied), historicalPct);
    var projection := if implied.Solved? then Some(ProjectedCashFlows(fcf.x, implied.growthPct)) else None;
    view := Valuation(implied, verdict, projection);
  }

  /** The n-th position of the discount-rate slider (5.0 % upwards in steps of 0.5), as a fraction. */
  function DiscountStep(n: nat): real
  {
    (5.0 + 0.5 * n as real) / 100.0
  }

  /** The n-th position of the terminal-growth slider (1.0 % upwards in steps of 0.1), as a fraction. */
  function TerminalStep(n: nat): real
  {
    (1.0 + 0.1 * n as real) / 100.0
  }

  /** A value the discount-rate slider can produce: 5.0 % to 15.0 %. */
  ghost predicate DiscountSliderValue(r: real)
  {
    exists n: nat :: n <= 20 && r == DiscountStep(n)
  }

  /** A value the terminal-growth slider can produce: 1.0 % to 5.0 %. */
  ghost predicate TerminalSliderValue(tg: real)
  {
    exists n: nat :: n <= 40 && tg == TerminalStep(n)
  }

  /** Both sliders reach 5 %, and at equal rates the unchecked valuation divides by zero. */
  lemma SlidersReachZeroDivision()
    ensures DiscountSliderValue(0.05) && TerminalSliderValue(0.05) && Dcf.DividesByZero(0.05, 0.05)
  {
    assert 0.05 == DiscountStep(0);
    assert 0.05 == TerminalStep(40);
  }

  /** Every other pair of slider values satisfies the checked solver's assumptions. */
  lemma SliderPairsOtherwiseSound(r: real, tg: real)
    requires DiscountSliderValue(r) && TerminalSliderValue(tg) && r != tg
    ensures Dcf.SoundAssumptions(r, tg)
  {
    var m: nat :| m <= 20 && r == DiscountStep(m);
    var n: nat :| n <= 40 && tg == TerminalStep(n);
  }

  // ---------------------------------------------------------------------
  // Competitor tab

  /** The fields of `get_stock_data`'s dictionary the competitor table reads. */
  datatype Fundamentals = Fundamentals(revenueGrowth: Reading, evToEbitda: Reading, profitMargins: Reading)

  datatype Role = Target | Peer

  /** A row of the competitor table; `absMargin` is the column the normalisation adds. */
  datatype MetricRecord = MetricRecord(
    ticker: string,
    revGrowth: Reading,
    evEbitda: Reading,
    netMargin: Reading,
    role: Role,
    absMargin: Option<real>)

  /**
   * `revenueGrowth * 100 if revenueGrowth else 0`: a falsy growth (None or
   * 0) becomes 0, a NaN stays NaN, a number is scaled to percent.
   */
  function RevGrowthPct(v: Reading): (pct: Reading)
    ensures pct == Number(0.0) <==> !Truthy(v)
    ensures pct.NotANumber? <==> v.NotANumber?
    ensures v.Number? ==> pct == Number(v.x * 100.0)
    ensures !pct.Null?
  {
    if !Truthy(v) then Number(0.0)
    else if v.NotANumber? then NotANumber
    else Number(v.x * 100.0)
  }

  /** The record built for one company. */
  function Record(ticker: string, f: Fundamentals, role: Role): (r: MetricRecord)
    ensures r.ticker == ticker && r.role == role && r.absMargin.None?
    ensures r.evEbitda == f.evToEbitda && r.netMargin == f.profitMargins
    ensures r.revGrowth == Number(0.0) <==> !Truthy(f.revenueGrowth)
    ensures r.revGrowth.NotANumber? <==> f.revenueGrowth.NotANumber?
    ensures f.revenueGrowth.Number? ==> r.revGrowth == Number(f.revenueGrowth.x * 100.0)
  {
    MetricRecord(ticker, RevGrowthPct(f.revenueGrowth), f.evToEbitda, f.profitMargins, role, None)
  }

  /** The peer records the loop appends: one per competitor whose data came back, in list order. */
  function PeerRecords(competitors: seq<string>, fetch: string -> Option<Fundamentals>): (peers: seq<MetricRecord>)
    ensures |peers| <= |competitors|
    ensures forall k :: 0 <= k < |peers| ==> peers[k].role == Peer
  {
    if competitors == [] then []
    else
      var last := competitors[|competitors| - 1];
      var earlier := PeerRecords(competitors[..|competitors| - 1], fetch);
      match fetch(last)
      case Some(f) => earlier + [Record(last, f, Peer)]
      case None => earlier
  }

  /** Number of competitors whose fetch returned data. */
  function FetchedCount(competitors: seq<string>, fetch: string -> Option<Fundamentals>): nat
  {
    if competitors == [] then 0
    else FetchedCount(competitors[..|competitors| - 1], fetch)
         + (if fetch(competitors[|competitors| - 1]).Some? then 1 else 0)
  }

  /**
   * The peer records are Peer rows of listed competitors, one for each
   * competitor whose data came back, so never more than the list.
   */
  lemma {:induction false} PeerRecordsShape(competitors: seq<string>, fetch: string -> Option<Fundamentals>)
    ensures var peers := PeerRecords(competitors, fetch);
      && |peers| == FetchedCount(competitors, fetch) <= |competitors|
      && (forall k :: 0 <= k < |peers| ==> peers[k].role == Peer && peers[k].ticker in competitors)
      && (forall k :: 0 <= k < |peers| ==>
            fetch(peers[k].ticker).Some? && peers[k] == Record(peers[k].ticker, fetch(peers[k].ticker).value, Peer))
  {
    if competitors != [] {
      var init := competitors[..|competitors| - 1];
      PeerRecordsShape(init, fetch);
      assert forall c :: c in init ==> c in competitors;
    }
  }

  /** Records gathered from a prefix of the list are a prefix of the records from the whole list. */
  lemma {:induction false} PeerRecordsPrefix(competitors: seq<string>, fetch: string -> Option<Fundamentals>, k: nat)
    requires k <= |competitors|
    ensures PeerRecords(competitors[..k], fetch) <= PeerRecords(competitors, fetch)
  {
    if k < |competitors| {
      var init := competitors[..|competitors| - 1];
      assert init[..k] == competitors[..k];
      PeerRecordsPrefix(init, fetch, k);
    } else {
      assert competitors[..k] == competitors;
    }
  }

  /**
   * The peer records keep list order: a competitor whose data came back sits
   * right after the records of the competitors fetched before it, with its
   * own ticker and fetched fields.
   */
  lemma PeerRecordsInOrder(competitors: seq<string>, fetch: string -> Option<Fundamentals>)
    ensures forall j :: 0 <= j < |competitors| && fetch(competitors[j]).Some? ==>
      var peers := PeerRecords(competitors, fetch);
      && FetchedCount(competitors[..j], fetch) < |peers|
      && peers[FetchedCount(competitors[..j], fetch)] == Record(competitors[j], fetch(competitors[j]).value, Peer)
  {
    forall j | 0 <= j < |competitors| && fetch(competitors[j]).Some?
      ensures var peers := PeerRecords(competitors, fetch);
        && FetchedCount(competitors[..j], fetch) < |peers|
        && peers[FetchedCount(competitors[..j], fetch)] == Record(competitors[j], fetch(competitors[j]).value, Peer)
    {
      var upTo := competitors[..j + 1];
      assert upTo[..j] == competitors[..j];
      assert upTo[|upTo| - 1] == competitors[j];
      PeerRecordsShape(competitors[..j], fetch);
      assert PeerRecords(upTo, fetch) == PeerRecords(competitors[..j], fetch) + [Record(competitors[j], fetch(competitors[j]).value, Peer)];
      PeerRecordsPrefix(competitors, fetch, j + 1);
    }
  }

  /**
   * The loop that fills `comp_data`: the target's record first, then one
   * Peer record per competitor whose fetch returned data.
   */
  method BuildComparison(symbol: string, target: Fundamentals, competitors: seq<string>,
                         fetch: string -> Option<Fundamentals>)
    returns (rows: seq<MetricRecord>)
    ensures rows == [Record(symbol, target, Target)] + PeerRecords(competitors, fetch)
  {
    rows := [Record(symbol, target, Target)];
    for i := 0 to |competitors|
      invariant rows == [Record(symbol, target, Target)] + PeerRecords(competitors[..i], fetch)
    {
      var comp := competitors[i];
      assert competitors[..i + 1][..i] == competitors[..i];
      var data := fetch(comp);
      if data.Some? {
        rows := rows + [Record(comp, data.value, Peer)];
      }
    }
    assert competitors[..|competitors|] == competitors;
  }

  /** The built table always starts with the target, whatever the competitor list. */
  lemma ComparisonHasTarget(symbol: string, target: Fundamentals, competitors: seq<string>,
                            fetch: string -> Option<Fundamentals>)
    ensures var rows := [Record(symbol, target, Target)] + PeerRecords(competitors, fetch);
      && 1 <= |rows| <= 1 + |competitors|
      && rows[0].ticker == symbol && rows[0].role == Target
      && forall k :: 1 <= k < |rows| ==> rows[k].role == Peer
  {
    PeerRecordsShape(competitors, fetch);
  }

  /** `fillna(0)` on the NetMargin column. */
  function FilledMargin(m: Reading): (x: real)
    ensures m.Number? ==> x == m.x
    ensures !m.Number? ==> x == 0.0
  {
    if m.Number? then m.x else 0.0
  }

  /** `abs()` then `replace(0, 0.01)`: the marker size, never zero. */
  function MarkerSize(margin: real): (size: real)
    ensures size > 0.0
    ensures margin != 0.0 ==> size == Abs(margin)
    ensures margin == 0.0 ==> size == 0.01
  {
    var a := Abs(margin);
    if a == 0.0 then 0.01 else a
  }

  /**
   * A row after the three column assignments: the net margin is a number
   * with its sign kept (missing becomes 0), the marker size is positive,
   * and nothing else changes.
   */
  function Normalised(row: MetricRecord): (n: MetricRecord)
    ensures n.netMargin == Number(FilledMargin(row.netMargin))
    ensures n.absMargin.Some? && n.absMargin.value > 0.0
    ensures n.absMargin.value == MarkerSize(n.netMargin.x)
    ensures n.ticker == row.ticker && n.revGrowth == row.revGrowth && n.evEbitda == row.evEbitda && n.role == row.role
  {
    var margin := FilledMargin(row.netMargin);
    row.(netMargin := Number(margin), absMargin := Some(MarkerSize(margin)))
  }

  /**
   * The normalisation runs again on every rerun of the page, on the same
   * stored table; a second pass changes nothing.
   */
  lemma NormalisedIdempotent(row: MetricRecord)
    ensures Normalised(Normalised(row)) == Normalised(row)
  {
  }

  /** The competitor table kept between reruns; its columns are overwritten in place. */
  class ComparisonFrame {
    var rows: seq<MetricRecord>

    constructor (records: seq<MetricRecord>)
      ensures rows == records
    {
      rows := records;
    }

    /** Fill missing net margins with 0, add the absolute margin, replace a zero size by 0.01. */
    method NormaliseMargins()
      modifies this
      ensures |rows| == |old(rows)|
      ensures forall k :: 0 <= k < |rows| ==> rows[k] == Normalised(old(rows)[k])
    {
      // fillna(0)
      var before := rows;
      rows := seq(|before|, k requires 0 <= k < |before| =>
        before[k].(netMargin := Number(FilledMargin(before[k].netMargin))));
      // abs()
      var filled := rows;
      rows := seq(|filled|, k requires 0 <= k < |filled| =>
        filled[k].(absMargin := Some(if filled[k].netMargin.Number? then Abs(filled[k].netMargin.x) else 0.0)));
      // replace(0, 0.01)
      var sized := rows;
      rows := seq(|sized|, k requires 0 <= k < |sized| =>
        sized[k].(absMargin := Some(if sized[k].absMargin == Some(0.0) then 0.01 else sized[k].absMargin.GetOr(0.0))));
    }
  }

  /** `df[df['Ticker'] == symbol]` (matching) or `df[df['Ticker'] != symbol]` (not matching), in table order. */
  function RowsWhereTicker(rows: seq<MetricRecord>, symbol: string, matching: bool): (picked: seq<MetricRecord>)
    ensures |picked| <= |rows|
    ensures forall k :: 0 <= k < |picked| ==> (picked[k].ticker == symbol) == matching && picked[k] in rows
  {
    if rows == [] then []
    else
      var rest := RowsWhereTicker(rows[1..], symbol, matching);
      if (rows[0].ticker == symbol) == matching then [rows[0]] + rest else rest
  }

  /** The two selections partition the table. */
  lemma {:induction false} SplitPartitions(rows: seq<MetricRecord>, symbol: string)
    ensures |RowsWhereTicker(rows, symbol, true)| + |RowsWhereTicker(rows, symbol, false)| == |rows|
    ensures multiset(RowsWhereTicker(rows, symbol, true) + RowsWhereTicker(rows, symbol, false)) == multiset(rows)
  {
    if rows != [] {
      SplitPartitions(rows[1..], symbol);
      assert rows == [rows[0]] + rows[1..];
    }
  }

  /** Normalising a table is normalising its first row and then the rest. */
  lemma NormalisedAllFront(rows: seq<MetricRecord>)
    requires rows != []
    ensures NormalisedAll(rows) == [Normalised(rows[0])] + NormalisedAll(rows[1..])
  {
  }

  /** Selecting by ticker and normalising commute: normalisation keeps tickers. */
  lemma {:induction false} SplitAfterNormalise(rows: seq<MetricRecord>, symbol: string, matching: bool)
    ensures RowsWhereTicker(NormalisedAll(rows), symbol, matching) == NormalisedAll(RowsWhereTicker(rows, symbol, matching))
  {
    if rows != [] {
      var ns := NormalisedAll(rows);
      NormalisedAllFront(rows);
      assert ns[0] == Normalised(rows[0]) && ns[1..] == NormalisedAll(rows[1..]);
      SplitAfterNormalise(rows[1..], symbol, matching);
      var rest := RowsWhereTicker(rows[1..], symbol, matching);
      if (rows[0].ticker == symbol) == matching {
        assert RowsWhereTicker(rows, symbol, matching) == [rows[0]] + rest;
        NormalisedAllFront([rows[0]] + rest);
        assert ([rows[0]] + rest)[1..] == rest;
      } else {
        assert RowsWhereTicker(rows, symbol, matching) == rest;
      }
    }
  }

  function NormalisedAll(rows: seq<MetricRecord>): (ns: seq<MetricRecord>)
    ensures |ns| == |rows| && forall k :: 0 <= k < |rows| ==> ns[k] == Normalised(rows[k])
  {
    seq(|rows|, k requires 0 <= k < |rows| => Normalised(rows[k]))
  }

  /**
   * On a table built by BuildComparison and normalised, the first row
   * matching the symbol is the target's own record, so the "target metrics
   * not found" branch cannot be taken; the peers are the competitors' rows
   * other than one the competitor list gave under the target's own symbol.
   */
  lemma TargetFoundAfterBuild(symbol: string, target: Fundamentals, competitors: seq<string>,
                              fetch: string -> Option<Fundamentals>)
    ensures var table := NormalisedAll([Record(symbol, target, Target)] + PeerRecords(competitors, fetch));
      && RowsWhereTicker(table, symbol, true) != []
      && RowsWhereTicker(table, symbol, true)[0] == Normalised(Record(symbol, target, Target))
      && RowsWhereTicker(table, symbol, false) == NormalisedAll(RowsWhereTicker(PeerRecords(competitors, fetch), symbol, false))
  {
    var rows := [Record(symbol, target, Target)] + PeerRecords(competitors, fetch);
    SplitAfterNormalise(rows, symbol, true);
    SplitAfterNormalise(rows, symbol, false);
    assert rows[1..] == PeerRecords(competitors, fetch);
  }
}
