/**
 * The technical indicators computed from a price history: simple moving
 * averages of the close over 50 and 200 days and the 14-day relative
 * strength index.  A rolling mean is absent (`None`, pandas' NaN) until its
 * window is full; the output series are aligned with the closes.
 */
module Indicators {
  import opened Wrappers

  const ShortWindow: nat := 50
  const LongWindow: nat := 200
  const RsiWindow: nat := 14

  /** Sum of a sequence, adding from the left. */
  function Sum(s: seq<real>): real
  {
    if s == [] then 0.0 else Sum(s[..|s| - 1]) + s[|s| - 1]
  }

  function Mean(s: seq<real>): real
    requires s != []
  {
    Sum(s) / |s| as real
  }

  /** Taking the first element off the front of a sum. */
  lemma {:induction false} SumFront(s: seq<real>)
    requires s != []
    ensures Sum(s) == s[0] + Sum(s[1..])
  {
    if |s| > 1 {
      SumFront(s[..|s| - 1]);
      assert s[..|s| - 1][1..] == s[1..][..|s[1..]| - 1];
    }
  }

  lemma {:induction false} SumNonNegative(s: seq<real>)
    requires forall i :: 0 <= i < |s| ==> s[i] >= 0.0
    ensures Sum(s) >= 0.0
    ensures Sum(s) == 0.0 <==> forall i :: 0 <= i < |s| ==> s[i] == 0.0
  {
    if s != [] {
      SumNonNegative(s[..|s| - 1]);
      assert forall i :: 0 <= i < |s| - 1 ==> s[..|s| - 1][i] == s[i];
    }
  }

  /** First index of the window of width w that ends at index i (clipped at 0). */
  function WindowStart(i: nat, w: nat): nat
  {
    if i + 1 >= w then i + 1 - w else 0
  }

  /**
   * Running window sums, the way a rolling sum is kept: each step adds the
   * value entering the window and subtracts the one leaving it.  The result
   * at i is the sum of the last w values up to and including i.
   */
  function RollingSums(xs: seq<real>, w: nat): (sums: seq<real>)
    requires w >= 1
    ensures |sums| == |xs|
    ensures forall i :: 0 <= i < |xs| ==> sums[i] == Sum(xs[WindowStart(i, w)..i + 1])
  {
    if xs == [] then []
    else
      var n := |xs| - 1;
      var prev := RollingSums(xs[..n], w);
      var entering := (if n == 0 then 0.0 else prev[n - 1]) + xs[n];
      var last := if n >= w then entering - xs[n - w] else entering;
      RollingSumStep(xs, w);
      PrefixWindows(xs, n, w);
      prev + [last]
  }

  /** A window ending before n reads the same values in the prefix of length n. */
  lemma PrefixWindows(xs: seq<real>, n: nat, w: nat)
    requires n <= |xs| && w >= 1
    ensures forall i :: 0 <= i < n ==> xs[..n][WindowStart(i, w)..i + 1] == xs[WindowStart(i, w)..i + 1]
  {
  }

  /** The step RollingSums takes, on sums given by their definition. */
  lemma RollingSumStep(xs: seq<real>, w: nat)
    requires w >= 1 && xs != []
    ensures var n := |xs| - 1;
      var entering := (if n == 0 then 0.0 else Sum(xs[WindowStart(n - 1, w)..n])) + xs[n];
      Sum(xs[WindowStart(n, w)..n + 1]) == if n >= w then entering - xs[n - w] else entering
  {
    var n := |xs| - 1;
    if n == 0 {
      assert xs[0..1][..0] == [];
    } else {
      var s := WindowStart(n - 1, w);
      assert xs[s..n + 1][..n - s] == xs[s..n];
      if n >= w {
        assert s == n - w && WindowStart(n, w) == n + 1 - w;
        SumFront(xs[s..n + 1]);
        assert xs[s..n + 1][1..] == xs[n + 1 - w..n + 1];
      }
    }
  }

  /**
   * `series.rolling(window=w).mean()`: aligned with the input, absent while
   * fewer than w values are available, then the mean of the last w values.
   */
  function RollingMean(xs: seq<real>, w: nat): (means: seq<Option<real>>)
    requires w >= 1
    ensures |means| == |xs|
    ensures forall i :: 0 <= i < |xs| ==> (means[i].Some? <==> i + 1 >= w)
    ensures forall i :: 0 <= i < |xs| && i + 1 >= w ==> means[i] == Some(Mean(xs[i + 1 - w..i + 1]))
  {
    var sums := RollingSums(xs, w);
    seq(|xs|, i requires 0 <= i < |xs| => if i + 1 >= w then Some(sums[i] / w as real) else None)
  }

  /** A rolling mean of non-negative values is non-negative, and zero only on an all-zero window. */
  lemma RollingMeanNonNegative(xs: seq<real>, w: nat, i: nat)
    requires w >= 1 && i < |xs| && i + 1 >= w
    requires forall j :: 0 <= j < |xs| ==> xs[j] >= 0.0
    ensures RollingMean(xs, w)[i].value >= 0.0
    ensures RollingMean(xs, w)[i].value == 0.0 <==> forall j :: i + 1 - w <= j <= i ==> xs[j] == 0.0
  {
    var lo := i + 1 - w;
    var window := xs[lo..i + 1];
    WindowValues(xs, lo, i + 1);
    SumNonNegative(window);
    DivideByCount(Sum(window), w);
    assert RollingMean(xs, w)[i].value == Sum(window) / w as real;
  }

  /** The values of a slice are the values of the sequence between its bounds. */
  lemma WindowValues(xs: seq<real>, lo: nat, hi: nat)
    requires lo <= hi <= |xs|
    ensures forall j :: lo <= j < hi ==> xs[j] == xs[lo..hi][j - lo]
    ensures (forall k :: 0 <= k < hi - lo ==> xs[lo..hi][k] == 0.0) <==> (forall j :: lo <= j < hi ==> xs[j] == 0.0)
  {
    assert forall k :: 0 <= k < hi - lo ==> xs[lo..hi][k] == xs[lo + k];
  }

  /** Dividing by a positive count keeps the sign, and zero exactly at zero. */
  lemma DivideByCount(x: real, n: nat)
    requires n >= 1
    ensures x >= 0.0 ==> x / n as real >= 0.0
    ensures x / n as real == 0.0 <==> x == 0.0
  {
  }

  /** `close.diff().where(delta > 0, 0)`: the rise from the previous close, 0 on the first day. */
  function Gains(closes: seq<real>): (gains: seq<real>)
    ensures |gains| == |closes|
    ensures forall i :: 0 <= i < |closes| ==> gains[i] >= 0.0
    ensures |closes| > 0 ==> gains[0] == 0.0
  {
    seq(|closes|, i requires 0 <= i < |closes| =>
      if i > 0 && closes[i] - closes[i - 1] > 0.0 then closes[i] - closes[i - 1] else 0.0)
  }

  /** `-close.diff().where(delta < 0, 0)`: the fall from the previous close, 0 on the first day. */
  function Losses(closes: seq<real>): (losses: seq<real>)
    ensures |losses| == |closes|
    ensures forall i :: 0 <= i < |closes| ==> losses[i] >= 0.0
    ensures |closes| > 0 ==> losses[0] == 0.0
  {
    seq(|closes|, i requires 0 <= i < |closes| =>
      if i > 0 && closes[i] - closes[i - 1] < 0.0 then -(closes[i] - closes[i - 1]) else 0.0)
  }

  /**
   * From the second day on, the day's change splits into its gain and its
   * loss: the gain minus the loss is the change, and at most one of the two
   * is non-zero. With both non-negative, this fixes the pair.
   */
  lemma GainsAndLossesSplitChange(closes: seq<real>, i: int)
    requires 1 <= i < |closes|
    ensures Gains(closes)[i] - Losses(closes)[i] == closes[i] - closes[i - 1]
    ensures Gains(closes)[i] * Losses(closes)[i] == 0.0
    ensures Gains(closes)[i] == 0.0 || Losses(closes)[i] == 0.0
  {
  }

  /**
   * `100 - 100 / (1 + gain / loss)` with pandas' float semantics: no loss
   * and some gain makes the ratio infinite and the index 100; no loss and no
   * gain makes it NaN.
   */
  function RsiFromMeans(gain: real, loss: real): (rsi: Option<real>)
    requires gain >= 0.0 && loss >= 0.0
    ensures rsi.None? <==> gain == 0.0 && loss == 0.0
    ensures rsi.Some? ==> 0.0 <= rsi.value <= 100.0
    ensures rsi == Some(100.0) <==> loss == 0.0 && gain > 0.0
    ensures rsi == Some(0.0) <==> loss > 0.0 && gain == 0.0
  {
    if loss == 0.0 then
      if gain == 0.0 then None else Some(100.0)
    else
      var rs := gain / loss;
      assert rs >= 0.0;
      Some(100.0 - 100.0 / (1.0 + rs))
  }

  /** The 14-day relative strength index of a close series. */
  function Rsi(closes: seq<real>): (rsi: seq<Option<real>>)
    ensures |rsi| == |closes|
  {
    var gain := RollingMean(Gains(closes), RsiWindow);
    var loss := RollingMean(Losses(closes), RsiWindow);
    seq(|closes|, i requires 0 <= i < |closes| =>
      if i + 1 >= RsiWindow then
        RollingMeanNonNegative(Gains(closes), RsiWindow, i);
        RollingMeanNonNegative(Losses(closes), RsiWindow, i);
        RsiFromMeans(gain[i].value, loss[i].value)
      else None)
  }

  /** No close moves between day lo - 1 and day hi (day 0 has no previous close). */
  ghost predicate NoMoveIn(closes: seq<real>, lo: nat, hi: nat)
    requires hi < |closes|
  {
    forall j :: lo <= j <= hi && j >= 1 ==> closes[j] == closes[j - 1]
  }

  /** No close falls between day lo - 1 and day hi. */
  ghost predicate NoFallIn(closes: seq<real>, lo: nat, hi: nat)
    requires hi < |closes|
  {
    forall j :: lo <= j <= hi && j >= 1 ==> closes[j] >= closes[j - 1]
  }

  /** A window without moves is one whose gains and losses are all zero. */
  lemma FlatWindow(closes: seq<real>, lo: nat, hi: nat)
    requires hi < |closes|
    ensures NoMoveIn(closes, lo, hi) <==>
      (forall j :: lo <= j <= hi ==> Gains(closes)[j] == 0.0) && (forall j :: lo <= j <= hi ==> Losses(closes)[j] == 0.0)
  {
    var g, l := Gains(closes), Losses(closes);
    if NoMoveIn(closes, lo, hi) {
      forall j | lo <= j <= hi ensures g[j] == 0.0 && l[j] == 0.0 {}
    }
    if (forall j :: lo <= j <= hi ==> g[j] == 0.0) && (forall j :: lo <= j <= hi ==> l[j] == 0.0) {
      forall j | lo <= j <= hi && j >= 1 ensures closes[j] == closes[j - 1] {
        assert g[j] == 0.0 && l[j] == 0.0;
      }
    }
  }

  /** A window without a fall has no losses. */
  lemma RisingWindow(closes: seq<real>, lo: nat, hi: nat)
    requires hi < |closes| && NoFallIn(closes, lo, hi)
    ensures forall j :: lo <= j <= hi ==> Losses(closes)[j] == 0.0
  {
  }

  /**
   * The RSI at day i is present exactly from day 13 on (the first day's
   * delta is NaN but becomes 0, so a 14-value window is full at index 13)
   * and when some close in the window moved; when present it lies in
   * [0, 100], and it is exactly 100 when no close in the window fell.
   */
  lemma RsiAt(closes: seq<real>, i: nat)
    requires i < |closes|
    ensures Rsi(closes)[i].Some? <==> i + 1 >= RsiWindow && !NoMoveIn(closes, i + 1 - RsiWindow, i)
    ensures Rsi(closes)[i].Some? ==> 0.0 <= Rsi(closes)[i].value <= 100.0
    ensures Rsi(closes)[i].Some? && NoFallIn(closes, i + 1 - RsiWindow, i) ==> Rsi(closes)[i] == Some(100.0)
  {
    if i + 1 >= RsiWindow {
      var lo := i + 1 - RsiWindow;
      var g, l := Gains(closes), Losses(closes);
      RollingMeanNonNegative(g, RsiWindow, i);
      RollingMeanNonNegative(l, RsiWindow, i);
      var gm, lm := RollingMean(g, RsiWindow)[i].value, RollingMean(l, RsiWindow)[i].value;
      assert Rsi(closes)[i] == RsiFromMeans(gm, lm);
      FlatWindow(closes, lo, i);
      if NoFallIn(closes, lo, i) {
        RisingWindow(closes, lo, i);
      }
    }
  }

  /** On a history where no close ever falls, the RSI is 100 wherever it is defined. */
  lemma RsiOfRisingHistory(closes: seq<real>)
    requires forall j :: 1 <= j < |closes| ==> closes[j - 1] <= closes[j]
    ensures forall i :: 0 <= i < |closes| && Rsi(closes)[i].Some? ==> Rsi(closes)[i] == Some(100.0)
  {
    forall i | 0 <= i < |closes| && Rsi(closes)[i].Some?
      ensures Rsi(closes)[i] == Some(100.0)
    {
      RsiAt(closes, i);
    }
  }

  /** A history too short for the window has no moving average at all. */
  lemma NoAverageOnShortHistory(closes: seq<real>, w: nat)
    requires w >= 1 && |closes| < w
    ensures forall i :: 0 <= i < |closes| ==> RollingMean(closes, w)[i].None?
  {
  }

  /** The indicator columns added to a price history. */
  datatype IndicatorSeries = IndicatorSeries(
    sma50: seq<Option<real>>,
    sma200: seq<Option<real>>,
    rsi: seq<Option<real>>)

  /**
   * The indicator part of `get_price_history`: an empty history yields no
   * result; otherwise three columns aligned with the closes: the 50- and
   * 200-day rolling means and the RSI.
   */
  function Technicals(closes: seq<real>): (r: Option<IndicatorSeries>)
    ensures r.None? <==> closes == []
    ensures r.Some? ==>
      && |r.value.sma50| == |closes| && |r.value.sma200| == |closes| && |r.value.rsi| == |closes|
      && (forall i :: 0 <= i < |closes| ==> (r.value.sma50[i].Some? <==> i + 1 >= ShortWindow))
      && (forall i :: 0 <= i < |closes| ==> (r.value.sma200[i].Some? <==> i + 1 >= LongWindow))
    ensures r.Some? ==>
      && r.value.sma50 == RollingMean(closes, ShortWindow) && r.value.sma200 == RollingMean(closes, LongWindow)
      && r.value.rsi == Rsi(closes)
  {
    if closes == [] then None
    else Some(IndicatorSeries(RollingMean(closes, ShortWindow), RollingMean(closes, LongWindow), Rsi(closes)))
  }
}
