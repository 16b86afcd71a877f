# AlphaSeeker-AI valuation and dashboard core, in Dafny

AlphaSeeker-AI is a Streamlit dashboard for equity research. It pulls market data, computes
technical indicators, backs out the growth rate the market price implies with a reverse
discounted-cash-flow (DCF) search, compares a company with language-model-suggested peers,
and asks a language model for commentary. This project models the deterministic core behind
those screens and proves properties of it:

- `Dcf` (`dcf.dfy`) models the ten-year DCF valuation. `CalculateDcfValue` is a loop proved
  equal to a closed-form definition. The module proves that the valuation strictly
  increases with the growth rate. The 100-step bisection that solves for the implied growth
  rate is proved to return a rate inside the search bracket. The convergence flag means the
  tolerance test passed. For a positive cash flow and a discount rate above both the
  terminal growth rate and -100 %, the valuation is proved increasing, and every exact root
  then lies within 1.5 / 2^k of the answer after k halvings. Two solvers are modelled: the one the program
  uses and a corrected one (see Findings).
- `Indicators` (`indicators.dfy`) models the 50- and 200-day simple moving averages and the
  14-day RSI (relative strength index), with pandas' rolling-window alignment and NaN
  behaviour.
- `Growth` (`growth.dfy`) models the guards and period arithmetic of the historical revenue
  CAGR (compound annual growth rate).
- `Dashboard` (`dashboard.dfy`) models the screen logic:
  - the RSI label and the valuation tab (verdict and projected cash flows);
  - the loop that builds the competitor table;
  - the in-place margin normalisation of that table, as a class whose field is overwritten;
  - the split into target and peer rows.
- `ResponseCleanup` (`response_cleanup.dfy`) models the clean-up of the language model's
  competitor answer.
- `RealMath` and `Wrappers` hold shared helpers: powers, absolute value, monotonicity of
  products, and `Option`.

Missing values are explicit. In the engine a value that is `None` or NaN is `Option.None`. On
the screens a market-data field is a `Reading`: `Null`, `NotANumber` or `Number(x)`. This
keeps Python's truthiness visible: NaN is truthy, while `None` and 0 are not. Reals stand for
Python floats, so rounding is not modelled.

Three behaviours of the code are worth knowing:

- The RSI series has its first value at the 14th close, index 13. The first day's change is
  NaN, and `where(delta > 0, 0)` turns it into 0, so the 14-day window is already full at
  index 13.
- The CAGR uses `len(revenues) - 1` as the number of years whatever the dates are. Revenues
  100 → 121 over two reported periods give 21 %, and 100, 110, 121 over three periods give
  10 %.
- The solver does not check that the discount rate exceeds the terminal growth rate.
  `Dcf.CalculateReverseDcf` models that behaviour. The dashboard model uses the checked
  solver.

## Model

| member | source | states |
|---|---|---|
| Dcf.CalculateDcfValue | finance_engine.py:132-148 | The loop's total is the sum of the ten discounted compounded cash flows plus the discounted Gordon terminal value computed from year 10's flow. Requires r ≠ tg and 1 + r ≠ 0, the cases where Python would raise ZeroDivisionError. |
| Dcf.FlowIncreasing | finance_engine.py:139 | For a positive cash flow and growth rates above -100 %, a higher growth rate gives a strictly higher flow in every year from 1 on. |
| Dcf.DiscountedFlowsIncreasing | finance_engine.py:138-141 | For a positive cash flow, growth rates above -100 % and a discount rate above -100 %, the discounted sum over n ≥ 1 years strictly increases with the growth rate (and is unchanged over 0 years). |
| Dcf.YearTenCoefficient | finance_engine.py:141-148 | Year 10's discounted flow plus the discounted terminal value is year 10's flow times (1 + r) / (r − tg) / (1 + r)^10. |
| Dcf.YearTenSplit | finance_engine.py:132-148 | The valuation is the first nine discounted flows plus year 10's flow times that coefficient. |
| Dcf.DcfValueIncreasing | finance_engine.py:132-148 | The whole valuation strictly increases with the growth rate (above -100 %) when fcf > 0, tg < r and r > -1, with no bound on tg. This is what makes the bisection's direction (lines 125-128) correct. |
| Dcf.BracketUpdate | finance_engine.py:125-128 | Moving `high` to mid when the valuation at mid is above target, and `low` otherwise, keeps every exact root inside the new bracket. |
| Dcf.Bisect | finance_engine.py:111-130 | Returns the percentage of the last midpoint, strictly between -50 and 100, after 1 to 100 iterations. It is flagged converged exactly when its valuation is within 0.1 % of the target, and it is unconverged only after all 100 iterations. Under sound assumptions every root in [-0.5, 1.0] lies within 1.5 / 2^iterations of it. |
| Dcf.CalculateReverseDcf | finance_engine.py:98-130 | As written. It returns missing (NaN) exactly when price, cash flow or shares is None, NaN or 0, or the cash flow is ≤ 0. Otherwise it raises ZeroDivisionError exactly when r = tg or r = -1. Otherwise the result is a bisection result for target = price × shares. |
| Dcf.Present | finance_engine.py:106-107 | A value passes the guard's truthiness and NaN tests exactly when it is neither None (or NaN) nor 0. |
| Dcf.Usable | finance_engine.py:106-109 | The guard fails exactly when price or shares is None, NaN or 0, or the cash flow is missing or ≤ 0. When it passes, all three are numbers, the cash flow is positive and the target price × shares is non-zero. |
| Dcf.CheckedReverseDcf | finance_engine.py:98-130 | Same input guard. Then it rejects tg ≥ r or r ≤ -1 before the search, so it never divides by zero, and every solved result brackets all roots. |
| Indicators.RollingSums | finance_engine.py:82-83 | The running window sums, kept by adding the entering value and subtracting the leaving one, equal the sum of the last w values at every index. |
| Indicators.RollingSumStep | finance_engine.py:82-83 | The add-entering, subtract-leaving step holds between consecutive window sums. |
| Indicators.RollingMean | finance_engine.py:82-83 | `rolling(window=w).mean()` is aligned with the input. It is absent exactly at the first w - 1 indices, and after that it is the mean of the last w values. |
| Indicators.NoAverageOnShortHistory | finance_engine.py:82-83 | A history shorter than the window has no moving average at all, as with fewer than 200 closes for SMA 200. |
| Indicators.RollingMeanNonNegative | finance_engine.py:87-88 | A rolling mean of non-negative values is non-negative, and it is zero exactly when its whole window is zero. |
| Indicators.Gains | finance_engine.py:86-87 | Daily gains: aligned with the closes, never negative, and 0 on the first day, whose change is NaN. |
| Indicators.Losses | finance_engine.py:86-88 | Daily losses: aligned with the closes, never negative, and 0 on the first day, whose change is NaN. |
| Indicators.GainsAndLossesSplitChange | finance_engine.py:86-88 | From the second day on, gain minus loss is the day's change and at most one of them is non-zero. Both are non-negative, so the gain is the rise and the loss is the fall. |
| Indicators.RsiFromMeans | finance_engine.py:89-90 | `100 - 100 / (1 + gain/loss)`. It is NaN exactly when both means are 0, and otherwise lies in [0, 100]. It is 100 exactly when losses are 0 and gains positive (rs = inf), and 0 exactly when gains are 0 and losses positive. |
| Indicators.Rsi | finance_engine.py:85-90 | The RSI column is aligned with the closes. |
| Indicators.RsiAt | finance_engine.py:85-90 | The RSI at day i is defined exactly when i ≥ 13 and some close moved in its 14-day window. It lies in [0, 100], and it is 100 when no close in the window fell. |
| Indicators.RsiOfRisingHistory | finance_engine.py:85-90 | On a history where no close ever falls, the RSI is 100 wherever it is defined. |
| Indicators.Technicals | finance_engine.py:72-92 | An empty history gives no result (lines 78-79). Otherwise the three columns are the 50- and 200-day rolling means and the RSI series, aligned with the closes, with SMA 50 present from index 49 and SMA 200 from index 199. |
| Growth.EarliestIndex | finance_engine.py:189-191 | The first point of the ascending sort by period: a smallest period, and the first such point. |
| Growth.LatestIndex | finance_engine.py:189-192 | The last point of the ascending sort by period: a largest period, and the last such point. |
| Growth.HistoricalGrowthTerms | finance_engine.py:177-201 | There is a result exactly when there are at least two periods and the earliest revenue is positive; otherwise NaN. Then years = count - 1 ≥ 1, and ratio × earliest revenue = latest revenue. |
| Growth.IsCagrPct | finance_engine.py:198 | Stands in for `(end / start) ** (1 / years) - 1`. A rate satisfying it is at least -100 %, and a rate above -100 % implies a positive revenue ratio. |
| Growth.CagrPctUnique | finance_engine.py:198-199 | Among rates of at least -100 %, at most one satisfies (1 + p/100)^years = ratio for years ≥ 1, so the CAGR is well defined. |
| Growth.FactorsBelow | finance_engine.py:198 | A smaller non-negative yearly factor compounds to a strictly smaller ratio, including a factor of 0. |
| Growth.VanishedRevenueIsMinusHundred | finance_engine.py:191-199 | When the latest revenue is 0 and the earliest is positive, the ratio is 0 and -100 % is the CAGR. |
| Growth.CagrExamples | finance_engine.py:184-199 | Revenues 121, 100, 110 listed out of order for 2023, 2021, 2022 give ratio 1.21 over 2 years, and 10 % solves it. The first and last alone give 1.21 over 1 year, and 21 % solves it. |
| Dashboard.Truthy | app.py:186 | Python truthiness of a screen reading: falsy exactly for None and 0, so NaN is truthy. Also used at app.py:234. |
| Dashboard.RsiLabel | app.py:154-159 | Overbought exactly when RSI > 70. Oversold exactly when RSI < 30. Neutral otherwise, including a NaN RSI. |
| Dashboard.LatestRsiLabel | app.py:146-159 | The label for `hist['RSI'].iloc[-1]`. It is Neutral for fewer than 14 closes and when the last 14 days saw no move, and Overbought when they saw a move but no fall. |
| Dashboard.RisingHistoryReadsOverbought | app.py:146-159 | A history without a falling close reads Overbought once its last RSI is defined. |
| Dashboard.ValuationVerdict | app.py:197-201 | No verdict when historical growth is NaN. Undervalued exactly when the implied growth is a number strictly below it. Overvalued otherwise, including a NaN implied growth and equality. |
| Dashboard.ProjectedCashFlows | app.py:208-210 | Ten bars, bar i being the cash flow compounded i + 1 years at the implied growth. These are the same flows the valuation discounts. |
| Dashboard.ProjectionCompounds | app.py:208-210 | The first bar is one year's growth, and each later bar is the previous one times (1 + implied/100). |
| Dashboard.ProjectionRises | app.py:208-210 | With positive cash flow and positive implied growth the bars strictly rise. |
| Dashboard.ImpliedPct | app.py:187-192 | The implied growth is a number exactly when the solver solved, and then it is the solver's percentage. |
| Dashboard.AsOption | app.py:183-188 | A screen reading is passed to the engine as present exactly when it is a number. |
| Dashboard.SolveImpliedGrowth | app.py:187-189 | `calculate_reverse_dcf` on the screen's readings, through the checked solver. It is missing exactly when the guard fails, rejected exactly when the guard passes but the rates are unsound, and never a division by zero. A solved answer comes from three numeric readings and is a bisection result for target = price × shares, with every root within 1.5 / 2^iterations of it. |
| Dashboard.ValuationTab | app.py:177-213 | Shows "insufficient data" exactly when cash flow or shares is falsy. It rejects unsound rates exactly when the inputs are usable and tg ≥ r or r ≤ -1. Otherwise the implied growth is solved exactly when the inputs are usable, and then lies in (-50, 100). The verdict is `ValuationVerdict` of it, and the projection is present exactly when solved and equals `ProjectedCashFlows`. A solved growth is the solver's answer for target = price × shares: all three readings are numbers, the rates are sound, it is a bisection result (converged exactly when within tolerance), and every root lies within 1.5 / 2^iterations of it. |
| Dashboard.SlidersReachZeroDivision | app.py:179-180 | Both sliders can be set to 5 %, and at r = tg = 0.05 the unchecked valuation divides by zero. |
| Dashboard.SliderPairsOtherwiseSound | app.py:179-180 | Every other pair of slider positions satisfies tg < r and r > -1. |
| Dashboard.RevGrowthPct | app.py:234 | A falsy revenue growth (None or 0) becomes 0, a NaN stays NaN, and a number is scaled to percent; the result is never None. |
| Dashboard.Record | app.py:232-249 | One row of `comp_data`: the given ticker and role, EV/EBITDA and net margin as fetched, and revenue growth 0 exactly when the fetched growth is falsy, NaN when it is NaN and the percentage of a number. |
| Dashboard.PeerRecords | app.py:240-249 | The reference definition of the loop: one Peer record appended per competitor whose fetch returned data. There are never more of them than competitors, and every one is a Peer row. |
| Dashboard.PeerRecordsShape | app.py:240-249 | The number of peer records is the number of competitors whose data came back, which is at most the list's length. Every record is a Peer row for a listed ticker whose fetch succeeded, and it carries that fetch's fields. |
| Dashboard.PeerRecordsPrefix | app.py:240-249 | The records gathered from a prefix of the competitor list are a prefix of the records from the whole list. |
| Dashboard.PeerRecordsInOrder | app.py:240-249 | The records keep list order. A competitor whose data came back is at the position given by the number of earlier competitors fetched, with its own ticker and fetched fields. |
| Dashboard.BuildComparison | app.py:230-249 | The loop's table is the target's record followed by the peer records, in list order. |
| Dashboard.ComparisonHasTarget | app.py:230-249 | The built table has 1 to 1 + (number of competitors) rows. The first row is the Target row for the symbol and all others are Peer rows. |
| Dashboard.FilledMargin | app.py:263 | `fillna(0)`: a number is kept, and None or NaN becomes 0. |
| Dashboard.MarkerSize | app.py:264-266 | The marker size is abs(margin) when the margin is non-zero and 0.01 when it is zero, so it is always positive. |
| Dashboard.Normalised | app.py:263-266 | After normalisation a row's net margin is a number with its sign kept and its marker size is positive. No other field changes. |
| Dashboard.NormalisedIdempotent | app.py:257-266 | The stored table is normalised again on every rerun. A second pass changes nothing. |
| Dashboard.ComparisonFrame.NormaliseMargins | app.py:263-266 | The three column assignments overwrite the stored table in place, row by row, with `Normalised` of the old row. |
| Dashboard.RowsWhereTicker | app.py:280-283 | The selection of rows whose ticker equals (or differs from) the symbol returns no more rows than the table, each of them a row of the table with the required ticker relation. |
| Dashboard.SplitPartitions | app.py:280-283 | The target and peer selections together are a permutation of the table. |
| Dashboard.SplitAfterNormalise | app.py:263-283 | Selecting by ticker commutes with normalising. |
| Dashboard.TargetFoundAfterBuild | app.py:280-289 | On a built and normalised table the first target row is the target's own record, so the "not found" warning (line 289) cannot appear. The peers are the normalised competitor rows whose ticker differs from the symbol. |
| ResponseCleanup.LeadingSpaces | agent_engine.py:57 | The count of leading whitespace characters: all of them are whitespace, and the next character is not. |
| ResponseCleanup.TrailingSpaces | agent_engine.py:57 | The count of trailing whitespace characters: all of them are whitespace, and the one before is not. |
| ResponseCleanup.Strip | agent_engine.py:57 | `strip()`: a contiguous slice of the input. Everything outside it is Python whitespace, and it neither starts nor ends with whitespace. |
| ResponseCleanup.StripIdempotent | agent_engine.py:57 | Stripping twice is stripping once. |
| ResponseCleanup.RemoveAll | agent_engine.py:57 | `replace(pat, "")`, scanning left to right over non-overlapping occurrences; never longer than its input. |
| ResponseCleanup.RemovesOnlyCharacters | agent_engine.py:57 | The replacement only removes characters: the result's multiset of characters is contained in the input's. |
| ResponseCleanup.RemoveAllIsSubsequence | agent_engine.py:57 | The replacement only deletes. What is left is a subsequence of the input: its characters, in their order. |
| ResponseCleanup.SubsequenceTransitive | agent_engine.py:57 | A subsequence of a subsequence is a subsequence, so the two replacements together only delete. |
| ResponseCleanup.SubsequenceOfSuffix | agent_engine.py:57 | A subsequence of a suffix is a subsequence of the whole text, as when a removed fence is skipped. |
| ResponseCleanup.Clean | agent_engine.py:57 | The cleaned answer is a subsequence of the stripped answer. It contains no "```" and no "```json", and it is no longer than the raw answer. |
| ResponseCleanup.RunRemoval | agent_engine.py:57 | A run of n backticks followed by a non-backtick loses three at a time: n mod 3 survive. |
| ResponseCleanup.NoFenceAfterRemoval | agent_engine.py:57 | After removing "```" no "```" remains, even where removals bring backticks together. |
| ResponseCleanup.NoOccurrenceUnchanged | agent_engine.py:57 | Text in which the pattern never occurs is left unchanged. |
| ResponseCleanup.CleanUnwrapsFencedJson | agent_engine.py:57 | A body without backticks wrapped as "```json" + body + "```" comes out as exactly the body. |
| ResponseCleanup.CleanOfTickFreeText | agent_engine.py:57 | An answer without backticks is only stripped. |
| ResponseCleanup.CleanAgainOnlyStrips | agent_engine.py:57 | Cleaning a cleaned answer only strips it again. |

## Left out

- Market data, price history, financial statements and the language model are parameters or
  inputs. This covers the yfinance calls, the LLM calls in agent_engine.py other than the
  response clean-up, and `json.loads` of the competitor answer (app.py:225). The competitor
  list is taken as a list of strings and the per-ticker fetch as a function returning an
  optional record.
- Streamlit rendering, the charts, session-state plumbing and the ownership tab are not part
  of this model. test_engines.py is not part of this model either.
- Floating point is modelled by exact reals. Rounding, overflow to infinity and the NaN
  produced by a negative ratio with a fractional exponent are not modelled.
- Growth.HistoricalGrowthTerms: stops before the fractional power `** (1 / years)`, which has
  no counterpart over Dafny's reals. The rate is characterised by `Growth.IsCagrPct` and its
  uniqueness lemma, and the valuation tab takes the historical percentage as an input.
  Revenue cells that are themselves NaN are not modelled.
- Growth.IsCagrPct: admits no rate below -100 %. With one year and a negative latest revenue
  the source's power `** 1.0` keeps the negative ratio and returns a rate below -100 %; that
  output is not characterised. With more years a negative ratio gives NaN, as noted above.
- Growth.EarliestIndex: assumes periods are distinct or that the sort is stable. pandas'
  default `sort_index` does not promise stability on equal dates.
- Dcf.CheckedReverseDcf: also rejects a discount rate below -100 %. There the valuation is
  defined, but the discount factor (1 + r)^i alternates in sign, and the search direction is
  not proved. The sliders never produce such a rate.
- Dashboard.ValuationTab: uses `Dcf.CheckedReverseDcf` rather than the solver as written.
  The unchecked behaviour, an uncaught ZeroDivisionError at r = tg, is modelled by
  `Dcf.CalculateReverseDcf`.
- Dashboard.ComparisonFrame.NormaliseMargins: the RevGrowth and EVEBITDA columns keep their
  `Reading` values. A table with an all-missing column of object dtype is not distinguished
  from a float column.
- Indicators.Technicals: takes the close series only; Open, High and Low pass through to the
  chart untouched.

## Findings

| source | as written | input that shows it | evidently intended | confidence | as-written member | corrected member |
|---|---|---|---|---|---|---|
| finance_engine.py:144, app.py:179-180 | the terminal value divides by `discount_rate - terminal_growth_rate` with no check, and the sliders allow both rates to be 5 % | discount slider 5.0, terminal slider 5.0 (r = tg = 0.05): ZeroDivisionError escapes from the valuation tab | reject assumptions with terminal growth not below the discount rate before the search | not executed | Dcf.CalculateReverseDcf, Dashboard.SlidersReachZeroDivision | Dcf.CheckedReverseDcf |
