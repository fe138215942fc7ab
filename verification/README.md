# Trading-bot signal engine in Dafny

This project models the signal engine of a small stock-analysis bot
(`StockBot` in `main.py`). The bot attaches five indicator columns to a
price table: SMA20, SMA50, RSI, MACD and the MACD signal line. It then
derives three votes per bar, each -1 (sell), 0 (hold) or +1 (buy):

- an SMA crossover vote;
- an RSI level vote;
- a MACD crossover vote.

It merges the three votes into one combined signal per bar. Finally it
turns the combined signal of the latest bar into a BUY, SELL or HOLD
recommendation.

The indicator columns come from an external library. They are taken as
given: each is a sequence of `Option<real>`, and `None` stands for a NaN.
Examples are the leading bars of a rolling window and the row that
`shift(1)` has no predecessor for. Every ordering comparison with a NaN is
false, as in numpy.

Modules:

- `Options`: the optional value.
- `Series`: NaN-aware comparisons and `shift(1)`.
- `Frames`: the price table with its indicator columns, and the signal table.
  A `Frame` is rectangular by its type.
- `Votes`: the crossover rule, the threshold rule and the combination rule.
  Each rule has a reference predicate (`CrossSpec`, `ThresholdSpec`,
  `Resolves`) that states the rule in terms of bars t and t-1.
- `Signals`: `GenerateSignals` and the lemmas about whole signal tables.
- `Report`: the recommendation mapping and the headline analysis.

Behaviour worth noting:

- The code votes 0 when any one compared value is missing, not only when
  both are.
- Windows and RSI thresholds are fixed constants (20/50, 14, 12/26/9 and
  30/70). They are not parameters. The threshold rule is written with
  general thresholds only to state the overbought-wins precedence. The model
  instantiates it with 30 and 70.
- With no data, the program prints an error and produces nothing. It has no
  distinct "data unavailable" report. `Analyze` returns `None`.
- Any combined signal other than 1 or -1 is reported as HOLD.

## Model

| member | source | states |
|---|---|---|
| Series.Le | main.py:60-77 | numpy `<=` on float cells: false when either is NaN, otherwise the real comparison |
| Series.Ge | main.py:60-77 | numpy `>=` on float cells: `a >= b` exactly when `b <= a`, false when either is NaN |
| Series.Lt | main.py:60-77 | numpy `<` on float cells: false when either is NaN, otherwise the negation of `b <= a` |
| Series.Gt | main.py:60-77 | numpy `>` on float cells: `a > b` exactly when `b < a`, false when either is NaN |
| Series.MissingComparesFalse | main.py:59-65 | a comparison involving a NaN is false in every direction; with both operands present `>`/`<=` and `<`/`>=` are complements |
| Series.Shift | main.py:59-65 | `shift(1)` keeps the length, makes the first row missing and moves row t-1 to row t |
| Votes.CrossVotes | main.py:59-65 | the SMA (and, reused, MACD) crossover column: +1 exactly when fast > slow at t and fast <= slow at t-1, -1 exactly when fast < slow at t and fast >= slow at t-1, 0 otherwise, including at bar 0 and whenever a value is missing |
| Votes.CrossDirectionsExclusive | main.py:59-65 | the upward and downward conditions never both hold, so the sell overwrite never erases a buy |
| Votes.DownCrossNotMissed | main.py:62-65 | across a stretch where both lines exist, going from at-or-above to strictly below always produces a -1 vote at some bar of the stretch |
| Votes.UpCrossNotMissed | main.py:59-61 | across a stretch where both lines exist, going from at-or-below to strictly above always produces a +1 vote at some bar of the stretch |
| Votes.TouchFromAboveThenRiseBuys | main.py:59-65 | for all inputs: a fast line above the slow line at t-1, equal at t and above again at t+1 votes 0 at t and +1 at t+1, because a touch from above is no downward cross |
| Votes.TouchThenRiseGivesSecondBuy | main.py:59-65 | a four-bar instance whose vote column is [0, 1, 0, 1]: two buys with no sell between them |
| Votes.ThresholdVotes | main.py:68-69 | threshold column: -1 exactly above the overbought level, +1 exactly below the oversold level when not overbought, 0 otherwise, including for a missing value |
| Votes.RsiVotes | main.py:68-69 | with 30/70: +1 iff RSI < 30, -1 iff RSI > 70, 0 iff RSI is missing or within [30, 70] |
| Votes.OverboughtTakesPrecedence | main.py:68-69 | a value that triggers both thresholds votes -1, because the > overbought assignment is applied second |
| Votes.Combine | main.py:81-84 | the combined vote is one of the three votes; the minimum when any is negative, else the maximum; on proper votes -1 iff some vote is -1, +1 iff some vote is +1 and none is -1, 0 iff all are 0 |
| Votes.SellDominatesBuy | main.py:81-84 | an SMA buy, RSI hold and MACD sell combine to sell |
| Signals.GenerateSignals | main.py:48-86 | no table when the data is missing or empty; otherwise one row per input row, Price equal to Close, each vote column following its rule and each Signal resolving the votes of its own row |
| Signals.SignalMeaning | main.py:59-84 | Signal at bar t is -1 iff some strategy's sell condition holds at t, +1 iff none sells and some buys, 0 iff none does either |
| Signals.FirstBarHasNoCrossVote | main.py:59-78 | the first bar's SMA and MACD votes are 0, because `shift(1)` has no predecessor there |
| Signals.MissingSilencesCross | main.py:59-78 | a missing SMA or MACD value at t or t-1 makes that crossover vote 0 at t |
| Signals.SignalIsLocal | main.py:54-84 | two tables that agree on the indicator values at t and t-1 have the same Signal at t |
| Signals.SmaDownCrossSells | main.py:59-84 | an SMA20 fall through SMA50 over a defined stretch yields a combined sell at some bar of it, whatever RSI and MACD say |
| Signals.MacdDownCrossSells | main.py:72-84 | a MACD fall through its signal line over a defined stretch yields a combined sell at some bar of it |
| Report.Recommend | main.py:115-120 | BUY iff the signal is 1, SELL iff it is -1, HOLD for every other value |
| Report.RecommendRoundTrip | main.py:115-120 | on votes, the recommendation mapping and `VoteOf` are mutually inverse |
| Report.Analyze | main.py:88-120 | no summary when the fetch failed or the table is empty; otherwise the latest price and indicator values, and SELL iff some strategy sells at the latest bar, BUY iff none sells and some buys, HOLD otherwise |

## Left out

- `fetch_data` and `get_historical_data` (main.py:17-27, 122-126) are left
  out. They do network I/O through yfinance and handle its exceptions.
  `Analyze` takes the fetched table as a parameter, with `None` for a failed
  fetch.
- The indicator arithmetic of `calculate_indicators` (main.py:29-46) is
  left out. It is floating-point work done by an external library whose
  source is not available here. The five indicator columns are inputs.
- The MACD histogram column (main.py:46) is left out. Nothing downstream
  reads it.
- Console output, number formatting and the `datetime.now()` timestamp
  (main.py:108-113) are left out. So is the `__main__` wiring
  (main.py:128-139).
- The mutable `self.data` attribute is left out. The stages are pure
  functions over immutable tables. Calling signal generation before the
  indicators are attached is not modelled, because `analyze` always attaches
  them first.
- Close prices are plain reals. A NaN close is not modelled, because only
  the indicator columns are compared.
