# Backtest engine and vote rule, modelled in Dafny

This project models two pieces of a small trading-strategy backtester.

The first is the backtest engine, `BacktestEngine` in `src/backtest.py`. It
keeps a cash balance, a FIFO queue of open positions and an append-only trade
ledger. It replays a strategy's BUY/SELL signals against a price series; BUY
opens a position at the bar's close, and SELL closes the oldest open position
and books its pnl. It then reports total return, win rate, a Sharpe value and
the maximum drawdown.

The second is the majority vote of `TechnicalAnalysis.generate_signal` in
`src/indicators.py`. The latest row's RSI, MACD and Bollinger bands each cast
at most one BUY or SELL vote. The majority wins with its share of the votes as
confidence, and a tie gives HOLD with 0.5.

Files:

- `backtest.dfy` (module `Backtest`) holds the values the engine works with:
  bars, signals, positions, trades, the account and the result record.
  - `Step` is one iteration of the signal loop as a pure function on the
    account, and `Replay` is the whole loop.
  - It also holds the metrics, each a function of the ledger.
- `backtest_lemmas.dfy` (module `BacktestLemmas`) holds what the replay
  guarantees: balance consistency, trade and position counts, and FIFO
  matching. It also holds the properties of the metrics, concrete runs and the
  drawdown finding.
- `engine.dfy` (module `Engine`) is the engine as a class whose fields persist
  across runs, with the source's loops. Each method is proved against `Replay`
  and the metric functions.
- `indicators.dfy` (module `Indicators`) is the vote rule.

Prices, sizes and pnl are exact reals.

- Each signal is a record of an action and an optional size. BUY and SELL are
  distinguished; any other action string is `Other(name)` and changes nothing.
  `name` is never "BUY" or "SELL".
- The price frame is a sequence of bars. Each bar has its close and its row
  label as an integer timestamp.
- Signal `i` is replayed against bar `i`, so a run requires at least as many
  bars as signals. This is the indexing `data.iloc[i]` does.
- The drawdown loop divides by a peak seeded at the initial balance, so a
  run requires the initial balance to be positive (see "Left out").

The Sharpe value `mean / (std + 1e-9)` needs a square root. It is kept
symbolic as `Quotient(mean, variance)`: the mean pnl and the population
variance, which is the square of NumPy's default standard deviation.
`Sharpe.Value(root)` evaluates the quotient once a square root of the variance
is supplied.

Where the engine's drawdown loop and the intended drawdown differ, the
engine's code is modelled as written. The corrected drawdown is modelled
beside it; see "Findings".

## Model

| member | source | states |
|---|---|---|
| Backtest.Report | src/backtest.py:47-59 | the result of a run: num_trades is the ledger's length; win rate lies in [0, 100]; max drawdown is non-negative; Sharpe is the zero guard exactly when fewer than 2 trades exist; total return is 0 exactly when the balance after the loop equals the initial balance |
| Backtest.SizeOf | src/backtest.py:65 | reference definition of the position size (the signal's size, or 0.1 when it has none), used by NewPosition and OpenPosition |
| Backtest.NewPosition | src/backtest.py:63-67 | reference definition of an opened position (the row's close, SizeOf of the signal, the row's label), used by Step, OpenPosition and ReplayFifo |
| Backtest.CloseTrade | src/backtest.py:75-84 | reference definition of the trade a close records (entry, exit, (exit - entry) * size, label), used by Step, ClosePosition and ReplayFifo |
| Backtest.Step | src/backtest.py:41-45 | reference definition of one loop iteration (BUY opens, SELL closes the oldest position if any, anything else is skipped), used by Replay, RunBacktest, StepKeeps and StepCloses |
| Backtest.Replay | src/backtest.py:41-45 | reference definition of the whole signal loop as a fold of Step over bars and signals in order, used by RunBacktest's loop invariant and the replay lemmas |
| Backtest.TotalPnl | src/backtest.py:77 | reference definition of the ledger's summed pnl (what the closes add to the balance), used by Mean, PeakEquity, RunBacktest, CalculateMaxDrawdown, ReplayKeepsBalance and FreshRun |
| Backtest.Wins | src/backtest.py:90 | the number of winning trades is at most the number of trades |
| Backtest.WinRate | src/backtest.py:86-91 | win rate lies in [0, 100], and is 0 for an empty ledger |
| Backtest.Mean | src/backtest.py:98 | reference definition of `np.mean` of the pnl (their sum over their number), used by Variance and SharpeRatio |
| Backtest.SharpeRatio | src/backtest.py:93-98 | the zero guard is returned exactly when there are fewer than 2 trades; otherwise the quotient's variance is non-negative |
| Backtest.Sharpe.Value | src/backtest.py:95-98 | the zero guard denotes 0; otherwise the Sharpe value has the sign of the mean pnl (positive exactly when the mean is, negative exactly when the mean is) |
| Backtest.SquaredDeviation | src/backtest.py:97-98 | the sum of squared deviations of the pnl is non-negative |
| Backtest.Variance | src/backtest.py:97-98 | the population variance of the pnl is non-negative |
| Backtest.PeakEquity | src/backtest.py:104-110 | the running peak never falls below its seed, nor below the running value after the last trade |
| Backtest.MaxDrawdownFraction | src/backtest.py:105-112 | the largest drop below the peak is non-negative |
| Backtest.DrawdownAsWritten | src/backtest.py:100-114 | the drawdown as the source computes it is non-negative and 0 for an empty ledger |
| Backtest.MaxDrawdown | src/backtest.py:100-114 | the drawdown with each pnl counted once is non-negative and 0 for an empty ledger |
| BacktestLemmas.TotalPnlAppend | src/backtest.py:77-84 | appending a trade adds its pnl to the ledger's total |
| BacktestLemmas.ReplayKeepsBalance | src/backtest.py:41-45 | if the balance is the initial balance plus the ledger's pnl before the loop, it still is after it |
| BacktestLemmas.ReplayCounts | src/backtest.py:41-45 | the trades a replay appends are the SELLs that found an open position; open positions plus trades grow by exactly the number of BUYs |
| BacktestLemmas.StepKeeps | src/backtest.py:42-45 | a BUY, an other action, or a SELL on an empty queue appends no trade and keeps the queue of every position ever opened |
| BacktestLemmas.StepCloses | src/backtest.py:72-78 | a SELL on a non-empty queue consumes the head of the queue of every position ever opened |
| BacktestLemmas.ReplayFifo | src/backtest.py:41-45 | FIFO matching: the ledger only grows at the back; the k-th trade appended closes the k-th position ever queued, with that position's entry price and size; the open positions are the rest of that queue |
| BacktestLemmas.FreshRun | src/backtest.py:21-59 | on a fresh engine: the balance is the initial balance plus the ledger's pnl; total return is that pnl over the initial balance; num_trades is the number of effective SELLs; with none, every metric is 0 |
| BacktestLemmas.AllWinsIff | src/backtest.py:90 | every trade has positive pnl exactly when the win count is the ledger's length |
| BacktestLemmas.NoWinsIff | src/backtest.py:90 | no trade has positive pnl exactly when the win count is 0 |
| BacktestLemmas.WinRateExtremes | src/backtest.py:86-91 | on a non-empty ledger the win rate is 100 exactly when all trades win, and 0 exactly when none does |
| BacktestLemmas.TotalPnlConstant | src/backtest.py:97 | a ledger of n trades, each with pnl p, sums to n * p |
| BacktestLemmas.SquaredDeviationZero | src/backtest.py:98 | if every pnl equals m, the squared deviations from m sum to 0 |
| BacktestLemmas.SquaredDeviationPositive | src/backtest.py:98 | if some pnl differs from m, the squared deviations from m are positive |
| BacktestLemmas.VarianceZeroIff | src/backtest.py:98 | the variance is 0 exactly when every trade has the mean pnl |
| BacktestLemmas.IdenticalPnlSharpe | src/backtest.py:93-98 | with at least 2 trades of identical pnl p, the Sharpe value is p / 1e-9 |
| BacktestLemmas.DrawdownMonotone | src/backtest.py:107-112 | the drawdown over a prefix of the ledger never exceeds the drawdown over the whole ledger |
| BacktestLemmas.MaxDrawdownMonotone | src/backtest.py:100-114 | the corrected drawdown is non-decreasing in the ledger prefix |
| BacktestLemmas.DrawdownCoversEveryStep | src/backtest.py:111-112 | the maximum drawdown is at least the drop below the peak after every trade |
| BacktestLemmas.TwoRoundTrips | src/backtest.py:28-114 | two round trips from 10000 (+10, then -20): balance 9990, return -0.001, win rate 50, 2 trades, Sharpe quotient of mean -5 and variance 225, drawdown 0.2 as written and 200/1001 corrected |
| BacktestLemmas.FifoOrder | src/backtest.py:61-84 | BUY@10, BUY@20, SELL@15, SELL@25 with no size: the first trade closes the 10 position and the second the 20 position, each of size 0.1 |
| BacktestLemmas.DrawdownDoubleCount | src/backtest.py:108 | one trade of -100 on 10000: the source reports 2 %, the corrected drawdown 1 % |
| BacktestLemmas.SingleLossDrawdown | src/backtest.py:104-114 | the corrected drawdown of one losing trade is its loss over the initial balance, in percent |
| BacktestLemmas.NoLossNoDrawdown | src/backtest.py:104-112 | with the running value seeded at the initial balance, a ledger without losses has drawdown 0 and its peak is the final equity |
| Engine.BacktestEngine.constructor | src/backtest.py:21-25 | a new engine holds the initial balance (10000 when none is given), no positions and no trades |
| Engine.BacktestEngine.RunBacktest | src/backtest.py:28-59 | positions and ledger after a run are the replay of the signals from the engine's state before it, which carries over from earlier runs; the balance is the replayed balance, plus the ledger's pnl a second time from the drawdown loop; the result is Report of the replayed account; when the balance was consistent before the run, total return is the ledger's pnl over the initial balance and the balance ends at the initial balance plus twice the pnl |
| Engine.BacktestEngine.OpenPosition | src/backtest.py:61-68 | a BUY appends exactly one position at the back, at the row's close, of the signal's size or 0.1, at the row's label; balance and ledger unchanged |
| Engine.BacktestEngine.ClosePosition | src/backtest.py:70-84 | on an empty queue nothing changes; otherwise the oldest position is removed, the rest of the queue kept, one trade (entry, exit, (exit - entry) * size, label) appended and exactly that pnl added to the balance |
| Engine.BacktestEngine.CalculateMaxDrawdown | src/backtest.py:100-114 | returns DrawdownAsWritten of the ledger from the balance at the call, and adds the ledger's pnl to the balance again |
| Indicators.Count | src/indicators.py:61-62 | the count of one action never exceeds the length of the vote list |
| Indicators.CountConcat | src/indicators.py:61-62 | counting distributes over concatenation of vote lists |
| Indicators.RsiVote | src/indicators.py:43-46 | the RSI condition casts BUY or SELL or nothing, never HOLD |
| Indicators.MacdVote | src/indicators.py:49-52 | the MACD condition casts BUY or SELL or nothing, never HOLD |
| Indicators.BollingerVote | src/indicators.py:55-58 | the Bollinger condition casts BUY or SELL or nothing, never HOLD |
| Indicators.BuyVotes | src/indicators.py:43-58 | the number of indicators whose condition says BUY, at most 3 |
| Indicators.SellVotes | src/indicators.py:43-58 | the number of indicators whose condition says SELL (elif order kept), at most 3 |
| Indicators.ListedCounts | src/indicators.py:42-58 | one indicator's entry in the list counts 1 for its action and 0 for the other, and holds nothing but BUYs and SELLs |
| Indicators.Votes | src/indicators.py:40-58 | the vote list's BUY and SELL counts are the per-indicator conditions, at most one vote per indicator, so it holds at most 3 entries and nothing but BUYs and SELLs |
| Indicators.QuotientBetween | src/indicators.py:65-67 | a quotient m / n with n / 2 < m <= n lies in (1/2, 1] |
| Indicators.MajorityShare | src/indicators.py:64-67 | a strict majority's share of the votes lies in (1/2, 1] |
| Indicators.Decide | src/indicators.py:64-69 | BUY exactly when buy votes outnumber sell votes, SELL exactly for the reverse, HOLD exactly on a tie (zero votes included); the confidence is the winner's count over the number of votes, in (1/2, 1]; HOLD has confidence 0.5 |
| Indicators.GenerateSignal | src/indicators.py:38-69 | counting the vote list of the latest row gives the majority rule applied to the per-indicator BUY and SELL conditions of that row |
| Indicators.SellVotesWithOrderedBands | src/indicators.py:43-58 | when the lower band is at most the upper band, the elif order does not change the SELL count |
| Indicators.Unanimous | src/indicators.py:64-67 | votes on one side only give that side with confidence 1 |
| Indicators.OversoldExamples | src/indicators.py:43-69 | RSI 25, MACD above its line and the close inside the bands give BUY with 1.0; MACD below its line instead gives HOLD with 0.5 |

## Left out

- Logging (src/backtest.py:26) is observability only.
- `strategy.generate_signals(data)` (src/backtest.py:39) calls code that is not part of this model. The signal sequence is a parameter of `RunBacktest`.
- The pandas DataFrame is a sequence of bars holding the close and the row label. `data.iloc[i]` with `i` beyond the frame raises an error; the model requires at least as many bars as signals instead.
- Engine.BacktestEngine.RunBacktest: signals past the end of the frame whose action is neither BUY nor SELL are not modelled. The source reads `data.iloc[i]` only in the BUY and SELL branches (src/backtest.py:42-45), so trailing HOLD signals run there; the model's `Replay` pairs every signal with a bar, and so requires `|signals| <= |data|`.
- Engine.BacktestEngine.RunBacktest: a negative initial balance is not modelled. The source runs on it (initial -100 and one +10 trade gives total return -0.1 and drawdown 0), but its drawdown loop divides by a peak seeded at the initial balance, which can then be 0 (a division error) or negative. The model's drawdown is stated for a positive peak only, so `Report`, `DrawdownAsWritten`, `MaxDrawdown`, `RunBacktest` and `CalculateMaxDrawdown` require `initialBalance > 0`, which keeps the peak positive.
- The action is a dictionary string in the source. The model has `Buy`, `Sell` and `Other(name)`, where `name` is any string other than "BUY" and "SELL"; the engine treats all of those alike.
- Backtest.SharpeRatio: the floating-point value `mean / (std + 1e-9)` is not computed. The model keeps the mean and the variance, and `Sharpe.Value` evaluates the quotient given a square root.
- Floating-point rounding, NaN and infinity are not modelled. The source's division by a zero initial balance is excluded by the precondition `initialBalance > 0`, as is a zero peak in the drawdown loop.
- Sizes and prices are not validated by the engine, and no constraint is placed on them here.
- Indicators.GenerateSignal: the source builds the vote list by appends in an if/elif chain. The model builds the same list as a function of the row, one indicator at a time (`Votes`). `df.iloc[-1]` on an empty frame raises an error; the model requires a non-empty frame.
- The indicator computations `calculate_rsi`, `calculate_macd`, `calculate_bollinger_bands` and `add_all_indicators` (src/indicators.py:4-36) are left out. They are floating-point window computations through pandas; the model takes the latest row's indicator values as an input record.
- NaN comparisons in `generate_signal` are not modelled.
- `src/lstm_model.py` is not part of this model; it is neural-network training and prediction.
- `src/main.py` is not part of this model; it is command-line orchestration, the clock and logging.
- The test suite is not part of this model; it only checks that columns and models exist.

The Sharpe denominator is NumPy's default standard deviation (`np.std` with
ddof 0, the population standard deviation), which the model follows. The
drawdown loop counts each pnl twice; see "Findings".

## Findings

| source | as written | input that shows it | evidently intended | confidence | as-written member | corrected member |
|---|---|---|---|---|---|---|
| src/backtest.py:108 | the drawdown loop adds each trade's pnl to `self.balance`, which already includes every pnl from the signal loop, while `peak` starts at `initial_balance`; each pnl is counted twice, and the engine's balance is left off by the ledger's total pnl | initial balance 10000, one trade with pnl -100: balance 9900 after the loop, the drawdown loop runs it to 9800 and reports 2.0 % | a running equity seeded at the initial balance, each pnl added once: the same input gives 1.0 %, and the balance stays at 9900 | not executed | BacktestLemmas.DrawdownDoubleCount (over Backtest.DrawdownAsWritten, which Engine.BacktestEngine.CalculateMaxDrawdown implements) | Backtest.MaxDrawdown, with BacktestLemmas.MaxDrawdownMonotone, BacktestLemmas.SingleLossDrawdown and BacktestLemmas.NoLossNoDrawdown |

The engine itself is modelled as written, so `RunBacktest` reports the
as-written drawdown and leaves the balance at the initial balance plus twice
the ledger's pnl. A second run on the same engine then starts from that
balance. `MaxDrawdown` is the drawdown the engine is meant to report.
