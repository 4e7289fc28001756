/** The values the backtest engine of src/backtest.py works with, one replay step of
    its signal loop as a pure function over the account, and the metrics it derives from
    the trade ledger. Prices, sizes and pnl are exact reals. */
module Backtest {

  datatype Option<T> = None | Some(value: T)

  /** Size of a position when the signal carries none. */
  const DEFAULT_SIZE: real := 0.1

  /** The constant added to the standard deviation in the Sharpe quotient. */
  const EPS: real := 0.000000001

  /** One row of the price frame: its index label and its closing price. */
  datatype Bar = Bar(timestamp: int, close: real)

  /** An action string other than "BUY" and "SELL". */
  type OtherName = s: string | s != "BUY" && s != "SELL" witness "HOLD"

  /** The action string of a signal: "BUY", "SELL", or any other string (such
      as "HOLD"), which the engine ignores. */
  datatype Action = Buy | Sell | Other(name: OtherName)

  /** One decision of the strategy. `size` is None when the signal has no size entry. */
  datatype Signal = Signal(action: Action, size: Option<real>)

  /** An open position, opened at the row labelled `timestamp`. */
  datatype Position = Position(entryPrice: real, size: real, timestamp: int)

  /** A closed round trip, closed at the row labelled `timestamp`. */
  datatype Trade = Trade(entry: real, exit: real, pnl: real, timestamp: int)

  /** The engine's mutable part: cash balance, FIFO queue of open positions
      (oldest first) and the append-only trade ledger. */
  datatype Account = Account(balance: real, positions: seq<Position>, trades: seq<Trade>)

  /** The Sharpe value, kept symbolic. `Zero` is the 0.0 the guard returns;
      `Quotient(m, v)` stands for m / (sqrt(v) + EPS), the mean pnl over the
      population standard deviation. */
  datatype Sharpe = Zero | Quotient(mean: real, variance: real) {

    /** The number a Sharpe value denotes, given a square root of its variance. */
    function Value(root: real): (v: real)
      requires Quotient? ==> root >= 0.0 && root * root == variance
      ensures Zero? ==> v == 0.0
      ensures Quotient? ==> (v > 0.0 <==> mean > 0.0) && (v < 0.0 <==> mean < 0.0)
    {
      if Zero? then 0.0
      else
        var d := root + EPS;
        assert d > 0.0;
        assert mean > 0.0 ==> mean / d > 0.0;
        assert mean < 0.0 ==> mean / d < 0.0;
        mean / d
    }
  }

  /** The summary a run returns. */
  datatype BacktestResult = BacktestResult(
    totalReturn: real,
    sharpeRatio: Sharpe,
    maxDrawdown: real,
    winRate: real,
    numTrades: int)

  // ---------------------------------------------------------------------------
  // Replaying signals

  function SizeOf(signal: Signal): real
  {
    match signal.size
    case Some(s) => s
    case None => DEFAULT_SIZE
  }

  /** The position a BUY opens at `bar`. */
  function NewPosition(signal: Signal, bar: Bar): Position
  {
    Position(bar.close, SizeOf(signal), bar.timestamp)
  }

  /** The trade that closing `p` at `bar` records. */
  function CloseTrade(p: Position, bar: Bar): Trade
  {
    Trade(p.entryPrice, bar.close, (bar.close - p.entryPrice) * p.size, bar.timestamp)
  }

  /** One iteration of the signal loop. */
  function Step(acc: Account, signal: Signal, bar: Bar): Account
  {
    if signal.action == Buy then
      Account(acc.balance, acc.positions + [NewPosition(signal, bar)], acc.trades)
    else if signal.action == Sell then
      if acc.positions == [] then acc
      else
        var t := CloseTrade(acc.positions[0], bar);
        Account(acc.balance + t.pnl, acc.positions[1..], acc.trades + [t])
    else
      acc
  }

  /** The whole signal loop: signal i is replayed against bar i. */
  function Replay(acc: Account, bars: seq<Bar>, signals: seq<Signal>): Account
    requires |signals| <= |bars|
    decreases |signals|
  {
    if signals == [] then acc
    else Replay(Step(acc, signals[0], bars[0]), bars[1..], signals[1..])
  }

  // ---------------------------------------------------------------------------
  // Metrics

  /** Sum of the pnl of a ledger. */
  function TotalPnl(ts: seq<Trade>): real
    decreases |ts|
  {
    if ts == [] then 0.0 else TotalPnl(ts[..|ts| - 1]) + ts[|ts| - 1].pnl
  }

  /** Number of winning trades (pnl > 0). */
  function Wins(ts: seq<Trade>): (w: nat)
    ensures w <= |ts|
    decreases |ts|
  {
    if ts == [] then 0
    else Wins(ts[..|ts| - 1]) + (if ts[|ts| - 1].pnl > 0.0 then 1 else 0)
  }

  /** Percentage of winning trades; 0 for an empty ledger. */
  function WinRate(ts: seq<Trade>): (r: real)
    ensures 0.0 <= r <= 100.0
    ensures ts == [] ==> r == 0.0
  {
    if ts == [] then 0.0
    else
      var w, n := Wins(ts) as real, |ts| as real;
      assert w / n <= 1.0 by { assert w <= n; }
      (w / n) * 100.0
  }

  function Mean(ts: seq<Trade>): real
    requires |ts| > 0
  {
    TotalPnl(ts) / (|ts| as real)
  }

  /** Products and squares go through these helpers rather than `x * x`
      directly: the solver reasons unreliably about a term multiplied by
      itself, and reliably about `Product` with the sign lemma below. */
  function Product(a: real, b: real): real
  {
    a * b
  }

  /** Two reals of the same strict sign have a positive product. */
  lemma ProductPositive(a: real, b: real)
    requires (a > 0.0 && b > 0.0) || (a < 0.0 && b < 0.0)
    ensures Product(a, b) > 0.0
  {
    if a < 0.0 {
      var x, y := 0.0 - a, 0.0 - b;
      assert x * y > 0.0;
      assert a * b == x * y;
    }
  }

  function Square(x: real): real
  {
    Product(x, x)
  }

  /** A square is positive off 0 and 0 at 0. */
  lemma SquareSign(d: real)
    ensures d != 0.0 ==> Square(d) > 0.0
    ensures d == 0.0 ==> Square(d) == 0.0
  {
    if d != 0.0 {
      ProductPositive(d, d);
    }
  }

  /** Sum of the squared deviations of the pnl from `m`. */
  function SquaredDeviation(ts: seq<Trade>, m: real): (s: real)
    ensures s >= 0.0
    decreases |ts|
  {
    if ts == [] then 0.0
    else
      var d := ts[|ts| - 1].pnl - m;
      SquareSign(d);
      SquaredDeviation(ts[..|ts| - 1], m) + Square(d)
  }

  /** Population variance of the pnl (the square of numpy's default std). */
  function Variance(ts: seq<Trade>): (v: real)
    requires |ts| > 0
    ensures v >= 0.0
  {
    SquaredDeviation(ts, Mean(ts)) / (|ts| as real)
  }

  /** The Sharpe value of a ledger: 0 below two trades, otherwise the quotient of
      the mean pnl and the standard deviation. */
  function SharpeRatio(ts: seq<Trade>): (s: Sharpe)
    ensures s.Zero? <==> |ts| < 2
    ensures s.Quotient? ==> s.variance >= 0.0
  {
    if |ts| < 2 then Zero else Quotient(Mean(ts), Variance(ts))
  }

  /** Running peak of the drawdown loop: seeded at `seed`; after each trade the
      running value is `start` plus the pnl so far, and the peak rises to it. */
  function PeakEquity(seed: real, start: real, ts: seq<Trade>): (p: real)
    ensures p >= seed
    ensures ts != [] ==> p >= start + TotalPnl(ts)
    decreases |ts|
  {
    if ts == [] then seed
    else
      var prev := PeakEquity(seed, start, ts[..|ts| - 1]);
      var equity := start + TotalPnl(ts);
      if equity > prev then equity else prev
  }

  /** Largest fractional drop of the running value below its peak, over every
      prefix of the ledger; 0 before any trade. */
  function MaxDrawdownFraction(seed: real, start: real, ts: seq<Trade>): (d: real)
    requires seed > 0.0
    ensures d >= 0.0
    decreases |ts|
  {
    if ts == [] then 0.0
    else
      var prev := MaxDrawdownFraction(seed, start, ts[..|ts| - 1]);
      var peak := PeakEquity(seed, start, ts);
      var dd := (peak - (start + TotalPnl(ts))) / peak;
      if dd > prev then dd else prev
  }

  /** Max drawdown in percent as the source computes it: the peak is seeded at
      the initial balance, but the running value starts at `balance`, the
      engine's balance at the time, which already includes every trade's pnl. */
  function DrawdownAsWritten(initial: real, balance: real, ts: seq<Trade>): (r: real)
    requires initial > 0.0
    ensures r >= 0.0
    ensures ts == [] ==> r == 0.0
  {
    if ts == [] then 0.0 else MaxDrawdownFraction(initial, balance, ts) * 100.0
  }

  /** Max drawdown in percent with the running value seeded at the initial
      balance, so that each trade's pnl is counted once. */
  function MaxDrawdown(initial: real, ts: seq<Trade>): (r: real)
    requires initial > 0.0
    ensures r >= 0.0
    ensures ts == [] ==> r == 0.0
  {
    if ts == [] then 0.0 else MaxDrawdownFraction(initial, initial, ts) * 100.0
  }

  /** The summary a run returns once the loop has left the account at `acc`:
      the return is taken before the drawdown loop touches the balance. */
  function Report(initial: real, acc: Account): (r: BacktestResult)
    requires initial > 0.0
    ensures r.numTrades == |acc.trades|
    ensures 0.0 <= r.winRate <= 100.0
    ensures r.maxDrawdown >= 0.0
    ensures r.sharpeRatio.Zero? <==> |acc.trades| < 2
    ensures r.totalReturn == 0.0 <==> acc.balance == initial
  {
    BacktestResult(
      (acc.balance - initial) / initial,
      SharpeRatio(acc.trades),
      DrawdownAsWritten(initial, acc.balance, acc.trades),
      WinRate(acc.trades),
      |acc.trades|)
  }
}
