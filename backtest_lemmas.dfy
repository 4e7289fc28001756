/** What the replay and the metrics of the backtest engine guarantee. */
module BacktestLemmas {
  import opened Backtest

  // ---------------------------------------------------------------------------
  // Reference counts for the replay

  /** Number of BUY signals. */
  function CountBuys(signals: seq<Signal>): nat
    decreases |signals|
  {
    if signals == [] then 0
    else (if signals[0].action == Buy then 1 else 0) + CountBuys(signals[1..])
  }

  /** Number of SELL signals that find an open position, tracking only the
      length `open` of the queue. */
  function EffectiveSells(open: nat, signals: seq<Signal>): nat
    decreases |signals|
  {
    if signals == [] then 0
    else if signals[0].action == Buy then EffectiveSells(open + 1, signals[1..])
    else if signals[0].action == Sell && open > 0 then 1 + EffectiveSells(open - 1, signals[1..])
    else EffectiveSells(open, signals[1..])
  }

  /** The positions the BUY signals open, in order. */
  function Opened(bars: seq<Bar>, signals: seq<Signal>): seq<Position>
    requires |signals| <= |bars|
    decreases |signals|
  {
    if signals == [] then []
    else
      (if signals[0].action == Buy then [NewPosition(signals[0], bars[0])] else [])
      + Opened(bars[1..], signals[1..])
  }

  // ---------------------------------------------------------------------------
  // Balance consistency

  lemma TotalPnlAppend(ts: seq<Trade>, t: Trade)
    ensures TotalPnl(ts + [t]) == TotalPnl(ts) + t.pnl
  {
    assert (ts + [t])[..|ts|] == ts;
  }

  /** Replaying keeps `balance == initial + sum of the ledger's pnl`. */
  lemma {:induction false} ReplayKeepsBalance(initial: real, acc: Account, bars: seq<Bar>, signals: seq<Signal>)
    requires |signals| <= |bars|
    requires acc.balance == initial + TotalPnl(acc.trades)
    ensures Replay(acc, bars, signals).balance == initial + TotalPnl(Replay(acc, bars, signals).trades)
    decreases |signals|
  {
    if signals != [] {
      if signals[0].action == Sell && acc.positions != [] {
        TotalPnlAppend(acc.trades, CloseTrade(acc.positions[0], bars[0]));
      }
      ReplayKeepsBalance(initial, Step(acc, signals[0], bars[0]), bars[1..], signals[1..]);
    }
  }

  /** Every BUY adds one position; every SELL that finds one turns it into a trade. */
  lemma {:induction false} ReplayCounts(acc: Account, bars: seq<Bar>, signals: seq<Signal>)
    requires |signals| <= |bars|
    ensures var r := Replay(acc, bars, signals);
      && |r.trades| == |acc.trades| + EffectiveSells(|acc.positions|, signals)
      && |r.positions| + |r.trades| == |acc.positions| + |acc.trades| + CountBuys(signals)
    decreases |signals|
  {
    if signals != [] {
      ReplayCounts(Step(acc, signals[0], bars[0]), bars[1..], signals[1..]);
    }
  }

  /** Trade j closed position j, at that position's entry price and size. */
  predicate Matches(ts: seq<Trade>, ps: seq<Position>)
  {
    && |ts| <= |ps|
    && forall j :: 0 <= j < |ts| ==>
         ts[j].entry == ps[j].entryPrice && ts[j].pnl == (ts[j].exit - ps[j].entryPrice) * ps[j].size
  }

  lemma MatchesCons(t: Trade, ts: seq<Trade>, ps: seq<Position>)
    requires ps != []
    requires t.entry == ps[0].entryPrice && t.pnl == (t.exit - ps[0].entryPrice) * ps[0].size
    requires Matches(ts, ps[1..])
    ensures Matches([t] + ts, ps)
  {
    forall j | 0 < j < |ts| + 1
      ensures ([t] + ts)[j].entry == ps[j].entryPrice
    {
      assert ([t] + ts)[j] == ts[j - 1] && ps[1..][j - 1] == ps[j];
    }
  }

  /** One closing step of the FIFO argument, in sequence terms: if the rest of
      the replay matched the queue behind its head, the whole replay matches
      the whole queue. */
  lemma FifoAfterClose(trades: seq<Trade>, queued: seq<Position>, t: Trade, rt: seq<Trade>, rp: seq<Position>)
    requires queued != []
    requires t.entry == queued[0].entryPrice && t.pnl == (t.exit - queued[0].entryPrice) * queued[0].size
    requires |trades| + 1 <= |rt| && rt[..|trades| + 1] == trades + [t]
    requires Matches(rt[|trades| + 1..], queued[1..])
    requires rp == queued[1..][|rt| - (|trades| + 1)..]
    ensures rt[..|trades|] == trades
    ensures Matches(rt[|trades|..], queued)
    ensures rp == queued[|rt| - |trades|..]
  {
    var n := |trades|;
    assert rt[..n] == rt[..n + 1][..n];
    assert rt[n] == rt[..n + 1][n] == t;
    assert rt[n..] == [t] + rt[n + 1..];
    MatchesCons(t, rt[n + 1..], queued);
  }

  /** Whether `signal` closes a position when the account is `acc`. */
  predicate Closes(acc: Account, signal: Signal)
  {
    signal.action == Sell && acc.positions != []
  }

  /** A closing step consumes the head of the queue of every position ever
      queued. */
  lemma StepCloses(acc: Account, bars: seq<Bar>, signals: seq<Signal>)
    requires 0 < |signals| <= |bars|
    requires Closes(acc, signals[0])
    ensures (acc.positions + Opened(bars, signals))[1..]
         == Step(acc, signals[0], bars[0]).positions + Opened(bars[1..], signals[1..])
  {
    assert Opened(bars, signals) == Opened(bars[1..], signals[1..]);
  }

  /** Any other step leaves that queue and the ledger as they were. */
  lemma StepKeeps(acc: Account, bars: seq<Bar>, signals: seq<Signal>)
    requires 0 < |signals| <= |bars|
    requires !Closes(acc, signals[0])
    ensures Step(acc, signals[0], bars[0]).trades == acc.trades
    ensures acc.positions + Opened(bars, signals)
         == Step(acc, signals[0], bars[0]).positions + Opened(bars[1..], signals[1..])
  {
    var rest := Opened(bars[1..], signals[1..]);
    if signals[0].action == Buy {
      assert acc.positions + Opened(bars, signals) == (acc.positions + [NewPosition(signals[0], bars[0])]) + rest;
    } else {
      assert Opened(bars, signals) == rest;
    }
  }

  /** FIFO matching: the ledger only grows at the back, the k-th trade a replay
      appends closes the k-th position that was ever queued (those open before,
      then those the BUYs open, in order), and the positions left open are the
      rest of that queue. */
  lemma {:induction false} ReplayFifo(acc: Account, bars: seq<Bar>, signals: seq<Signal>)
    requires |signals| <= |bars|
    ensures var r := Replay(acc, bars, signals);
      var queued := acc.positions + Opened(bars, signals);
      var n := |acc.trades|;
      && n <= |r.trades|
      && r.trades[..n] == acc.trades
      && Matches(r.trades[n..], queued)
      && r.positions == queued[|r.trades| - n..]
    decreases |signals|
  {
    if signals == [] {
      var queued := acc.positions + Opened(bars, signals);
      assert queued == acc.positions && queued[0..] == queued;
      assert acc.trades[|acc.trades|..] == [];
    } else {
      var next := Step(acc, signals[0], bars[0]);
      ReplayFifo(next, bars[1..], signals[1..]);
      var r := Replay(next, bars[1..], signals[1..]);
      assert Replay(acc, bars, signals) == r;
      if !Closes(acc, signals[0]) {
        StepKeeps(acc, bars, signals);
      } else {
        StepCloses(acc, bars, signals);
        FifoAfterClose(acc.trades, acc.positions + Opened(bars, signals),
          CloseTrade(acc.positions[0], bars[0]), r.trades, r.positions);
      }
    }
  }

  // ---------------------------------------------------------------------------
  // Runs from a fresh engine

  /** A run on a fresh engine: the balance after the loop is the initial
      balance plus the ledger's pnl, the reported return is that pnl over the
      initial balance, and the trade count is the number of SELLs that found an
      open position; with no such SELL every metric is 0. */
  lemma FreshRun(initial: real, bars: seq<Bar>, signals: seq<Signal>)
    requires initial > 0.0
    requires |signals| <= |bars|
    ensures var r := Replay(Account(initial, [], []), bars, signals);
      var report := Report(initial, r);
      && r.balance == initial + TotalPnl(r.trades)
      && report.totalReturn == TotalPnl(r.trades) / initial
      && report.numTrades == EffectiveSells(0, signals)
      && (report.numTrades == 0 ==> report == BacktestResult(0.0, Zero, 0.0, 0.0, 0))
  {
    ReplayKeepsBalance(initial, Account(initial, [], []), bars, signals);
    ReplayCounts(Account(initial, [], []), bars, signals);
  }

  // ---------------------------------------------------------------------------
  // Win rate

  /** Every trade wins exactly when the win count is the ledger's length. */
  lemma {:induction false} AllWinsIff(ts: seq<Trade>)
    ensures Wins(ts) == |ts| <==> forall i :: 0 <= i < |ts| ==> ts[i].pnl > 0.0
    decreases |ts|
  {
    if ts != [] {
      var init := ts[..|ts| - 1];
      AllWinsIff(init);
      assert forall i :: 0 <= i < |init| ==> init[i] == ts[i];
    }
  }

  /** No trade wins exactly when the win count is 0. */
  lemma {:induction false} NoWinsIff(ts: seq<Trade>)
    ensures Wins(ts) == 0 <==> forall i :: 0 <= i < |ts| ==> ts[i].pnl <= 0.0
    decreases |ts|
  {
    if ts != [] {
      var init := ts[..|ts| - 1];
      NoWinsIff(init);
      assert forall i :: 0 <= i < |init| ==> init[i] == ts[i];
    }
  }

  /** On a non-empty ledger the win rate is 100 exactly when every trade has
      positive pnl, and 0 exactly when none has. */
  lemma WinRateExtremes(ts: seq<Trade>)
    requires ts != []
    ensures WinRate(ts) == 100.0 <==> forall i :: 0 <= i < |ts| ==> ts[i].pnl > 0.0
    ensures WinRate(ts) == 0.0 <==> forall i :: 0 <= i < |ts| ==> ts[i].pnl <= 0.0
  {
    AllWinsIff(ts);
    NoWinsIff(ts);
    var w, n := Wins(ts) as real, |ts| as real;
    assert WinRate(ts) == (w / n) * 100.0;
    assert (w / n) * n == w;
  }

  // ---------------------------------------------------------------------------
  // Sharpe

  /** A ledger whose trades all have pnl `p` sums to |ts| * p. */
  lemma {:induction false} TotalPnlConstant(ts: seq<Trade>, p: real)
    requires forall i :: 0 <= i < |ts| ==> ts[i].pnl == p
    ensures TotalPnl(ts) == |ts| as real * p
    decreases |ts|
  {
    if ts != [] {
      var init := ts[..|ts| - 1];
      assert forall i :: 0 <= i < |init| ==> init[i] == ts[i];
      TotalPnlConstant(init, p);
    }
  }

  /** The squared deviations from `m` vanish when every pnl is `m`. */
  lemma {:induction false} SquaredDeviationZero(ts: seq<Trade>, m: real)
    requires forall i :: 0 <= i < |ts| ==> ts[i].pnl == m
    ensures SquaredDeviation(ts, m) == 0.0
    decreases |ts|
  {
    if ts != [] {
      var init := ts[..|ts| - 1];
      assert forall i :: 0 <= i < |init| ==> init[i] == ts[i];
      SquareSign(ts[|ts| - 1].pnl - m);
      SquaredDeviationZero(init, m);
    }
  }

  /** ... and are positive when some pnl is not `m`. */
  lemma {:induction false} SquaredDeviationPositive(ts: seq<Trade>, m: real, k: nat)
    requires k < |ts| && ts[k].pnl != m
    ensures SquaredDeviation(ts, m) > 0.0
    decreases |ts|
  {
    var init := ts[..|ts| - 1];
    SquareSign(ts[|ts| - 1].pnl - m);
    if k < |init| {
      assert init[k] == ts[k];
      SquaredDeviationPositive(init, m, k);
    }
  }

  /** The variance is 0 exactly when every trade has the mean pnl. */
  lemma VarianceZeroIff(ts: seq<Trade>)
    requires |ts| > 0
    ensures Variance(ts) == 0.0 <==> forall i :: 0 <= i < |ts| ==> ts[i].pnl == Mean(ts)
  {
    var s, n := SquaredDeviation(ts, Mean(ts)), |ts| as real;
    assert Variance(ts) == s / n;
    if forall i :: 0 <= i < |ts| ==> ts[i].pnl == Mean(ts) {
      SquaredDeviationZero(ts, Mean(ts));
    } else {
      var k :| 0 <= k < |ts| && ts[k].pnl != Mean(ts);
      SquaredDeviationPositive(ts, Mean(ts), k);
      assert s / n > 0.0;
    }
  }

  /** With at least two trades of identical pnl `p` the Sharpe value is
      p / EPS: the standard deviation is 0 and only EPS is left below. */
  lemma IdenticalPnlSharpe(ts: seq<Trade>, p: real)
    requires |ts| >= 2
    requires forall i :: 0 <= i < |ts| ==> ts[i].pnl == p
    ensures SharpeRatio(ts) == Quotient(p, 0.0)
    ensures SharpeRatio(ts).Value(0.0) == p / EPS
  {
    TotalPnlConstant(ts, p);
    var n := |ts| as real;
    assert Mean(ts) == (n * p) / n == p;
    VarianceZeroIff(ts);
  }

  // ---------------------------------------------------------------------------
  // Drawdown

  /** The drawdown over a prefix of the ledger never exceeds the drawdown over
      the whole ledger: extending the replay can only keep or raise it. */
  lemma {:induction false} DrawdownMonotone(seed: real, start: real, ts: seq<Trade>, k: nat)
    requires seed > 0.0
    requires k <= |ts|
    ensures MaxDrawdownFraction(seed, start, ts[..k]) <= MaxDrawdownFraction(seed, start, ts)
    decreases |ts|
  {
    if k < |ts| {
      var init := ts[..|ts| - 1];
      assert init[..k] == ts[..k];
      DrawdownMonotone(seed, start, init, k);
    } else {
      assert ts[..k] == ts;
    }
  }

  /** The same, for the drawdown in percent with the running value seeded at
      the initial balance. */
  lemma MaxDrawdownMonotone(initial: real, ts: seq<Trade>, k: nat)
    requires initial > 0.0
    requires k <= |ts|
    ensures MaxDrawdown(initial, ts[..k]) <= MaxDrawdown(initial, ts)
  {
    DrawdownMonotone(initial, initial, ts, k);
  }

  /** The drawdown is at least the drop below the peak after every trade. */
  lemma {:induction false} DrawdownCoversEveryStep(seed: real, start: real, ts: seq<Trade>, k: nat)
    requires seed > 0.0
    requires 0 < k <= |ts|
    ensures var peak := PeakEquity(seed, start, ts[..k]);
      MaxDrawdownFraction(seed, start, ts) >= (peak - (start + TotalPnl(ts[..k]))) / peak
  {
    DrawdownMonotone(seed, start, ts, k);
  }

  // ---------------------------------------------------------------------------
  // Concrete runs

  /** Two round trips from a fresh 10000 account: +10 then -20. */
  lemma TwoRoundTrips()
    ensures var bars := [Bar(0, 100.0), Bar(1, 110.0), Bar(2, 110.0), Bar(3, 90.0)];
      var signals := [Signal(Buy, Some(1.0)), Signal(Sell, None), Signal(Buy, Some(1.0)), Signal(Sell, None)];
      var r := Replay(Account(10000.0, [], []), bars, signals);
      && r == Account(9990.0, [], [Trade(100.0, 110.0, 10.0, 1), Trade(110.0, 90.0, -20.0, 3)])
      && Report(10000.0, r) == BacktestResult(-0.001, Quotient(-5.0, 225.0), 0.2, 50.0, 2)
      && MaxDrawdown(10000.0, r.trades) == 200.0 / 1001.0
  {
    var bars := [Bar(0, 100.0), Bar(1, 110.0), Bar(2, 110.0), Bar(3, 90.0)];
    var signals := [Signal(Buy, Some(1.0)), Signal(Sell, None), Signal(Buy, Some(1.0)), Signal(Sell, None)];
    var t1, t2 := Trade(100.0, 110.0, 10.0, 1), Trade(110.0, 90.0, -20.0, 3);
    var a1 := Account(10000.0, [Position(100.0, 1.0, 0)], []);
    var a2 := Account(10010.0, [], [t1]);
    var a3 := Account(10010.0, [Position(110.0, 1.0, 2)], [t1]);
    var a4 := Account(9990.0, [], [t1, t2]);
    assert Step(Account(10000.0, [], []), signals[0], bars[0]) == a1;
    assert Step(a1, signals[1], bars[1]) == a2;
    assert Step(a2, signals[2], bars[2]) == a3;
    assert Step(a3, signals[3], bars[3]) == a4;
    assert Replay(a4, bars[4..], signals[4..]) == a4;
    assert Replay(a3, bars[3..], signals[3..]) == a4;
    assert Replay(a2, bars[2..], signals[2..]) == a4;
    assert Replay(a1, bars[1..], signals[1..]) == a4;
    var ts := [t1, t2];
    assert ts[..1] == [t1];
    assert [t1][..0] == [];
    assert TotalPnl([t1]) == 10.0;
    assert TotalPnl(ts) == -10.0;
    assert Wins(ts) == 1;
    assert Mean(ts) == -5.0;
    assert Square(15.0) == 225.0 && Square(-15.0) == 225.0;
    assert SquaredDeviation([t1], -5.0) == 225.0;
    assert SquaredDeviation(ts, -5.0) == 450.0;
    assert PeakEquity(10000.0, 9990.0, [t1]) == 10000.0;
    assert PeakEquity(10000.0, 9990.0, ts) == 10000.0;
    assert MaxDrawdownFraction(10000.0, 9990.0, [t1]) == 0.0;
    assert MaxDrawdownFraction(10000.0, 9990.0, ts) == 0.002;
    assert PeakEquity(10000.0, 10000.0, [t1]) == 10010.0;
    assert PeakEquity(10000.0, 10000.0, ts) == 10010.0;
    assert MaxDrawdownFraction(10000.0, 10000.0, [t1]) == 0.0;
    assert MaxDrawdownFraction(10000.0, 10000.0, ts) == 20.0 / 10010.0;
  }

  /** Positions close oldest first, and a signal without a size opens 0.1. */
  lemma FifoOrder()
    ensures var bars := [Bar(0, 10.0), Bar(1, 20.0), Bar(2, 15.0), Bar(3, 25.0)];
      var signals := [Signal(Buy, None), Signal(Buy, None), Signal(Sell, None), Signal(Sell, None)];
      Replay(Account(1000.0, [], []), bars, signals)
        == Account(1001.0, [], [Trade(10.0, 15.0, 0.5, 2), Trade(20.0, 25.0, 0.5, 3)])
  {
    var bars := [Bar(0, 10.0), Bar(1, 20.0), Bar(2, 15.0), Bar(3, 25.0)];
    var signals := [Signal(Buy, None), Signal(Buy, None), Signal(Sell, None), Signal(Sell, None)];
    var p1, p2 := Position(10.0, 0.1, 0), Position(20.0, 0.1, 1);
    var t1 := Trade(10.0, 15.0, 0.5, 2);
    var a1 := Account(1000.0, [p1], []);
    var a2 := Account(1000.0, [p1, p2], []);
    var a3 := Account(1000.5, [p2], [t1]);
    var a4 := Account(1001.0, [], [t1, Trade(20.0, 25.0, 0.5, 3)]);
    assert Step(Account(1000.0, [], []), signals[0], bars[0]) == a1;
    assert Step(a1, signals[1], bars[1]) == a2;
    assert Step(a2, signals[2], bars[2]) == a3;
    assert Step(a3, signals[3], bars[3]) == a4;
    assert Replay(a4, bars[4..], signals[4..]) == a4;
    assert Replay(a3, bars[3..], signals[3..]) == a4;
    assert Replay(a2, bars[2..], signals[2..]) == a4;
    assert Replay(a1, bars[1..], signals[1..]) == a4;
  }

  // ---------------------------------------------------------------------------
  // The drawdown finding

  /** One losing trade of -100 on a 10000 account. After the run the balance is
      9900; the drawdown loop starts from there, reaches 9800 and reports 2 %,
      twice the 1 % the account actually fell below its peak. */
  lemma DrawdownDoubleCount()
    ensures var t := Trade(100.0, 0.0, -100.0, 1);
      && DrawdownAsWritten(10000.0, 10000.0 + TotalPnl([t]), [t]) == 2.0
      && MaxDrawdown(10000.0, [t]) == 1.0
  {
    var t := Trade(100.0, 0.0, -100.0, 1);
    assert [t][..0] == [];
    assert TotalPnl([t]) == -100.0;
    assert PeakEquity(10000.0, 9900.0, [t]) == 10000.0;
    assert MaxDrawdownFraction(10000.0, 9900.0, [t]) == (10000.0 - 9800.0) / 10000.0;
    assert PeakEquity(10000.0, 10000.0, [t]) == 10000.0;
    assert MaxDrawdownFraction(10000.0, 10000.0, [t]) == (10000.0 - 9900.0) / 10000.0;
  }

  /** With the running value seeded at the initial balance, a single losing
      trade draws the account down by exactly its loss over the initial
      balance. */
  lemma SingleLossDrawdown(initial: real, t: Trade)
    requires initial > 0.0
    requires t.pnl <= 0.0
    ensures MaxDrawdown(initial, [t]) == (0.0 - t.pnl) / initial * 100.0
  {
    assert [t][..0] == [];
    assert TotalPnl([t]) == t.pnl;
    assert PeakEquity(initial, initial, [t]) == initial;
    var dd := (initial - (initial + t.pnl)) / initial;
    assert dd >= 0.0;
    assert MaxDrawdownFraction(initial, initial, [t]) == dd;
    assert initial - (initial + t.pnl) == 0.0 - t.pnl;
  }

  /** With the running value seeded at the initial balance, a ledger without a
      losing trade never falls below its peak. */
  lemma {:induction false} NoLossNoDrawdown(initial: real, ts: seq<Trade>)
    requires initial > 0.0
    requires forall i :: 0 <= i < |ts| ==> ts[i].pnl >= 0.0
    ensures MaxDrawdownFraction(initial, initial, ts) == 0.0
    ensures PeakEquity(initial, initial, ts) == initial + TotalPnl(ts)
    decreases |ts|
  {
    if ts != [] {
      var init := ts[..|ts| - 1];
      assert forall i :: 0 <= i < |init| ==> init[i] == ts[i];
      NoLossNoDrawdown(initial, init);
    }
  }
}
