/** The backtest engine of src/backtest.py as an object. Its balance, position
    queue and trade ledger persist across runs: nothing is reset between two
    calls of RunBacktest. */
module Engine {
  import opened Backtest
  import BacktestLemmas

  class BacktestEngine {
    const initialBalance: real
    var balance: real
    var positions: seq<Position>
    var trades: seq<Trade>

    /** The balance defaults to 10000 when none is given. */
    constructor (initialBalance: real := 10000.0)
      ensures this.initialBalance == initialBalance
      ensures balance == initialBalance && positions == [] && trades == []
    {
      this.initialBalance := initialBalance;
      balance := initialBalance;
      positions := [];
      trades := [];
    }

    /** The account the fields hold. */
    function State(): Account
      reads this
    {
      Account(balance, positions, trades)
    }

    /** Replays `signals` against the rows of `data` (signal i against row i),
        then computes the metrics. The drawdown step re-adds every pnl of the
        ledger to the balance. */
    method RunBacktest(data: seq<Bar>, signals: seq<Signal>) returns (result: BacktestResult)
      requires |signals| <= |data|
      requires initialBalance > 0.0
      modifies this
      ensures var acc := Replay(old(State()), data, signals);
        && positions == acc.positions
        && trades == acc.trades
        && balance == acc.balance + TotalPnl(acc.trades)
        && result == Report(initialBalance, acc)
      ensures old(balance) == initialBalance + TotalPnl(old(trades)) ==>
        && result.totalReturn == TotalPnl(trades) / initialBalance
        && balance == initialBalance + 2.0 * TotalPnl(trades)
    {
      var i := 0;
      while i < |signals|
        invariant 0 <= i <= |signals|
        invariant Replay(State(), data[i..], signals[i..]) == Replay(old(State()), data, signals)
      {
        ghost var before := State();
        var signal := signals[i];
        if signal.action == Buy {
          OpenPosition(signal, data[i]);
          assert State()
            == Account(before.balance, before.positions + [NewPosition(signal, data[i])], before.trades)
            == Step(before, signal, data[i]);
        } else if signal.action == Sell {
          ClosePosition(signal, data[i]);
          if before.positions != [] {
            var t := CloseTrade(before.positions[0], data[i]);
            assert State()
              == Account(before.balance + t.pnl, before.positions[1..], before.trades + [t])
              == Step(before, signal, data[i]);
          } else {
            assert State() == before == Step(before, signal, data[i]);
          }
        } else {
          assert State() == before == Step(before, signal, data[i]);
        }
        assert data[i..][1..] == data[i + 1..] && signals[i..][1..] == signals[i + 1..];
        i := i + 1;
      }
      assert signals[i..] == [];
      ghost var acc := State();
      if old(balance) == initialBalance + TotalPnl(old(trades)) {
        BacktestLemmas.ReplayKeepsBalance(initialBalance, old(State()), data, signals);
      }

      var totalReturn := (balance - initialBalance) / initialBalance;
      var winRate := WinRate(trades);
      var sharpe := SharpeRatio(trades);
      var maxDd := CalculateMaxDrawdown();
      result := BacktestResult(totalReturn, sharpe, maxDd, winRate, |trades|);
      assert result == Report(initialBalance, acc);
    }

    /** Pushes a new position at the back of the queue. */
    method OpenPosition(signal: Signal, row: Bar)
      modifies this
      ensures positions == old(positions) + [Position(row.close, SizeOf(signal), row.timestamp)]
      ensures balance == old(balance) && trades == old(trades)
    {
      var position := Position(row.close, SizeOf(signal), row.timestamp);
      positions := positions + [position];
    }

    /** Closes the oldest open position at the row's close, if there is one. */
    method ClosePosition(signal: Signal, row: Bar)
      modifies this
      ensures old(positions) == [] ==>
        balance == old(balance) && positions == old(positions) && trades == old(trades)
      ensures old(positions) != [] ==>
        && positions == old(positions)[1..]
        && balance == old(balance) + CloseTrade(old(positions)[0], row).pnl
        && trades == old(trades) + [CloseTrade(old(positions)[0], row)]
    {
      if positions == [] {
        return;
      }
      var position := positions[0];
      positions := positions[1..];
      var pnl := (row.close - position.entryPrice) * position.size;
      balance := balance + pnl;
      trades := trades + [Trade(position.entryPrice, row.close, pnl, row.timestamp)];
    }

    /** The drawdown loop: walks the ledger adding each pnl to the live balance,
        with the peak seeded at the initial balance. */
    method CalculateMaxDrawdown() returns (maxDd: real)
      requires initialBalance > 0.0
      modifies this`balance
      ensures balance == old(balance) + TotalPnl(trades)
      ensures maxDd == DrawdownAsWritten(initialBalance, old(balance), trades)
    {
      if trades == [] {
        return 0.0;
      }
      var peak := initialBalance;
      var dd := 0.0;
      var k := 0;
      while k < |trades|
        invariant 0 <= k <= |trades|
        invariant balance == old(balance) + TotalPnl(trades[..k])
        invariant peak == PeakEquity(initialBalance, old(balance), trades[..k])
        invariant dd == MaxDrawdownFraction(initialBalance, old(balance), trades[..k])
      {
        assert trades[..k + 1][..k] == trades[..k];
        balance := balance + trades[k].pnl;
        if balance > peak {
          peak := balance;
        }
        var current := (peak - balance) / peak;
        if current > dd {
          dd := current;
        }
        k := k + 1;
      }
      assert trades[..k] == trades;
      maxDd := dd * 100.0;
    }
  }
}
