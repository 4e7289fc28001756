/** The vote rule of TechnicalAnalysis.generate_signal (src/indicators.py):
    the latest row's RSI, MACD against its signal line, and close against the
    Bollinger bands each cast at most one vote, and the majority decides. */
module Indicators {

  /** A vote, and the decision the rule returns ("BUY", "SELL", "HOLD"). */
  datatype Action = Buy | Sell | Hold

  /** The columns of the latest row that the rule reads. */
  datatype IndicatorRow = IndicatorRow(
    close: real,
    rsi: real,
    macd: real,
    signalLine: real,
    bbUpper: real,
    bbLower: real)

  const RSI_OVERSOLD: real := 30.0
  const RSI_OVERBOUGHT: real := 70.0

  /** Number of occurrences of `a` in `votes`. */
  function Count(votes: seq<Action>, a: Action): (n: nat)
    ensures n <= |votes|
    decreases |votes|
  {
    if votes == [] then 0
    else Count(votes[..|votes| - 1], a) + (if votes[|votes| - 1] == a then 1 else 0)
  }

  /** Counting distributes over concatenation. */
  lemma {:induction false} CountConcat(xs: seq<Action>, ys: seq<Action>, a: Action)
    ensures Count(xs + ys, a) == Count(xs, a) + Count(ys, a)
    decreases |ys|
  {
    if ys != [] {
      var init := ys[..|ys| - 1];
      assert (xs + ys)[..|xs + ys| - 1] == xs + init;
      CountConcat(xs, init, a);
    } else {
      assert xs + ys == xs;
    }
  }

  /** The vote one indicator casts, if any. No indicator casts `Cast(Hold)`:
      the three vote functions below say so in their contracts. */
  datatype Vote = NoVote | Cast(action: Action)

  /** A vote as the list entries it adds. */
  function Listed(v: Vote): seq<Action>
  {
    if v.Cast? then [v.action] else []
  }

  /** One indicator's entry in the list counts 1 for its action and 0 for the
      other, and holds nothing but BUYs and SELLs. */
  lemma ListedCounts(v: Vote)
    requires v != Cast(Hold)
    ensures Count(Listed(v), Buy) == (if v == Cast(Buy) then 1 else 0)
    ensures Count(Listed(v), Sell) == (if v == Cast(Sell) then 1 else 0)
    ensures |Listed(v)| == Count(Listed(v), Buy) + Count(Listed(v), Sell)
  {
    if v.Cast? {
      assert Listed(v)[..0] == [];
    }
  }

  /** The RSI vote: BUY below 30, SELL above 70, none from 30 to 70. */
  function RsiVote(row: IndicatorRow): (v: Vote)
    ensures v != Cast(Hold)
  {
    if row.rsi < RSI_OVERSOLD then Cast(Buy)
    else if row.rsi > RSI_OVERBOUGHT then Cast(Sell)
    else NoVote
  }

  /** The MACD vote: BUY above the signal line, SELL below it, none on it. */
  function MacdVote(row: IndicatorRow): (v: Vote)
    ensures v != Cast(Hold)
  {
    if row.macd > row.signalLine then Cast(Buy)
    else if row.macd < row.signalLine then Cast(Sell)
    else NoVote
  }

  /** The Bollinger vote: BUY below the lower band, SELL above the upper band. */
  function BollingerVote(row: IndicatorRow): (v: Vote)
    ensures v != Cast(Hold)
  {
    if row.close < row.bbLower then Cast(Buy)
    else if row.close > row.bbUpper then Cast(Sell)
    else NoVote
  }

  /** Votes for BUY, one per indicator whose BUY condition holds. */
  function BuyVotes(row: IndicatorRow): (n: nat)
    ensures n <= 3
  {
    (if row.rsi < RSI_OVERSOLD then 1 else 0)
    + (if row.macd > row.signalLine then 1 else 0)
    + (if row.close < row.bbLower then 1 else 0)
  }

  /** Votes for SELL. Each SELL condition is tested only when that indicator's
      BUY condition failed. */
  function SellVotes(row: IndicatorRow): (n: nat)
    ensures n <= 3
  {
    (if !(row.rsi < RSI_OVERSOLD) && row.rsi > RSI_OVERBOUGHT then 1 else 0)
    + (if !(row.macd > row.signalLine) && row.macd < row.signalLine then 1 else 0)
    + (if !(row.close < row.bbLower) && row.close > row.bbUpper then 1 else 0)
  }

  /** The vote list of a row: at most one vote per indicator, so its BUY and
      SELL counts are the reference counts and make up the whole list. */
  function Votes(row: IndicatorRow): (votes: seq<Action>)
    ensures Count(votes, Buy) == BuyVotes(row)
    ensures Count(votes, Sell) == SellVotes(row)
    ensures |votes| == BuyVotes(row) + SellVotes(row) <= 3
  {
    var rsi, macd, bands := Listed(RsiVote(row)), Listed(MacdVote(row)), Listed(BollingerVote(row));
    ListedCounts(RsiVote(row));
    ListedCounts(MacdVote(row));
    ListedCounts(BollingerVote(row));
    CountConcat(rsi, macd, Buy);
    CountConcat(rsi, macd, Sell);
    CountConcat(rsi + macd, bands, Buy);
    CountConcat(rsi + macd, bands, Sell);
    rsi + macd + bands
  }

  /** A factor of a positive product with a positive n is positive. */
  lemma PositiveFactor(x: real, n: real)
    requires n > 0.0 && x * n > 0.0
    ensures x > 0.0
  {
  }

  /** A factor of a non-negative product with a positive n is non-negative. */
  lemma NonNegativeFactor(x: real, n: real)
    requires n > 0.0 && x * n >= 0.0
    ensures x >= 0.0
  {
  }

  /** A quotient m / n with n / 2 < m <= n lies in (1/2, 1]. */
  lemma QuotientBetween(m: real, n: real)
    requires n > 0.0 && 0.5 * n < m <= n
    ensures 0.5 < m / n <= 1.0
  {
    var q := m / n;
    assert q * n == m;
    assert (q - 0.5) * n == m - 0.5 * n;
    PositiveFactor(q - 0.5, n);
    assert (1.0 - q) * n == n - m;
    NonNegativeFactor(1.0 - q, n);
  }

  /** The majority's share of the votes lies in (1/2, 1]. */
  lemma MajorityShare(major: nat, minor: nat)
    requires major > minor
    ensures 0.5 < major as real / (major + minor) as real <= 1.0
  {
    var m, k := major as real, minor as real;
    var n := (major + minor) as real;
    assert n == m + k && m > k >= 0.0;
    QuotientBetween(m, n);
  }

  /** What generate_signal returns: an action and its confidence. */
  datatype Decision = Decision(action: Action, confidence: real)

  /** The majority rule over `buys` BUY and `sells` SELL votes: the majority
      with its share of the votes, or HOLD with 0.5 on a tie (zero votes
      included, so the vote count is never divided by when it is 0). */
  function Decide(buys: nat, sells: nat): (d: Decision)
    ensures d.action == Buy <==> buys > sells
    ensures d.action == Sell <==> sells > buys
    ensures d.action == Hold <==> buys == sells
    ensures d.action == Buy ==> d.confidence == buys as real / (buys + sells) as real
    ensures d.action == Sell ==> d.confidence == sells as real / (buys + sells) as real
    ensures d.action == Hold ==> d.confidence == 0.5
    ensures d.action != Hold ==> 0.5 < d.confidence <= 1.0
  {
    if buys > sells then
      MajorityShare(buys, sells);
      Decision(Buy, buys as real / (buys + sells) as real)
    else if sells > buys then
      MajorityShare(sells, buys);
      Decision(Sell, sells as real / (buys + sells) as real)
    else
      Decision(Hold, 0.5)
  }

  /** Collects the votes of the last row of `df` and applies the majority
      rule to their counts; the vote list holds only BUYs and SELLs, so its
      length is the sum of the two counts. The decision is the majority rule
      over the per-indicator conditions. */
  function GenerateSignal(df: seq<IndicatorRow>): (d: Decision)
    requires |df| > 0
    ensures d == Decide(BuyVotes(df[|df| - 1]), SellVotes(df[|df| - 1]))
  {
    var signals := Votes(df[|df| - 1]);
    Decide(Count(signals, Buy), Count(signals, Sell))
  }

  /** With ordered bands each SELL condition already excludes its BUY
      condition, so the elif order does not change the SELL count. */
  lemma SellVotesWithOrderedBands(row: IndicatorRow)
    requires row.bbLower <= row.bbUpper
    ensures SellVotes(row)
      == (if row.rsi > RSI_OVERBOUGHT then 1 else 0)
      + (if row.macd < row.signalLine then 1 else 0)
      + (if row.close > row.bbUpper then 1 else 0)
  {
  }

  /** Votes on one side only give that side with confidence 1. */
  lemma Unanimous(df: seq<IndicatorRow>)
    requires |df| > 0
    ensures var latest := df[|df| - 1];
      && (BuyVotes(latest) > 0 && SellVotes(latest) == 0 ==> GenerateSignal(df) == Decision(Buy, 1.0))
      && (SellVotes(latest) > 0 && BuyVotes(latest) == 0 ==> GenerateSignal(df) == Decision(Sell, 1.0))
  {
    var latest := df[|df| - 1];
    var b, s := BuyVotes(latest), SellVotes(latest);
    assert GenerateSignal(df) == Decide(b, s);
    if b > 0 && s == 0 {
      assert (b + s) as real == b as real;
    }
    if s > 0 && b == 0 {
      assert (b + s) as real == s as real;
    }
  }

  /** Oversold RSI and MACD above its signal line, with the close inside the
      bands: two BUY votes out of two. A MACD below its line instead splits
      the vote one to one: HOLD. */
  lemma OversoldExamples()
    ensures GenerateSignal([IndicatorRow(100.0, 25.0, 1.0, 0.5, 110.0, 90.0)]) == Decision(Buy, 1.0)
    ensures GenerateSignal([IndicatorRow(100.0, 25.0, 0.5, 1.0, 110.0, 90.0)]) == Decision(Hold, 0.5)
  {
  }
}
