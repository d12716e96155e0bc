/** The vectorized backtest engine (backend/app/backtest/engine.py). */
module VectorEngine {
  import opened Core
  import opened Market
  import opened Strategies
  import opened EventEngine

  datatype VectorTrade = VectorTrade(timestamp: int, side: Side, executionPrice: real, cost: real, positionAfter: int)

  datatype VectorRun = VectorRun(positions: seq<int>, netReturns: seq<real>, equity: seq<real>,
                                 trades: seq<VectorTrade>)

  /** Division by these prices happens on every row; pandas would answer zero with an infinity. */
  predicate Divisible(frame: seq<Candle>) {
    forall i :: 0 <= i < |frame| ==> frame[i].open != 0.0 && frame[i].close != 0.0
  }

  predicate IsSignals(observed: seq<int>) {
    forall i :: 0 <= i < |observed| ==> observed[i] == 0 || observed[i] == 1
  }

  /** series.shift(1, fill_value=0) at row i. */
  function Shifted(series: seq<int>, i: int): int
    requires i <= |series|
  {
    if i <= 0 then 0 else series[i - 1]
  }

  function PositionAt(observed: seq<int>, i: int): int
    requires i <= |observed|
  {
    Shifted(observed, i)
  }

  function PreviousPositionAt(observed: seq<int>, i: int): int
    requires i <= |observed|
  {
    Shifted(observed, i - 1)
  }

  function BuyRate(costs: Costs): real {
    costs.commission + costs.slippage
  }

  function SellRate(costs: Costs): real {
    costs.commission + costs.tax + costs.slippage
  }

  function GrossReturn(frame: seq<Candle>, observed: seq<int>, i: nat): real
    requires Divisible(frame) && |observed| == |frame| && i < |frame|
  {
    var overnight := if i == 0 then 0.0
                     else PreviousPositionAt(observed, i) as real * (frame[i].open / frame[i - 1].close - 1.0);
    var intraday := PositionAt(observed, i) as real * (frame[i].close / frame[i].open - 1.0);
    (1.0 + overnight) * (1.0 + intraday) - 1.0
  }

  function NetReturn(frame: seq<Candle>, observed: seq<int>, config: Config, i: nat): real
    requires Divisible(frame) && |observed| == |frame| && i < |frame|
  {
    var change := PositionAt(observed, i) - PreviousPositionAt(observed, i);
    var net := GrossReturn(frame, observed, i)
               - Max(change, 0) as real * BuyRate(config.costs)
               - Max(-change, 0) as real * SellRate(config.costs);
    if i == |frame| - 1 && config.forceClose && PositionAt(observed, i) == 1 then net - SellRate(config.costs) else net
  }

  /** initial_capital * (1 + net_return).cumprod() at row count - 1; the capital itself before any row. */
  function EquityAfter(frame: seq<Candle>, observed: seq<int>, config: Config, count: nat): real
    requires Divisible(frame) && |observed| == |frame| && count <= |frame|
  {
    if count == 0 then config.initialCapital
    else EquityAfter(frame, observed, config, count - 1) * (1.0 + NetReturn(frame, observed, config, count - 1))
  }

  function TradePrice(side: Side, price: real, costs: Costs): real {
    if side == Buy then price * (1.0 + costs.slippage) else price * (1.0 - costs.slippage)
  }

  function TradeCost(side: Side, equity: real, costs: Costs): real {
    if side == Buy then equity * costs.commission else equity * (costs.commission + costs.tax)
  }

  /** The trade of row i; equity.shift(1) has the capital before the first row. */
  function TradeAt(frame: seq<Candle>, observed: seq<int>, equity: seq<real>, config: Config, i: nat)
    : (trades: seq<VectorTrade>)
    requires |observed| == |frame| == |equity| && i < |frame|
    ensures forall k :: 0 <= k < |trades| ==> trades[k].timestamp == frame[i].timestamp
  {
    var change := PositionAt(observed, i) - PreviousPositionAt(observed, i);
    var previous := if i == 0 then config.initialCapital else equity[i - 1];
    if change == 1 then
      [VectorTrade(frame[i].timestamp, Buy, TradePrice(Buy, frame[i].open, config.costs),
                   TradeCost(Buy, previous, config.costs), 1)]
    else if change == -1 then
      [VectorTrade(frame[i].timestamp, Sell, TradePrice(Sell, frame[i].open, config.costs),
                   TradeCost(Sell, previous, config.costs), 0)]
    else []
  }

  function TradesUpTo(frame: seq<Candle>, observed: seq<int>, equity: seq<real>, config: Config, count: nat)
    : seq<VectorTrade>
    requires |observed| == |frame| == |equity| && count <= |frame|
  {
    if count == 0 then []
    else TradesUpTo(frame, observed, equity, config, count - 1) + TradeAt(frame, observed, equity, config, count - 1)
  }

  /** The scan of _trades over position changes. */
  method Trades(frame: seq<Candle>, observed: seq<int>, equity: seq<real>, config: Config)
    returns (trades: seq<VectorTrade>)
    requires |observed| == |frame| == |equity|
    ensures trades == TradesUpTo(frame, observed, equity, config, |frame|)
  {
    hide TradePrice, TradeCost;
    trades := [];
    var index := 0;
    while index < |frame|
      invariant index <= |frame|
      invariant trades == TradesUpTo(frame, observed, equity, config, index)
    {
      var change := PositionAt(observed, index) - PreviousPositionAt(observed, index);
      var previous := if index == 0 then config.initialCapital else equity[index - 1];
      assert trades + [] == trades;
      if change == 1 {
        trades := trades + [VectorTrade(frame[index].timestamp, Buy, TradePrice(Buy, frame[index].open, config.costs),
                                        TradeCost(Buy, previous, config.costs), 1)];
      } else if change == -1 {
        trades := trades + [VectorTrade(frame[index].timestamp, Sell, TradePrice(Sell, frame[index].open, config.costs),
                                        TradeCost(Sell, previous, config.costs), 0)];
      }
      index := index + 1;
    }
  }

  lemma EquityBeforeFirstBar(frame: seq<Candle>, observed: seq<int>, config: Config)
    requires Divisible(frame) && |observed| == |frame|
    ensures EquityAfter(frame, observed, config, 0) == config.initialCapital
  {
  }

  /** The clipped signals of the whole frame. */
  function Clipped(signals: seq<int>, length: nat): (r: seq<int>)
    ensures |r| == length && IsSignals(r)
    ensures forall i :: 0 <= i < length ==> r[i] == DesiredAt(signals, i)
  {
    seq(length, i requires 0 <= i < length => DesiredAt(signals, i))
  }

  function ClosingTrade(frame: seq<Candle>, observed: seq<int>, config: Config): seq<VectorTrade>
    requires Divisible(frame) && |observed| == |frame| >= 2
  {
    var last := |frame| - 1;
    if config.forceClose && PositionAt(observed, last) == 1 then
      [VectorTrade(frame[last].timestamp, Sell, TradePrice(Sell, frame[last].close, config.costs),
                   TradeCost(Sell, EquityAfter(frame, observed, config, last), config.costs), 0)]
    else []
  }

  function PositionSeries(observed: seq<int>): (r: seq<int>)
    ensures |r| == |observed|
  {
    seq(|observed|, i requires 0 <= i < |observed| => PositionAt(observed, i))
  }

  function NetSeries(frame: seq<Candle>, observed: seq<int>, config: Config): (r: seq<real>)
    requires Divisible(frame) && |observed| == |frame|
    ensures |r| == |frame|
  {
    seq(|frame|, i requires 0 <= i < |frame| => NetReturn(frame, observed, config, i))
  }

  function EquitySeries(frame: seq<Candle>, observed: seq<int>, config: Config): (r: seq<real>)
    requires Divisible(frame) && |observed| == |frame|
    ensures |r| == |frame|
    ensures forall i :: 0 <= i < |frame| ==> r[i] == EquityAfter(frame, observed, config, i + 1)
  {
    seq(|frame|, i requires 0 <= i < |frame| => EquityAfter(frame, observed, config, i + 1))
  }

  /** The series the run reports; the frame is already sorted. */
  function RunOn(frame: seq<Candle>, signals: seq<int>, config: Config): VectorRun
    requires Divisible(frame) && |frame| >= 2
  {
    var observed := Clipped(signals, |frame|);
    VectorRun(PositionSeries(observed), NetSeries(frame, observed, config), EquitySeries(frame, observed, config),
              TradesUpTo(frame, observed, EquitySeries(frame, observed, config), config, |frame|)
              + ClosingTrade(frame, observed, config))
  }

  method Run(candles: seq<Candle>, strategy: Strategy, config: Config) returns (r: Result<VectorRun, RunError>)
    requires Divisible(candles) && strategy.Valid()
    modifies strategy.Repr()
    ensures strategy.Valid()
    ensures |candles| < 2 <==> r == Err(TooFewCandles)
    ensures |candles| >= 2 ==>
              Divisible(SortByTime(candles)) &&
              match strategy.Observed(SortByTime(candles))
              case Err(e) => r == Err(StrategyFailed(e))
              case Ok(signals) => r == Ok(RunOn(SortByTime(candles), signals, config))
  {
    hide EquityAfter, NetReturn, Strategy.Observed, PositionSeries, NetSeries, EquitySeries, ClosingTrade, TradesUpTo,
         Clipped;
    if |candles| < 2 {
      return Err(TooFewCandles);
    }
    var frame := SortByTime(candles);
    SortByTimeLaws(candles);
    assert Divisible(frame) by {
      forall i | 0 <= i < |frame|
        ensures frame[i].open != 0.0 && frame[i].close != 0.0
      {
        assert frame[i] in candles;
      }
    }
    var signals := strategy.Signals(frame);
    ReprAllocated(strategy);
    if signals.Err? {
      return Err(StrategyFailed(signals.error));
    }
    var observed := Clipped(signals.value, |frame|);
    var equity := EquitySeries(frame, observed, config);
    var trades := Trades(frame, observed, equity, config);
    r := Ok(VectorRun(PositionSeries(observed), NetSeries(frame, observed, config), equity,
                      trades + ClosingTrade(frame, observed, config)));
  }

  // ----- what the product of returns means -----

  predicate HeldThroughout(observed: seq<int>, low: int, high: int)
    requires 0 <= low <= high <= |observed|
  {
    forall i :: low <= i < high ==> PositionAt(observed, i) == 1 && PreviousPositionAt(observed, i) == 1
  }

  predicate FlatThroughout(observed: seq<int>, low: int, high: int)
    requires 0 <= low <= high <= |observed|
  {
    forall i :: low <= i < high ==> PositionAt(observed, i) == 0 && PreviousPositionAt(observed, i) == 0
  }

  lemma HeldReturn(frame: seq<Candle>, observed: seq<int>, config: Config, i: nat)
    requires Divisible(frame) && |observed| == |frame| && 0 < i < |frame|
    requires PositionAt(observed, i) == 1 && PreviousPositionAt(observed, i) == 1
    requires i < |frame| - 1 || !config.forceClose
    ensures 1.0 + NetReturn(frame, observed, config, i) == frame[i].close / frame[i - 1].close
  {
    var a, b, c := frame[i - 1].close, frame[i].open, frame[i].close;
    assert (b / a) * (c / b) == c / a by {
      assert (b / a) * a == b && (c / b) * b == c && (c / a) * a == c;
      assert ((b / a) * (c / b)) * a == c;
    }
  }

  lemma Telescope(before: real, base: real, first: real, last: real, next: real)
    requires last != 0.0 && before * first == base * last
    ensures (before * (next / last)) * first == base * next
  {
    var q := next / last;
    assert q * last == next;
    assert (before * q) * first == (before * first) * q;
    assert (base * last) * q == base * (q * last);
  }

  /** While a position is held, the intraday and overnight factors telescope to the close-to-close move. */
  lemma {:induction false} HeldGrowth(frame: seq<Candle>, observed: seq<int>, config: Config, low: nat, high: nat)
    requires Divisible(frame) && |observed| == |frame| && 0 < low <= high <= |frame|
    requires HeldThroughout(observed, low, high)
    requires high < |frame| || !config.forceClose
    ensures EquityAfter(frame, observed, config, high) * frame[low - 1].close ==
            EquityAfter(frame, observed, config, low) * frame[high - 1].close
    decreases high
  {
    hide NetReturn;
    if low < high {
      HeldGrowth(frame, observed, config, low, high - 1);
      HeldReturn(frame, observed, config, high - 1);
      var before := EquityAfter(frame, observed, config, high - 1);
      Telescope(before, EquityAfter(frame, observed, config, low), frame[low - 1].close, frame[high - 2].close,
                frame[high - 1].close);
    }
  }

  /** While nothing is held, equity does not move. */
  lemma {:induction false} FlatGrowth(frame: seq<Candle>, observed: seq<int>, config: Config, low: nat, high: nat)
    requires Divisible(frame) && |observed| == |frame| && low <= high <= |frame|
    requires FlatThroughout(observed, low, high)
    ensures EquityAfter(frame, observed, config, high) == EquityAfter(frame, observed, config, low)
    decreases high
  {
    if low < high {
      FlatGrowth(frame, observed, config, low, high - 1);
      assert NetReturn(frame, observed, config, high - 1) == 0.0;
    }
  }

  /** Nor is anything traded. */
  lemma {:induction false} FlatTrades(frame: seq<Candle>, observed: seq<int>, equity: seq<real>, config: Config,
                                      low: nat, high: nat)
    requires |observed| == |frame| == |equity| && low <= high <= |frame|
    requires FlatThroughout(observed, low, high)
    ensures TradesUpTo(frame, observed, equity, config, high) == TradesUpTo(frame, observed, equity, config, low)
    decreases high
  {
    if low < high {
      FlatTrades(frame, observed, equity, config, low, high - 1);
    }
  }

  // ----- the trade list -----

  /** Buy and sell in turn, starting with a buy. */
  predicate Alternating(trades: seq<VectorTrade>) {
    forall i :: 0 <= i < |trades| ==> trades[i].side == if i % 2 == 0 then Buy else Sell
  }

  /** The trades alternate, and an open one remains exactly when the last position is long. */
  lemma {:induction false} TradesAlternate(frame: seq<Candle>, observed: seq<int>, equity: seq<real>, config: Config,
                                           count: nat)
    requires |observed| == |frame| == |equity| && count <= |frame| && IsSignals(observed)
    ensures Alternating(TradesUpTo(frame, observed, equity, config, count))
    ensures |TradesUpTo(frame, observed, equity, config, count)| % 2 == PositionAt(observed, count - 1)
  {
    hide TradePrice, TradeCost;
    if count > 0 {
      TradesAlternate(frame, observed, equity, config, count - 1);
    }
  }

  /** A forced close completes the last round, so buys and sells come in pairs. */
  lemma ForcedCloseBalances(frame: seq<Candle>, signals: seq<int>, config: Config)
    requires Divisible(frame) && |frame| >= 2 && config.forceClose
    ensures var trades := RunOn(frame, signals, config).trades; Alternating(trades) && |trades| % 2 == 0
  {
    hide EquityAfter, NetReturn;
    var observed := Clipped(signals, |frame|);
    TradesAlternate(frame, observed, EquitySeries(frame, observed, config), config, |frame|);
  }
}
