/** What a vectorized run reports, said of the candles, the signals and the cost rates alone. */
module VectorReturns {
  import opened Core
  import opened Market
  import opened Strategies
  import opened EventEngine
  import opened VectorEngine

  /** Held from one bar after a signal of 1 or more, to one bar after any other. */
  lemma PositionsFollowSignals(frame: seq<Candle>, signals: seq<int>, config: Config, i: nat)
    requires Divisible(frame) && |frame| >= 2 && i < |frame|
    ensures var positions := RunOn(frame, signals, config).positions;
            && |positions| == |frame|
            && positions[i] == if 0 < i <= |signals| && signals[i - 1] >= 1 then 1 else 0
  {
    hide EquityAfter, TradesUpTo, NetReturn;
  }

  /** What the account is multiplied by over row i. */
  ghost predicate Earns(frame: seq<Candle>, costs: Costs, i: nat, was: int, held: int, forced: bool, factor: real)
    requires Divisible(frame) && i < |frame| && (i == 0 ==> was == 0)
  {
    var closing := if forced then costs.commission + costs.tax + costs.slippage else 0.0;
    && (was == 0 && held == 0 ==> factor == 1.0)
    && (was == 0 && held == 1 ==>
          factor == frame[i].close / frame[i].open - costs.commission - costs.slippage - closing)
    && (was == 1 && held == 0 ==>
          factor == frame[i].open / frame[i - 1].close - costs.commission - costs.tax - costs.slippage)
    && (was == 1 && held == 1 ==> factor == frame[i].close / frame[i - 1].close - closing)
  }

  lemma OvernightTimesIntraday(previous: real, open: real, close: real)
    requires previous != 0.0 && open != 0.0
    ensures (open / previous) * (close / open) == close / previous
  {
    assert (open / previous) * previous == open && (close / open) * open == close;
    var product := (open / previous) * (close / open);
    assert product * previous == close;
    assert (close / previous) * previous == close;
  }

  lemma GrossByPosition(frame: seq<Candle>, observed: seq<int>, i: nat)
    requires Divisible(frame) && |observed| == |frame| && i < |frame| && IsSignals(observed)
    ensures var was, held := PreviousPositionAt(observed, i), PositionAt(observed, i);
            && (was == 0 || was == 1) && (held == 0 || held == 1) && (i == 0 ==> was == 0 && held == 0)
            && 1.0 + GrossReturn(frame, observed, i) ==
               if was == 0 then (if held == 0 then 1.0 else frame[i].close / frame[i].open)
               else if held == 0 then frame[i].open / frame[i - 1].close
               else frame[i].close / frame[i - 1].close
  {
    if i > 0 {
      OvernightTimesIntraday(frame[i - 1].close, frame[i].open, frame[i].close);
    }
  }

  lemma RowEarns(frame: seq<Candle>, observed: seq<int>, config: Config, i: nat)
    requires Divisible(frame) && |observed| == |frame| && i < |frame| && IsSignals(observed)
    ensures var was, held := PreviousPositionAt(observed, i), PositionAt(observed, i);
            (i == 0 ==> was == 0) &&
            Earns(frame, config.costs, i, was, held, i == |frame| - 1 && config.forceClose && held == 1,
                  1.0 + NetReturn(frame, observed, config, i))
  {
    hide GrossReturn;
    GrossByPosition(frame, observed, i);
  }

  lemma RunRow(frame: seq<Candle>, signals: seq<int>, config: Config, i: nat)
    requires Divisible(frame) && |frame| >= 2 && i < |frame|
    ensures var r, observed := RunOn(frame, signals, config), Clipped(signals, |frame|);
            && |r.positions| == |r.netReturns| == |r.equity| == |frame|
            && r.positions[i] == PositionAt(observed, i)
            && (if i == 0 then 0 else r.positions[i - 1]) == PreviousPositionAt(observed, i)
            && r.netReturns[i] == NetReturn(frame, observed, config, i)
            && (if i == 0 then config.initialCapital else r.equity[i - 1]) == EquityAfter(frame, observed, config, i)
            && r.equity[i] == EquityAfter(frame, observed, config, i + 1)
  {
    hide NetReturn, TradesUpTo, ClosingTrade;
  }

  lemma EquityGrows(frame: seq<Candle>, observed: seq<int>, config: Config, i: nat)
    requires Divisible(frame) && |observed| == |frame| && i < |frame|
    ensures EquityAfter(frame, observed, config, i + 1) ==
            EquityAfter(frame, observed, config, i) * (1.0 + NetReturn(frame, observed, config, i))
  {
    hide NetReturn;
  }

  /**
   * Over each row the account is multiplied by one factor, made of two prices and the cost rates: nothing while
   * flat, close over open on the row bought, close over close while held, open over close on the row sold, less
   * the buyer's or the seller's rates where there was a trade and the seller's once more for a forced close.
   */
  lemma RowFactor(frame: seq<Candle>, signals: seq<int>, config: Config, i: nat)
    requires Divisible(frame) && |frame| >= 2 && i < |frame|
    ensures var r := RunOn(frame, signals, config);
            && |r.positions| == |r.netReturns| == |r.equity| == |frame|
            && var was, held := if i == 0 then 0 else r.positions[i - 1], r.positions[i];
               var before := if i == 0 then config.initialCapital else r.equity[i - 1];
               && Earns(frame, config.costs, i, was, held, i == |frame| - 1 && config.forceClose && held == 1,
                        1.0 + r.netReturns[i])
               && r.equity[i] == before * (1.0 + r.netReturns[i])
  {
    hide RunOn, NetReturn, EquityAfter, Earns, PositionAt, PreviousPositionAt;
    RunRow(frame, signals, config, i);
    RowEarns(frame, Clipped(signals, |frame|), config, i);
    EquityGrows(frame, Clipped(signals, |frame|), config, i);
  }

  // ----- the trades -----

  /** One trade on every row the position changes: at the open worsened by slippage, with its fee on the account. */
  ghost predicate TradesTell(trades: seq<VectorTrade>, frame: seq<Candle>, r: VectorRun, config: Config, count: nat)
    requires count <= |frame| == |r.positions| == |r.equity|
  {
    if count == 0 then trades == []
    else
      var i := count - 1;
      var was, held := if i == 0 then 0 else r.positions[i - 1], r.positions[i];
      var before := if i == 0 then config.initialCapital else r.equity[i - 1];
      if was == held then TradesTell(trades, frame, r, config, i)
      else
        && trades != [] && TradesTell(trades[..|trades| - 1], frame, r, config, i)
        && var t := trades[|trades| - 1];
           if held > was then
             t == VectorTrade(frame[i].timestamp, Buy, frame[i].open * (1.0 + config.costs.slippage),
                              before * config.costs.commission, 1)
           else
             t == VectorTrade(frame[i].timestamp, Sell, frame[i].open * (1.0 - config.costs.slippage),
                              before * (config.costs.commission + config.costs.tax), 0)
  }

  lemma {:induction false} TradesUpToTell(frame: seq<Candle>, signals: seq<int>, config: Config, count: nat)
    requires Divisible(frame) && |frame| >= 2 && count <= |frame|
    ensures var observed := Clipped(signals, |frame|);
            TradesTell(TradesUpTo(frame, observed, EquitySeries(frame, observed, config), config, count), frame,
                       RunOn(frame, signals, config), config, count)
  {
    hide RunOn, EquityAfter, NetReturn, EquitySeries, Clipped;
    if count > 0 {
      var i := count - 1;
      TradesUpToTell(frame, signals, config, i);
      RunRow(frame, signals, config, i);
      var observed := Clipped(signals, |frame|);
      var init := TradesUpTo(frame, observed, EquitySeries(frame, observed, config), config, i);
      var added := TradeAt(frame, observed, EquitySeries(frame, observed, config), config, i);
      if added == [] {
        assert init + added == init;
      } else {
        assert (init + added)[..|init + added| - 1] == init;
      }
    }
  }

  /** The whole list: a trade per change of position, then the forced sale at the last close. */
  lemma RunTrades(frame: seq<Candle>, signals: seq<int>, config: Config)
    requires Divisible(frame) && |frame| >= 2
    ensures var r, last := RunOn(frame, signals, config), |frame| - 1;
            && |r.positions| == |r.equity| == |frame|
            && if config.forceClose && r.positions[last] == 1 then
                 && r.trades != [] && TradesTell(r.trades[..|r.trades| - 1], frame, r, config, |frame|)
                 && r.trades[|r.trades| - 1] ==
                    VectorTrade(frame[last].timestamp, Sell, frame[last].close * (1.0 - config.costs.slippage),
                                r.equity[last - 1] * (config.costs.commission + config.costs.tax), 0)
               else TradesTell(r.trades, frame, r, config, |frame|)
  {
    hide EquityAfter, NetReturn, TradesUpTo, TradesTell;
    TradesUpToTell(frame, signals, config, |frame|);
    var observed := Clipped(signals, |frame|);
    var trades := TradesUpTo(frame, observed, EquitySeries(frame, observed, config), config, |frame|);
    var r := RunOn(frame, signals, config);
    assert ClosingTrade(frame, observed, config) == [] ==> r.trades == trades;
    assert ClosingTrade(frame, observed, config) != [] ==> r.trades[..|r.trades| - 1] == trades;
  }
}
