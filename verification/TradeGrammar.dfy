/** The shape of a run's trade list: rounds of one buy and the sells that close it. */
module TradeGrammar {
  import opened Core
  import opened Market
  import opened Strategies
  import opened EventEngine

  /**
   * Reads a trade list as (buy sell+)* with a possibly open last round, and gives the shares still
   * held at its end. None when the list has another shape, sells more than it holds, or reports a
   * wrong position.
   */
  function HeldAfter(trades: seq<Trade>): (held: Option<int>)
    ensures held.Some? ==> held.value >= 0
  {
    if trades == [] then Some(0)
    else
      var t := trades[|trades| - 1];
      match HeldAfter(trades[..|trades| - 1])
      case None => None
      case Some(held) =>
        if t.side == Buy then
          if held == 0 && t.quantity > 0 && t.positionAfter == 1 then Some(t.quantity) else None
        else
          if 0 < t.quantity <= held && t.positionAfter == Position(held - t.quantity) then Some(held - t.quantity)
            else None
  }

  ghost predicate NoFalseSell(events: seq<Event>) {
    forall i :: 0 <= i < |events| ==> !(events[i].Rejected? && events[i].rejection == NoPosition)
  }

  /** A book whose trades follow the grammar and account for its shares. */
  ghost predicate Accounted(book: Book) {
    HeldAfter(book.trades) == Some(book.quantity) && NoFalseSell(book.events)
  }

  ghost predicate Matches(pending: Option<Pending>, quantity: int) {
    pending.Some? ==> (pending.value.side == Buy <==> quantity == 0)
  }

  lemma NoFalseSellAppend(a: seq<Event>, b: seq<Event>)
    requires NoFalseSell(a) && NoFalseSell(b)
    ensures NoFalseSell(a + b)
  {
  }

  lemma FilledAccounted(book: Book, side: Side, timestamp: int, price: real, executionPrice: real,
                        requested: int, filled: int, commission: real, tax: real, reason: Reason)
    requires Accounted(book) && filled > 0
    requires if side == Buy then book.quantity == 0 else filled <= book.quantity
    ensures Accounted(Filled(book, side, timestamp, price, executionPrice, requested, filled, commission, tax, reason))
  {
    hide RoundTo, Notional;
    var after := Filled(book, side, timestamp, price, executionPrice, requested, filled, commission, tax, reason);
    assert after.trades[..|after.trades| - 1] == book.trades;
  }

  lemma FilledQuantity(book: Book, side: Side, timestamp: int, price: real, executionPrice: real,
                       requested: int, filled: int, commission: real, tax: real, reason: Reason)
    ensures Filled(book, side, timestamp, price, executionPrice, requested, filled, commission, tax, reason).quantity ==
            if side == Buy then book.quantity + filled else book.quantity - filled
  {
    hide RoundTo;
  }

  lemma HeldIsNatural(trades: seq<Trade>)
    ensures HeldAfter(trades).Some? ==> HeldAfter(trades).value >= 0
  {
  }

  lemma ExecutedAccounted(book: Book, side: Side, timestamp: int, price: real, volume: Option<int>, config: Config,
                          reason: Reason)
    requires price > 0.0 && config.Valid()
    requires Accounted(book) && (side == Buy <==> book.quantity == 0)
    ensures var after := Executed(book, side, timestamp, price, volume, config, reason);
            Accounted(after) && (side == Sell && volume.None? ==> after.quantity == 0)
  {
    hide Affordable, ExecutionPrice, Notional, Fee, HeldAfter, Filled;
    HeldIsNatural(book.trades);
    var executionPrice := ExecutionPrice(side, price, config.costs);
    var requested := if side == Buy then Affordable(book.cash, executionPrice, config.costs) else book.quantity;
    var filled := BoundedQuantity(requested, volume, config.maxParticipation);
    var notional := Notional(executionPrice, filled);
    var tax := if side == Buy then 0.0 else Fee(notional, config.costs.tax);
    if requested > 0 && filled > 0 {
      FilledAccounted(book, side, timestamp, price, executionPrice, requested, filled,
                      Fee(notional, config.costs.commission), tax, reason);
      FilledQuantity(book, side, timestamp, price, executionPrice, requested, filled,
                     Fee(notional, config.costs.commission), tax, reason);
    }
  }

  lemma AtOpenAccounted(before: Book, pending: Option<Pending>, bar: Candle, config: Config)
    requires PositivePrices(bar) && config.Valid()
    requires Accounted(before) && Matches(pending, before.quantity)
    ensures Accounted(AtOpen(before, pending, bar, config))
  {
    hide Executed, HeldAfter;
    NoFalseSellAppend(before.events, [MarketEvent(bar.timestamp, bar)]);
    if pending.Some? {
      var marked := before.(events := before.events + [MarketEvent(bar.timestamp, bar)]);
      ExecutedAccounted(marked, pending.value.side, bar.timestamp, bar.open, Some(bar.volume), config, Signal);
    }
  }

  lemma AtCloseAccounted(openBook: Book, bar: Candle, desired: int, next: Option<int>, config: Config)
    requires PositivePrices(bar) && config.Valid() && (desired == 0 || desired == 1)
    requires Accounted(openBook)
    ensures var closed := AtClose(openBook, bar, desired, next, config);
            && Accounted(closed)
            && Matches(NextOrder(openBook, desired, bar.timestamp, next), closed.quantity)
            && (next.None? && config.forceClose ==> closed.quantity == 0)
  {
    hide Executed, HeldAfter;
    HeldIsNatural(openBook.trades);
    var signalled := Signalled(openBook, bar.timestamp, desired, next);
    if next.None? && config.forceClose && signalled.quantity > 0 {
      NoFalseSellAppend(signalled.events, [OrderEvent(bar.timestamp, Sell, bar.timestamp, ForceClose)]);
      var forced := signalled.(events :=
        signalled.events + [OrderEvent(bar.timestamp, Sell, bar.timestamp, ForceClose)]);
      ExecutedAccounted(forced, Sell, bar.timestamp, bar.close, None, config, ForceClose);
    }
  }

  lemma EmptyGrammar(config: Config)
    ensures Accounted(Start(config).book)
  {
  }

  /**
   * After every bar of every run the trade list follows the grammar and accounts for the shares
   * held, no sell was ever rejected for want of a position, and the waiting order fits the
   * position; a forced close ends the run flat.
   */
  lemma {:induction false} StaysOrderly(frame: seq<Candle>, strategy: Strategy, config: Config, count: nat)
    requires Runnable(frame, strategy, config) && count <= |frame| && After(frame, strategy, config, count).Ok?
    ensures var s := After(frame, strategy, config, count).value;
            && Accounted(s.book)
            && Matches(s.pending, s.book.quantity)
            && (count == |frame| > 0 ==> s.pending.None? && (config.forceClose ==> s.book.quantity == 0))
  {
    hide AtOpen, AtClose, Accounted, Strategy.Observed, DesiredAt, RoundTo, DailyReturn, EquityOf;
    if count == 0 {
      EmptyGrammar(config);
    } else {
      var i := count - 1;
      StaysOrderly(frame, strategy, config, i);
      var before := After(frame, strategy, config, i).value;
      assert PositivePrices(frame[i]);
      AtOpenAccounted(before.book, before.pending, frame[i], config);
      AtCloseAccounted(AtOpen(before.book, before.pending, frame[i], config), frame[i],
                       DesiredAt(strategy.Observed(frame[..count]).value, i), NextTimestamp(frame, i), config);
    }
  }

  // ----- what the grammar says about rounds -----

  function Sold(trades: seq<Trade>): int {
    if trades == [] then 0
    else Sold(trades[..|trades| - 1]) + if trades[|trades| - 1].side == Sell then trades[|trades| - 1].quantity else 0
  }

  lemma {:induction false} PrefixHeld(trades: seq<Trade>, k: nat)
    requires HeldAfter(trades).Some? && k <= |trades|
    ensures HeldAfter(trades[..k]).Some?
  {
    if k == |trades| {
      assert trades[..k] == trades;
    } else {
      var init := trades[..|trades| - 1];
      PrefixHeld(init, k);
      assert init[..k] == trades[..k];
    }
  }

  lemma {:induction false} SellsDrain(trades: seq<Trade>, i: nat, k: nat)
    requires HeldAfter(trades).Some? && i < k <= |trades| && trades[i].side == Buy
    requires forall m :: i < m < k ==> trades[m].side == Sell
    ensures HeldAfter(trades[..k]) == Some(trades[i].quantity - Sold(trades[i + 1..k]))
    decreases k
  {
    PrefixHeld(trades, k);
    assert trades[..k][..k - 1] == trades[..k - 1];
    if k > i + 1 {
      SellsDrain(trades, i, k - 1);
      assert trades[i + 1..k][..k - i - 2] == trades[i + 1..k - 1];
    }
  }

  /** Between two consecutive buys, exactly the bought shares are sold. */
  lemma RoundsClose(trades: seq<Trade>, i: nat, j: nat)
    requires HeldAfter(trades).Some? && i < j < |trades|
    requires trades[i].side == Buy && trades[j].side == Buy
    requires forall m :: i < m < j ==> trades[m].side == Sell
    ensures Sold(trades[i + 1..j]) == trades[i].quantity
    ensures j > i + 1
  {
    SellsDrain(trades, i, j);
    PrefixHeld(trades, j + 1);
    assert trades[..j + 1][..j] == trades[..j];
  }

  // ----- the pairing scan of calculate_metrics -----

  /** Adjacent buy and sell, as metrics.py collects them. */
  function Pairs(trades: seq<Trade>): seq<(Trade, Trade)> {
    if |trades| < 2 then []
    else
      var a, b := trades[|trades| - 2], trades[|trades| - 1];
      Pairs(trades[..|trades| - 1]) + if a.side == Buy && b.side == Sell then [(a, b)] else []
  }

  function Buys(trades: seq<Trade>): nat {
    if trades == [] then 0
    else Buys(trades[..|trades| - 1]) + if trades[|trades| - 1].side == Buy then 1 else 0
  }

  /** One pair per buy, except for a buy that ends the list. */
  lemma {:induction false} OnePairPerBuy(trades: seq<Trade>)
    requires HeldAfter(trades).Some?
    ensures |Pairs(trades)| == Buys(trades) - if trades != [] && trades[|trades| - 1].side == Buy then 1 else 0
  {
    if trades != [] {
      var init := trades[..|trades| - 1];
      OnePairPerBuy(init);
      if |init| > 0 {
        assert HeldAfter(init) == Some(0) ==> init[|init| - 1].side == Sell;
      }
    }
  }

  /** With a forced close, the win-rate scan sees every round of the run once. */
  lemma ForcedRunPairsEveryBuy(frame: seq<Candle>, strategy: Strategy, config: Config)
    requires Runnable(frame, strategy, config) && frame != [] && config.forceClose
    requires After(frame, strategy, config, |frame|).Ok?
    ensures var trades := After(frame, strategy, config, |frame|).value.book.trades;
            |Pairs(trades)| == Buys(trades)
  {
    hide After;
    StaysOrderly(frame, strategy, config, |frame|);
    var trades := After(frame, strategy, config, |frame|).value.book.trades;
    OnePairPerBuy(trades);
  }
}
