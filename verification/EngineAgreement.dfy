/** When the event engine holds what the vectorized engine's shifted signal says. */
module EngineAgreement {
  import opened Core
  import opened Market
  import opened Strategies
  import opened EventEngine
  import Accounting
  import TradeGrammar
  import VectorEngine

  predicate Slips(e: Event) {
    e.Rejected? || (e.PartialFill? && e.side == Sell)
  }

  /** No order was rejected and no sell was cut short. */
  ghost predicate Clean(events: seq<Event>) {
    forall i :: 0 <= i < |events| ==> !Slips(events[i])
  }

  lemma CleanAppend(a: seq<Event>, b: seq<Event>)
    ensures Clean(a + b) <==> Clean(a) && Clean(b)
  {
    if Clean(a + b) {
      forall i | 0 <= i < |a| ensures !Slips(a[i]) { assert (a + b)[i] == a[i]; }
      forall i | 0 <= i < |b| ensures !Slips(b[i]) { assert (a + b)[|a| + i] == b[i]; }
    }
  }

  lemma FilledShape(book: Book, side: Side, timestamp: int, price: real, executionPrice: real,
                    requested: int, filled: int, commission: real, tax: real, reason: Reason)
    ensures var after :=
      Filled(book, side, timestamp, price, executionPrice, requested, filled, commission, tax, reason);
            && after.quantity == (if side == Buy then book.quantity + filled else book.quantity - filled)
            && (Clean(after.events) <==> Clean(book.events) && (side == Buy || requested <= filled))
  {
    hide RoundTo, Notional;
    var partials := if requested > filled then [PartialFill(timestamp, side, requested, filled, reason)] else [];
    var fill := [Fill(timestamp, side, requested, filled, price, executionPrice, commission, tax, reason)];
    CleanAppend(book.events, partials);
    CleanAppend(book.events + partials, fill);
    assert requested > filled ==> partials[0].PartialFill?;
  }

  /** An order brings the position it was placed for exactly when it adds no slip. */
  lemma ExecutedReaches(book: Book, side: Side, timestamp: int, price: real, volume: Option<int>, config: Config,
                        reason: Reason)
    requires price > 0.0 && config.Valid()
    requires if side == Buy then book.quantity == 0 else book.quantity > 0
    ensures var after := Executed(book, side, timestamp, price, volume, config, reason);
            && (Clean(after.events) <==> Clean(book.events) && Position(after.quantity) == if side == Buy then 1 else 0)
            && (side == Sell && volume.None? ==> after.quantity == 0 && (Clean(after.events) <==> Clean(book.events)))
  {
    hide Affordable, ExecutionPrice, Notional, Fee, Filled;
    var after := Executed(book, side, timestamp, price, volume, config, reason);
    var executionPrice := ExecutionPrice(side, price, config.costs);
    var requested := if side == Buy then Affordable(book.cash, executionPrice, config.costs) else book.quantity;
    var filled := BoundedQuantity(requested, volume, config.maxParticipation);
    var notional := Notional(executionPrice, filled);
    var tax := if side == Buy then 0.0 else Fee(notional, config.costs.tax);
    assert filled <= requested;
    if requested > 0 && filled > 0 {
      FilledShape(book, side, timestamp, price, executionPrice, requested, filled,
                  Fee(notional, config.costs.commission), tax, reason);
    } else {
      var e := after.events[|book.events|];
      CleanAppend(book.events, [e]);
      assert Slips([e][0]);
    }
  }

  /** The shifted signal: what row i - 1 observed becomes row i's position. */
  ghost function ShiftedSignal(frame: seq<Candle>, strategy: Strategy, i: nat): int
    requires strategy.WellFormed() && i < |frame| && strategy.Observed(frame).Ok?
  {
    VectorEngine.PositionAt(VectorEngine.Clipped(strategy.Observed(frame).value, |frame|), i)
  }

  /** The shares the event engine holds through bar i's session, before any forced close. */
  ghost function SessionPosition(frame: seq<Candle>, strategy: Strategy, config: Config, i: nat): int
    requires Runnable(frame, strategy, config) && i < |frame| && After(frame, strategy, config, i).Ok?
  {
    Position(Accounting.OpenBook(frame, strategy, config, i).quantity)
  }

  /** A causal strategy that evaluates the whole frame never fails a run on it. */
  lemma {:induction false} CausalRunsThrough(frame: seq<Candle>, strategy: Strategy, config: Config, count: nat)
    requires Runnable(frame, strategy, config) && count <= |frame|
    requires Causal(strategy) && strategy.Observed(frame).Ok?
    ensures After(frame, strategy, config, count).Ok?
  {
    hide Bar, Strategy.Observed;
    if count > 0 {
      CausalRunsThrough(frame, strategy, config, count - 1);
      assert CausalAt(strategy, frame, count - 1);
    }
  }

  lemma AtOpenClean(before: Book, pending: Option<Pending>, bar: Candle, config: Config, desired: int)
    requires PositivePrices(bar) && config.Valid()
    requires TradeGrammar.Matches(pending, before.quantity) && before.quantity >= 0 && (desired == 0 || desired == 1)
    requires pending.Some? <==> desired != Position(before.quantity)
    ensures var openBook := AtOpen(before, pending, bar, config);
            Clean(openBook.events) <==> Clean(before.events) && Position(openBook.quantity) == desired
  {
    hide Executed;
    CleanAppend(before.events, [MarketEvent(bar.timestamp, bar)]);
    if pending.Some? {
      var marked := before.(events := before.events + [MarketEvent(bar.timestamp, bar)]);
      ExecutedReaches(marked, pending.value.side, bar.timestamp, bar.open, Some(bar.volume), config, Signal);
    }
  }

  lemma AtCloseClean(openBook: Book, bar: Candle, desired: int, next: Option<int>, config: Config)
    requires PositivePrices(bar) && config.Valid()
    ensures var closed := AtClose(openBook, bar, desired, next, config);
            && (Clean(closed.events) <==> Clean(openBook.events))
            && (next.Some? || !config.forceClose ==> closed.quantity == openBook.quantity)
  {
    hide Executed;
    var order := NextOrder(openBook, desired, bar.timestamp, next);
    var signal := [SignalEvent(bar.timestamp, desired, Position(openBook.quantity))];
    var orders := if order.Some? then [OrderEvent(bar.timestamp, order.value.side, order.value.executeAt, Signal)]
                  else [];
    CleanAppend(openBook.events, signal);
    CleanAppend(openBook.events + signal, orders);
    var signalled := Signalled(openBook, bar.timestamp, desired, next);
    assert signalled.events == openBook.events + signal + orders;
    if next.None? && config.forceClose && signalled.quantity > 0 {
      var due := [OrderEvent(bar.timestamp, Sell, bar.timestamp, ForceClose)];
      CleanAppend(signalled.events, due);
      ExecutedReaches(signalled.(events := signalled.events + due), Sell, bar.timestamp, bar.close, None, config,
                      ForceClose);
    }
  }

  /** The order waiting after a bar is there exactly when the signal and the position differ. */
  lemma WaitingOrder(frame: seq<Candle>, strategy: Strategy, config: Config, count: nat)
    requires Runnable(frame, strategy, config) && count < |frame|
    requires Causal(strategy) && strategy.Observed(frame).Ok?
    requires After(frame, strategy, config, count).Ok?
    ensures var s := After(frame, strategy, config, count).value;
            s.pending.Some? <==> ShiftedSignal(frame, strategy, count) != Position(s.book.quantity)
  {
    hide AtOpen, Strategy.Observed, DesiredAt, RoundTo, DailyReturn, EquityOf;
    if count > 0 {
      var i := count - 1;
      var before := After(frame, strategy, config, i).value;
      assert CausalAt(strategy, frame, i);
      assert PositivePrices(frame[i]);
      var openBook := AtOpen(before.book, before.pending, frame[i], config);
      AtCloseClean(openBook, frame[i], DesiredAt(strategy.Observed(frame[..count]).value, i), NextTimestamp(frame, i),
                   config);
    }
  }

  lemma EmptyClean(config: Config)
    ensures Clean(Start(config).book.events)
  {
  }

  lemma ShiftedIsPosition(frame: seq<Candle>, strategy: Strategy, i: nat)
    requires strategy.WellFormed() && i < |frame| && strategy.Observed(frame).Ok?
    ensures ShiftedSignal(frame, strategy, i) == 0 || ShiftedSignal(frame, strategy, i) == 1
  {
    hide Strategy.Observed, DesiredAt;
  }

  /**
   * Through any number of bars, the event engine's positions are the vectorized engine's shifted
   * signal exactly when no order was rejected and no sell was only partly filled.
   */
  lemma {:induction false} EnginesAgree(frame: seq<Candle>, strategy: Strategy, config: Config, count: nat)
    requires Runnable(frame, strategy, config) && count <= |frame|
    requires Causal(strategy) && strategy.Observed(frame).Ok?
    ensures forall i :: 0 <= i <= count ==> After(frame, strategy, config, i).Ok?
    ensures Clean(After(frame, strategy, config, count).value.book.events) <==>
            forall i :: 0 <= i < count ==>
              SessionPosition(frame, strategy, config, i) == ShiftedSignal(frame, strategy, i)
  {
    hide AtOpen, AtClose, Strategy.Observed, DesiredAt, RoundTo, DailyReturn, EquityOf, Clean, Position,
         VectorEngine.PositionAt;
    forall i | 0 <= i <= count ensures After(frame, strategy, config, i).Ok? {
      CausalRunsThrough(frame, strategy, config, i);
    }
    if count == 0 {
      EmptyClean(config);
    } else {
      var i := count - 1;
      EnginesAgree(frame, strategy, config, i);
      CausalRunsThrough(frame, strategy, config, count);
      var before := After(frame, strategy, config, i).value;
      var shifted := ShiftedSignal(frame, strategy, i);
      assert PositivePrices(frame[i]);
      assert CausalAt(strategy, frame, i);
      WaitingOrder(frame, strategy, config, i);
      TradeGrammar.StaysOrderly(frame, strategy, config, i);
      TradeGrammar.HeldIsNatural(before.book.trades);
      ShiftedIsPosition(frame, strategy, i);
      AtOpenClean(before.book, before.pending, frame[i], config, shifted);
      AtCloseClean(AtOpen(before.book, before.pending, frame[i], config), frame[i],
                   DesiredAt(strategy.Observed(frame[..i + 1]).value, i), NextTimestamp(frame, i), config);
    }
  }

  /** The reported point shows the session's position, except where the forced close empties it. */
  lemma PointShowsSession(frame: seq<Candle>, strategy: Strategy, config: Config, i: nat)
    requires Runnable(frame, strategy, config) && i < |frame| && After(frame, strategy, config, i + 1).Ok?
    ensures After(frame, strategy, config, i + 1).value.points[i].position ==
            if i == |frame| - 1 && config.forceClose then 0 else SessionPosition(frame, strategy, config, i)
  {
    hide AtOpen, Strategy.Observed, DesiredAt, RoundTo, DailyReturn, EquityOf, Executed;
    var before := After(frame, strategy, config, i).value;
    assert PositivePrices(frame[i]);
    AtCloseClean(AtOpen(before.book, before.pending, frame[i], config), frame[i],
                 DesiredAt(strategy.Observed(frame[..i + 1]).value, i), NextTimestamp(frame, i), config);
    if i == |frame| - 1 && config.forceClose {
      TradeGrammar.StaysOrderly(frame, strategy, config, i + 1);
    }
  }

  // ----- the condition, seen before each order executes -----

  /** What the account and the bar's open allow: all of a position, or at least one share of a new one. */
  predicate Fits(book: Book, side: Side, price: real, volume: Option<int>, config: Config)
    requires price > 0.0 && config.Valid()
  {
    if side == Buy then
      var affordable := Affordable(book.cash, ExecutionPrice(Buy, price, config.costs), config.costs);
      affordable >= 1 && BoundedQuantity(affordable, volume, config.maxParticipation) >= 1
    else
      book.quantity >= 1 && BoundedQuantity(book.quantity, volume, config.maxParticipation) == book.quantity
  }

  lemma RejectedSlips(book: Book, timestamp: int, side: Side, rejection: Rejection)
    ensures !Clean(Reject(book, timestamp, side, rejection).events)
  {
    var e := Rejected(timestamp, side, rejection);
    assert Slips((book.events + [e])[|book.events|]);
  }

  lemma ExecutedFits(book: Book, side: Side, timestamp: int, price: real, volume: Option<int>, config: Config,
                     reason: Reason)
    requires price > 0.0 && config.Valid()
    ensures Clean(Executed(book, side, timestamp, price, volume, config, reason).events) <==>
            Clean(book.events) && Fits(book, side, price, volume, config)
  {
    hide Affordable, ExecutionPrice, Notional, Fee, Filled, Clean;
    var after := Executed(book, side, timestamp, price, volume, config, reason);
    var executionPrice := ExecutionPrice(side, price, config.costs);
    var requested := if side == Buy then Affordable(book.cash, executionPrice, config.costs) else book.quantity;
    var filled := BoundedQuantity(requested, volume, config.maxParticipation);
    var notional := Notional(executionPrice, filled);
    var tax := if side == Buy then 0.0 else Fee(notional, config.costs.tax);
    assert filled <= requested;
    if requested > 0 && filled > 0 {
      FilledShape(book, side, timestamp, price, executionPrice, requested, filled,
                  Fee(notional, config.costs.commission), tax, reason);
    } else {
      RejectedSlips(book, timestamp, side, after.events[|book.events|].rejection);
    }
  }

  /** The order waiting for bar i, if there is one, fits the account and the bar. */
  ghost predicate OrderFits(frame: seq<Candle>, strategy: Strategy, config: Config, i: nat)
    requires Runnable(frame, strategy, config) && i < |frame| && After(frame, strategy, config, i).Ok?
  {
    var s := After(frame, strategy, config, i).value;
    s.pending.Some? ==> Fits(s.book, s.pending.value.side, frame[i].open, Some(frame[i].volume), config)
  }

  lemma OpenFits(before: Book, pending: Option<Pending>, bar: Candle, config: Config)
    requires PositivePrices(bar) && config.Valid()
    ensures Clean(AtOpen(before, pending, bar, config).events) <==>
            Clean(before.events)
              && (pending.Some? ==> Fits(before, pending.value.side, bar.open, Some(bar.volume), config))
  {
    hide Executed;
    var market := [MarketEvent(bar.timestamp, bar)];
    CleanAppend(before.events, market);
    if pending.Some? {
      ExecutedFits(before.(events := before.events + market), pending.value.side, bar.timestamp, bar.open,
                   Some(bar.volume), config, Signal);
    }
  }

  /** A run is clean exactly when each order fits before it executes. */
  lemma {:induction false} CleanExactlyWhenOrdersFit(frame: seq<Candle>, strategy: Strategy, config: Config, count: nat)
    requires Runnable(frame, strategy, config) && count <= |frame|
    requires forall i :: 0 <= i <= count ==> After(frame, strategy, config, i).Ok?
    ensures Clean(After(frame, strategy, config, count).value.book.events) <==>
            forall i :: 0 <= i < count ==> OrderFits(frame, strategy, config, i)
  {
    hide AtOpen, AtClose, Strategy.Observed, DesiredAt, RoundTo, DailyReturn, EquityOf, Clean, Fits, Runnable,
         PositivePrices;
    if count == 0 {
      EmptyClean(config);
    } else {
      var i := count - 1;
      assert After(frame, strategy, config, count).Ok? && frame[..i + 1] == frame[..count];
      CleanExactlyWhenOrdersFit(frame, strategy, config, i);
      RunnableAt(frame, strategy, config, i);
      var before := After(frame, strategy, config, i).value;
      var openBook := AtOpen(before.book, before.pending, frame[i], config);
      var desired := DesiredAt(strategy.Observed(frame[..i + 1]).value, i);
      OpenFits(before.book, before.pending, frame[i], config);
      AtCloseClean(openBook, frame[i], desired, NextTimestamp(frame, i), config);
      assert After(frame, strategy, config, count).value.book ==
             AtClose(openBook, frame[i], desired, NextTimestamp(frame, i), config);
      assert Clean(openBook.events) <==> Clean(before.book.events) && OrderFits(frame, strategy, config, i);
    }
  }

  /** So the engines agree exactly on the runs whose orders all fit, each seen before it executes. */
  lemma AgreeExactlyWhenOrdersFit(frame: seq<Candle>, strategy: Strategy, config: Config, count: nat)
    requires Runnable(frame, strategy, config) && count <= |frame|
    requires Causal(strategy) && strategy.Observed(frame).Ok?
    ensures forall i :: 0 <= i <= count ==> After(frame, strategy, config, i).Ok?
    ensures (forall i :: 0 <= i < count ==>
               SessionPosition(frame, strategy, config, i) == ShiftedSignal(frame, strategy, i)) <==>
            forall i :: 0 <= i < count ==> OrderFits(frame, strategy, config, i)
  {
    hide After, Clean, OrderFits, SessionPosition, ShiftedSignal, Causal, Strategy.Observed, Runnable;
    EnginesAgree(frame, strategy, config, count);
    CleanExactlyWhenOrdersFit(frame, strategy, config, count);
  }

  // ----- a run on which they differ -----

  lemma BuyAndHoldCausal()
    ensures Causal(BuyAndHold)
  {
  }

  lemma ThinBuyRefused(book: Book, pending: Pending, bar: Candle, config: Config)
    requires config.Valid() && PositivePrices(bar) && bar.volume <= 0 && pending.side == Buy
    ensures AtOpen(book, Some(pending), bar, config).quantity == book.quantity
  {
    hide Affordable, ExecutionPrice;
  }

  /** Nothing is traded on the second bar, so the buy the first one sent is refused. */
  lemma ThinBarDisagrees(first: Candle, thin: Candle, config: Config)
    requires config.Valid() && PositivePrices(first) && PositivePrices(thin) && thin.volume <= 0
    ensures var frame := [first, thin];
            && Runnable(frame, BuyAndHold, config) && After(frame, BuyAndHold, config, 1).Ok?
            && SessionPosition(frame, BuyAndHold, config, 1) == 0
            && ShiftedSignal(frame, BuyAndHold, 1) == 1
  {
    hide RoundTo, EquityOf, DailyReturn, ExecutionPrice, Affordable, Causal;
    var frame := [first, thin];
    BuyAndHoldCausal();
    assert After(frame, BuyAndHold, config, 0) == Ok(Start(config));
    WaitingOrder(frame, BuyAndHold, config, 0);
    WaitingOrder(frame, BuyAndHold, config, 1);
    var s := After(frame, BuyAndHold, config, 1).value;
    assert s.book.quantity == 0;
    assert s.pending.Some? && s.pending.value.side == Buy;
    ThinBuyRefused(s.book, s.pending.value, thin, config);
  }
}
