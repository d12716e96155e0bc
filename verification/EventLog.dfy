/** The event list of a run read as a ledger: replaying it gives the account, and each entry obeys its law. */
module EventLog {
  import opened Core
  import opened Market
  import opened Strategies
  import opened EventEngine
  import opened Sorting

  /**
   * The account as the events so far tell it, with the order waiting for the next open, the one now due,
   * the bars opened and the positions signalled.
   */
  datatype Ledger = Ledger(cash: real, shares: int, bar: Option<Candle>, waiting: Option<Pending>,
                           due: Option<Pending>, last: Option<Event>, bars: seq<Candle>, wishes: seq<int>)

  function Posted(l: Ledger, e: Event): Ledger {
    var next := l.(last := Some(e));
    match e
    case MarketEvent(_, bar) => next.(bar := Some(bar), waiting := None, due := l.waiting, bars := l.bars + [bar])
    case SignalEvent(_, desired, _) => next.(wishes := l.wishes + [desired])
    case OrderEvent(timestamp, side, executeAt, reason) =>
      if reason == Signal then next.(waiting := Some(Pending(side, timestamp, executeAt))) else next
    case Rejected(_, _, _) => next.(due := None)
    case Fill(_, side, _, quantity, _, executionPrice, commission, tax, _) =>
      var paid := executionPrice * quantity as real;
      if side == Buy then next.(cash := l.cash - (paid + commission), shares := l.shares + quantity, due := None)
      else next.(cash := l.cash + (paid - commission - tax), shares := l.shares - quantity, due := None)
    case _ => next
  }

  function Replay(initial: real, events: seq<Event>): Ledger {
    if events == [] then Ledger(initial, 0, None, None, None, None, [], [])
    else Posted(Replay(initial, events[..|events| - 1]), events[|events| - 1])
  }

  // ----- the law of each entry -----

  /** The most whole shares the cash pays for at this price a share, all included. */
  ghost predicate Affords(cash: real, each: real, shares: int) {
    shares as real * each <= cash < (shares + 1) as real * each
  }

  /** Everything asked for, or else as many whole shares as there is room for. */
  ghost predicate Takes(requested: int, filled: int, room: real) {
    filled <= requested && filled as real <= room && (filled == requested || room < (filled + 1) as real)
  }

  function Room(bar: Candle, config: Config): real {
    config.maxParticipation * (if bar.volume > 0 then bar.volume else 0) as real
  }

  /** A share's price to a buyer at the open, slippage and commission included. */
  function Unit(price: real, costs: Costs): real {
    price * (1.0 + costs.slippage) * (1.0 + costs.commission)
  }

  ghost predicate LawfulRejection(l: Ledger, bar: Candle, side: Side, rejection: Rejection, config: Config) {
    match rejection
    case InsufficientCash => side == Buy && l.cash < Unit(bar.open, config.costs)
    case InsufficientLiquidity =>
      Room(bar, config) < 1.0 && if side == Buy then l.cash >= Unit(bar.open, config.costs) else l.shares > 0
    case NoPosition => side == Sell && l.shares <= 0
  }

  ghost predicate LawfulFill(l: Ledger, bar: Candle, e: Event, config: Config)
    requires e.Fill?
  {
    var costs, notional := config.costs, e.executionPrice * e.quantity as real;
    && e.timestamp == bar.timestamp
    && e.marketPrice == (if e.reason == Signal then bar.open else bar.close)
    && e.executionPrice == e.marketPrice * (if e.side == Buy then 1.0 + costs.slippage else 1.0 - costs.slippage)
    && e.commission == notional * costs.commission
    && e.tax == (if e.side == Buy then 0.0 else notional * costs.tax)
    && (if e.side == Buy then Affords(l.cash, Unit(e.marketPrice, costs), e.requested) else e.requested == l.shares)
    && e.quantity >= 1
    && (if e.reason == Signal then Takes(e.requested, e.quantity, Room(bar, config)) else e.quantity == e.requested)
    && (e.quantity < e.requested <==>
        l.last == Some(PartialFill(e.timestamp, e.side, e.requested, e.quantity, e.reason)))
  }

  /** A fill or rejection answers an order: the one due since the open, or the forced close just sent. */
  ghost predicate Answers(l: Ledger, timestamp: int, side: Side, reason: Reason) {
    if reason == Signal then l.due.Some? && l.due.value.side == side && l.due.value.executeAt == timestamp
    else side == Sell && l.last == Some(OrderEvent(timestamp, Sell, timestamp, ForceClose))
  }

  /** No signal for a change was left without an order. */
  ghost predicate Obeyed(l: Ledger) {
    l.last.Some? && l.last.value.SignalEvent? ==> l.last.value.desired == l.last.value.before
  }

  ghost predicate Lawful(l: Ledger, e: Event, config: Config) {
    && (l.last.Some? && l.last.value.PartialFill? ==> e.Fill?)
    && match e
       case MarketEvent(timestamp, bar) =>
         && timestamp == bar.timestamp && l.due.None?
         && (l.waiting.Some? ==> l.waiting.value.executeAt == timestamp) && Obeyed(l)
       case SignalEvent(timestamp, desired, before) =>
         && l.bar.Some? && timestamp == l.bar.value.timestamp && l.due.None?
         && (desired == 0 || desired == 1) && before == (if l.shares > 0 then 1 else 0)
       case OrderEvent(timestamp, side, executeAt, reason) =>
         && l.bar.Some? && timestamp == l.bar.value.timestamp && l.waiting.None?
         && (if reason == Signal then
               && l.last.Some? && l.last.value.SignalEvent? && l.last.value.desired != l.last.value.before
               && (side == Buy <==> l.last.value.desired == 1)
             else side == Sell && l.shares > 0 && executeAt == timestamp)
       case Rejected(timestamp, side, rejection) =>
         && l.bar.Some? && timestamp == l.bar.value.timestamp && Answers(l, timestamp, side, Signal)
         && LawfulRejection(l, l.bar.value, side, rejection, config)
       case PartialFill(timestamp, side, requested, filled, reason) =>
         Answers(l, timestamp, side, reason) && 1 <= filled < requested
       case Fill(timestamp, side, _, _, _, _, _, _, reason) =>
         && l.bar.Some? && LawfulFill(l, l.bar.value, e, config)
         && Answers(l, timestamp, side, reason)
  }

  ghost predicate LawfulLog(events: seq<Event>, config: Config) {
    events == []
    || (LawfulLog(events[..|events| - 1], config)
        && Lawful(Replay(config.initialCapital, events[..|events| - 1]), events[|events| - 1], config))
  }

  ghost predicate Rounded(shown: real, exact: real, scale: real) {
    -0.5 <= exact * scale - shown * scale <= 0.5
  }

  /** Each trade records one fill, in order, with the position and the cash that the ledger shows after it. */
  ghost predicate Records(t: Trade, e: Event, after: Ledger)
    requires e.Fill?
  {
    && t.timestamp == e.timestamp && t.side == e.side && t.quantity == e.quantity
    && t.executionPrice == e.executionPrice && t.cost == e.commission + e.tax
    && t.positionAfter == (if after.shares > 0 then 1 else 0)
    && Rounded(t.cashAfter, after.cash, 10000.0)
  }

  ghost predicate Recorded(trades: seq<Trade>, events: seq<Event>, initial: real) {
    if events == [] then trades == []
    else
      var e, after := events[|events| - 1], Replay(initial, events);
      if !e.Fill? then Recorded(trades, events[..|events| - 1], initial)
      else
        && trades != [] && Recorded(trades[..|trades| - 1], events[..|events| - 1], initial)
        && Records(trades[|trades| - 1], e, after)
  }

  lemma DividedTimes(x: real, y: real)
    requires y != 0.0
    ensures (x / y) * y == x
  {
  }

  lemma RoundToRounds(x: real, scale: real)
    requires scale > 0.0
    ensures Rounded(RoundTo(x, scale), x, scale)
  {
    var exact := x * scale;
    DividedTimes(HalfEven(exact) as real, scale);
    assert RoundTo(x, scale) == HalfEven(exact) as real / scale;
  }

  /** The book is what its own events say. */
  ghost predicate Balanced(book: Book, config: Config) {
    var l := Replay(config.initialCapital, book.events);
    && LawfulLog(book.events, config)
    && l.cash == book.cash && l.shares == book.quantity
    && Recorded(book.trades, book.events, config.initialCapital)
    && !(l.last.Some? && l.last.value.PartialFill?)
  }

  lemma Extended(events: seq<Event>, e: Event, config: Config)
    requires LawfulLog(events, config) && Lawful(Replay(config.initialCapital, events), e, config)
    ensures LawfulLog(events + [e], config)
    ensures Replay(config.initialCapital, events + [e]) == Posted(Replay(config.initialCapital, events), e)
    ensures !e.Fill? ==> forall trades :: Recorded(trades, events, config.initialCapital) ==>
                                          Recorded(trades, events + [e], config.initialCapital)
  {
    hide Lawful, Posted;
    assert (events + [e])[..|events|] == events;
  }

  // ----- one order -----

  lemma TimesKeeps(a: real, b: real, factor: real)
    requires factor > 0.0
    ensures a <= b ==> a * factor <= b * factor
    ensures a < b ==> a * factor < b * factor
  {
  }

  lemma FloorAffords(cash: real, each: real)
    requires each > 0.0
    ensures Affords(cash, each, (cash / each).Floor)
  {
    var ratio := cash / each;
    var shares := ratio.Floor;
    DividedTimes(cash, each);
    TimesKeeps(shares as real, ratio, each);
    TimesKeeps(ratio, (shares + 1) as real, each);
  }

  lemma UnitIs(price: real, costs: Costs)
    requires price > 0.0 && costs.Valid()
    ensures Unit(price, costs) == ExecutionPrice(Buy, price, costs) * (1.0 + costs.commission) > 0.0
  {
    TimesKeeps(0.0, ExecutionPrice(Buy, price, costs), 1.0 + costs.commission);
  }

  lemma AffordableAt(cash: real, executionPrice: real, costs: Costs, each: real)
    requires executionPrice > 0.0 && costs.Valid() && each == executionPrice * (1.0 + costs.commission) && each > 0.0
    ensures Affords(cash, each, Affordable(cash, executionPrice, costs))
  {
    hide Affords;
    FloorAffords(cash, each);
  }

  lemma AffordableAffords(cash: real, price: real, costs: Costs)
    requires price > 0.0 && costs.Valid()
    ensures Affords(cash, Unit(price, costs), Affordable(cash, ExecutionPrice(Buy, price, costs), costs))
    ensures Unit(price, costs) > 0.0
  {
    hide Affords, Unit, ExecutionPrice, Affordable;
    UnitIs(price, costs);
    AffordableAt(cash, ExecutionPrice(Buy, price, costs), costs, Unit(price, costs));
  }

  lemma AffordsSign(cash: real, each: real, shares: int)
    requires Affords(cash, each, shares) && each > 0.0
    ensures shares <= 0 <==> cash < each
  {
    if shares <= 0 {
      assert (shares + 1) as real * each <= each;
    } else {
      assert shares as real * each >= each;
    }
  }

  lemma BoundedTakes(requested: int, bar: Candle, config: Config)
    requires requested > 0 && config.Valid()
    ensures var filled := BoundedQuantity(requested, Some(bar.volume), config.maxParticipation);
            if filled <= 0 then Room(bar, config) < 1.0 else Takes(requested, filled, Room(bar, config))
    ensures BoundedQuantity(requested, None, config.maxParticipation) == requested
  {
    var v := Max(0, bar.volume) as real;
    assert v * config.maxParticipation == Room(bar, config);
  }

  lemma FilledEvents(book: Book, partial: Event, fill: Event, config: Config)
    requires var l := Replay(config.initialCapital, book.events);
             && LawfulLog(book.events, config) && !(l.last.Some? && l.last.value.PartialFill?)
             && l.bar.Some? && partial.PartialFill? && fill.Fill? && Answers(l, fill.timestamp, fill.side, fill.reason)
             && partial == PartialFill(fill.timestamp, fill.side, fill.requested, fill.quantity, fill.reason)
             && (fill.requested > fill.quantity ==> fill.reason == Signal)
             && fill.quantity >= 1
             && LawfulFill(if fill.requested > fill.quantity then l.(last := Some(partial)) else l,
                           l.bar.value, fill, config)
    ensures var before := Replay(config.initialCapital, book.events);
            var middle := book.events + if fill.requested > fill.quantity then [partial] else [];
            && LawfulLog(middle + [fill], config)
            && Replay(config.initialCapital, middle + [fill]) == Posted(before, fill)
            && (forall trades :: Recorded(trades, book.events, config.initialCapital) ==>
                                 Recorded(trades, middle, config.initialCapital))
  {
    hide LawfulFill, LawfulRejection, LawfulLog, Replay, Recorded;
    var middle := book.events + if fill.requested > fill.quantity then [partial] else [];
    if fill.requested > fill.quantity {
      Extended(book.events, partial, config);
    } else {
      assert middle == book.events;
    }
    Extended(middle, fill, config);
  }

  lemma RecordedNext(trades: seq<Trade>, events: seq<Event>, t: Trade, e: Event, initial: real)
    requires Recorded(trades, events, initial) && e.Fill? && Records(t, e, Replay(initial, events + [e]))
    ensures Recorded(trades + [t], events + [e], initial)
  {
    hide Records, Posted;
    assert (events + [e])[..|events|] == events;
    assert (trades + [t])[..|trades|] == trades;
  }

  /** What an execution leaves alone: the bar, and the order sent for the next one. */
  ghost predicate Advanced(book: Book, after: Book, config: Config) {
    var l, m := Replay(config.initialCapital, book.events), Replay(config.initialCapital, after.events);
    && m.bar == l.bar && m.waiting == l.waiting && m.due == None
    && m.bars == l.bars && m.wishes == l.wishes
  }

  lemma FilledPosts(book: Book, side: Side, timestamp: int, price: real, executionPrice: real,
                    requested: int, filled: int, commission: real, tax: real, reason: Reason, config: Config)
    requires Balanced(book, config) && Replay(config.initialCapital, book.events).bar.Some?
    requires side == Buy ==> tax == 0.0
    requires Answers(Replay(config.initialCapital, book.events), timestamp, side, reason)
    requires requested > filled ==> reason == Signal
    requires var l := Replay(config.initialCapital, book.events);
             var e := Fill(timestamp, side, requested, filled, price, executionPrice, commission, tax, reason);
             && filled >= 1
             && LawfulFill(if requested > filled then
                             l.(last := Some(PartialFill(timestamp, side, requested, filled, reason)))
                           else l, l.bar.value, e, config)
    ensures var after :=
      Filled(book, side, timestamp, price, executionPrice, requested, filled, commission, tax, reason);
            Balanced(after, config) && Advanced(book, after, config)
  {
    hide RoundTo, LawfulFill, Rounded, Answers, LawfulLog, Lawful, Recorded, Replay;
    var partial := PartialFill(timestamp, side, requested, filled, reason);
    var fill := Fill(timestamp, side, requested, filled, price, executionPrice, commission, tax, reason);
    FilledEvents(book, partial, fill, config);
    var middle := book.events + if requested > filled then [partial] else [];
    var after := Filled(book, side, timestamp, price, executionPrice, requested, filled, commission, tax, reason);
    assert after.events == middle + [fill];
    RoundToRounds(after.cash, 10000.0);
    var l, t := Replay(config.initialCapital, middle + [fill]), after.trades[|book.trades|];
    assert l.cash == after.cash && l.shares == after.quantity;
    assert t.cost == fill.commission + fill.tax;
    assert t.positionAfter == if l.shares > 0 then 1 else 0;
    assert Rounded(t.cashAfter, l.cash, 10000.0);
    RecordedNext(book.trades, middle, after.trades[|book.trades|], fill, config.initialCapital);
    assert after.trades == book.trades + [after.trades[|book.trades|]];
  }

  // ----- an execution keeps the ledger -----

  /** The order an execution is called with, against the bar on the ledger. */
  ghost predicate Called(l: Ledger, bar: Candle, side: Side, timestamp: int, price: real, volume: Option<int>,
                         reason: Reason)
  {
    && l.bar == Some(bar) && timestamp == bar.timestamp && Answers(l, timestamp, side, reason)
    && (if reason == Signal then price == bar.open && volume == Some(bar.volume)
        else price == bar.close && volume == None && l.shares > 0)
  }

  lemma RejectedPosts(book: Book, timestamp: int, side: Side, rejection: Rejection, config: Config)
    requires Balanced(book, config)
    requires var l := Replay(config.initialCapital, book.events);
             && Answers(l, timestamp, side, Signal)
             && l.bar.Some? && timestamp == l.bar.value.timestamp
             && LawfulRejection(l, l.bar.value, side, rejection, config)
    ensures var after := Reject(book, timestamp, side, rejection);
            Balanced(after, config) && Advanced(book, after, config)
  {
    hide LawfulRejection, Answers, Replay, Recorded, LawfulLog;
    Extended(book.events, Rejected(timestamp, side, rejection), config);
  }

  lemma BoughtPosts(book: Book, bar: Candle, timestamp: int, price: real, config: Config)
    requires Balanced(book, config) && price > 0.0 && config.Valid()
    requires Called(Replay(config.initialCapital, book.events), bar, Buy, timestamp, price, Some(bar.volume), Signal)
    ensures var after := Bought(book, timestamp, price, Some(bar.volume), config, Signal);
            Balanced(after, config) && Advanced(book, after, config)
  {
    hide Affordable, BoundedQuantity, Filled, Recorded, LawfulLog, Advanced, Replay, Answers, Affords, Takes, Room,
         Unit;
    AffordableAffords(book.cash, price, config.costs);
    var executionPrice := ExecutionPrice(Buy, price, config.costs);
    var requested := Affordable(book.cash, executionPrice, config.costs);
    AffordsSign(book.cash, Unit(price, config.costs), requested);
    if requested <= 0 {
      RejectedPosts(book, timestamp, Buy, InsufficientCash, config);
    } else {
      BoundedTakes(requested, bar, config);
      var filled := BoundedQuantity(requested, Some(bar.volume), config.maxParticipation);
      if filled <= 0 {
        RejectedPosts(book, timestamp, Buy, InsufficientLiquidity, config);
      } else {
        FilledPosts(book, Buy, timestamp, price, executionPrice, requested, filled,
                    Fee(Notional(executionPrice, filled), config.costs.commission), 0.0, Signal, config);
      }
    }
  }

  lemma SoldPosts(book: Book, bar: Candle, timestamp: int, price: real, volume: Option<int>, config: Config,
                  reason: Reason)
    requires Balanced(book, config) && price > 0.0 && config.Valid()
    requires Called(Replay(config.initialCapital, book.events), bar, Sell, timestamp, price, volume, reason)
    ensures var after := Sold(book, timestamp, price, volume, config, reason);
            Balanced(after, config) && Advanced(book, after, config)
  {
    hide BoundedQuantity, Filled, Recorded, LawfulLog, Advanced, Replay, Answers, Affords, Takes, Room, Unit;
    if book.quantity <= 0 {
      RejectedPosts(book, timestamp, Sell, NoPosition, config);
    } else {
      BoundedTakes(book.quantity, bar, config);
      var executionPrice := ExecutionPrice(Sell, price, config.costs);
      var filled := BoundedQuantity(book.quantity, volume, config.maxParticipation);
      if filled <= 0 {
        RejectedPosts(book, timestamp, Sell, InsufficientLiquidity, config);
      } else {
        var notional := Notional(executionPrice, filled);
        FilledPosts(book, Sell, timestamp, price, executionPrice, book.quantity, filled,
                    Fee(notional, config.costs.commission), Fee(notional, config.costs.tax), reason, config);
      }
    }
  }

  lemma ExecutedPosts(book: Book, bar: Candle, side: Side, timestamp: int, price: real, volume: Option<int>,
                      config: Config, reason: Reason)
    requires Balanced(book, config) && price > 0.0 && config.Valid()
    requires Called(Replay(config.initialCapital, book.events), bar, side, timestamp, price, volume, reason)
    ensures var after := Executed(book, side, timestamp, price, volume, config, reason);
            Balanced(after, config) && Advanced(book, after, config)
  {
    hide Balanced, Advanced, Replay, Bought, Sold;
    if side == Buy {
      BoughtPosts(book, bar, timestamp, price, config);
    } else {
      SoldPosts(book, bar, timestamp, price, volume, config, reason);
    }
  }

  // ----- a bar keeps the ledger -----

  /** One entry that is not a fill. */
  lemma EntryPosts(book: Book, e: Event, config: Config)
    requires Balanced(book, config) && Lawful(Replay(config.initialCapital, book.events), e, config)
    requires !e.Fill? && !e.PartialFill?
    ensures Balanced(book.(events := book.events + [e]), config)
    ensures Replay(config.initialCapital, book.events + [e]) ==
            Posted(Replay(config.initialCapital, book.events), e)
  {
    hide Lawful, Replay, Recorded, LawfulLog;
    Extended(book.events, e, config);
  }

  lemma AtOpenPosts(book: Book, pending: Option<Pending>, bar: Candle, config: Config)
    requires Balanced(book, config) && PositivePrices(bar) && config.Valid()
    requires var l := Replay(config.initialCapital, book.events);
             && l.waiting == pending && l.due == None && Obeyed(l)
             && (pending.Some? ==> pending.value.executeAt == bar.timestamp)
    ensures var after := AtOpen(book, pending, bar, config);
            var l, m := Replay(config.initialCapital, book.events), Replay(config.initialCapital, after.events);
            && Balanced(after, config)
            && m.bar == Some(bar) && m.waiting == None && m.due == None
            && m.bars == l.bars + [bar] && m.wishes == l.wishes
  {
    hide Executed, Replay, Recorded, LawfulLog;
    EntryPosts(book, MarketEvent(bar.timestamp, bar), config);
    var marked := book.(events := book.events + [MarketEvent(bar.timestamp, bar)]);
    if pending.Some? {
      ExecutedPosts(marked, bar, pending.value.side, bar.timestamp, bar.open, Some(bar.volume), config, Signal);
    }
  }

  lemma SignalledPosts(book: Book, bar: Candle, desired: int, next: Option<int>, config: Config)
    requires Balanced(book, config) && (desired == 0 || desired == 1)
    requires var l := Replay(config.initialCapital, book.events);
             l.bar == Some(bar) && l.waiting == None && l.due == None
    ensures var after := Signalled(book, bar.timestamp, desired, next);
            var l, m := Replay(config.initialCapital, book.events), Replay(config.initialCapital, after.events);
            && Balanced(after, config)
            && m.bar == Some(bar) && m.waiting == NextOrder(book, desired, bar.timestamp, next) && m.due == None
            && m.bars == l.bars && m.wishes == l.wishes + [desired] && (next.Some? ==> Obeyed(m))
  {
    hide Replay, Recorded, LawfulLog;
    var signal := SignalEvent(bar.timestamp, desired, Position(book.quantity));
    EntryPosts(book, signal, config);
    var noted := book.(events := book.events + [signal]);
    var order := NextOrder(book, desired, bar.timestamp, next);
    if order.Some? {
      EntryPosts(noted, OrderEvent(bar.timestamp, order.value.side, order.value.executeAt, Signal), config);
    } else {
      assert book.events + [signal] + [] == book.events + [signal];
    }
  }

  lemma AtClosePosts(book: Book, bar: Candle, desired: int, next: Option<int>, config: Config)
    requires Balanced(book, config) && PositivePrices(bar) && config.Valid() && (desired == 0 || desired == 1)
    requires var l := Replay(config.initialCapital, book.events);
             l.bar == Some(bar) && l.waiting == None && l.due == None
    ensures var after := AtClose(book, bar, desired, next, config);
            var l, m := Replay(config.initialCapital, book.events), Replay(config.initialCapital, after.events);
            && Balanced(after, config)
            && m.waiting == NextOrder(book, desired, bar.timestamp, next) && m.due == None
            && m.bars == l.bars && m.wishes == l.wishes + [desired] && (next.Some? ==> Obeyed(m))
  {
    hide Executed, Signalled, Replay, Recorded, LawfulLog;
    SignalledPosts(book, bar, desired, next, config);
    var signalled := Signalled(book, bar.timestamp, desired, next);
    if next.None? && config.forceClose && signalled.quantity > 0 {
      var order := OrderEvent(bar.timestamp, Sell, bar.timestamp, ForceClose);
      EntryPosts(signalled, order, config);
      ExecutedPosts(signalled.(events := signalled.events + [order]), bar, Sell, bar.timestamp, bar.close, None,
                    config, ForceClose);
    }
  }

  // ----- the run -----

  ghost predicate WishAt(frame: seq<Candle>, strategy: Strategy, i: nat, wish: int)
    requires strategy.WellFormed() && i < |frame|
  {
    var observed := strategy.Observed(frame[..i + 1]);
    observed.Ok? && wish == DesiredAt(observed.value, i)
  }

  lemma EmptyLog(config: Config)
    ensures Balanced(Book(config.initialCapital, 0, [], []), config)
    ensures Replay(config.initialCapital, []) == Ledger(config.initialCapital, 0, None, None, None, None, [], [])
  {
  }

  /**
   * After any count of bars the event list opens those bars in order, signals what the strategy wants of each,
   * obeys the law entry by entry, and replays to the account and the waiting order the loop carries.
   */
  lemma {:induction false} LogIsLawful(frame: seq<Candle>, strategy: Strategy, config: Config, count: nat)
    requires Runnable(frame, strategy, config) && count <= |frame| && After(frame, strategy, config, count).Ok?
    ensures var s := After(frame, strategy, config, count).value;
            var l := Replay(config.initialCapital, s.book.events);
            && Balanced(s.book, config)
            && l.waiting == s.pending && l.due == None
            && (count < |frame| ==> Obeyed(l))
            && (count < |frame| && s.pending.Some? ==> s.pending.value.executeAt == frame[count].timestamp)
            && l.bars == frame[..count]
            && |l.wishes| == count && forall i :: 0 <= i < count ==> WishAt(frame, strategy, i, l.wishes[i])
  {
    hide AtOpen, AtClose, Strategy.Observed, EquityOf, DailyReturn, RoundTo, Balanced, Replay, Runnable,
         PositivePrices;
    if count == 0 {
      EmptyLog(config);
    } else {
      var i := count - 1;
      RunnableAt(frame, strategy, config, i);
      LogIsLawful(frame, strategy, config, i);
      var before := After(frame, strategy, config, i).value;
      var openBook := AtOpen(before.book, before.pending, frame[i], config);
      var desired := DesiredAt(strategy.Observed(frame[..count]).value, i);
      AtOpenPosts(before.book, before.pending, frame[i], config);
      AtClosePosts(openBook, frame[i], desired, NextTimestamp(frame, i), config);
      assert frame[..count] == frame[..i] + [frame[i]];
    }
  }

  lemma {:induction false} EntryIsLawful(events: seq<Event>, config: Config, k: nat)
    requires LawfulLog(events, config) && k < |events|
    ensures Lawful(Replay(config.initialCapital, events[..k]), events[k], config)
  {
    hide Lawful, Replay;
    if k < |events| - 1 {
      var init := events[..|events| - 1];
      EntryIsLawful(init, config, k);
      assert init[..k] == events[..k];
    }
  }

  lemma LastBarSendsNothing(frame: seq<Candle>, strategy: Strategy, config: Config)
    requires Runnable(frame, strategy, config) && After(frame, strategy, config, |frame|).Ok?
    ensures After(frame, strategy, config, |frame|).value.pending == None
  {
    hide AtOpen, AtClose, RoundTo, DailyReturn, EquityOf, DesiredAt, Runnable;
  }

  /** The finished run: its event list, account, bars and signals. */
  lemma RunIsLawful(candles: seq<Candle>, strategy: Strategy, config: Config)
    requires config.Valid() && strategy.WellFormed() && RunResult(candles, strategy, config).Ok?
    ensures var book, frame := RunResult(candles, strategy, config).value.book, SortByTime(candles);
            var l := Replay(config.initialCapital, book.events);
            && Balanced(book, config)
            && l.waiting == None && l.due == None && l.bars == frame && |l.wishes| == |frame|
            && forall i :: 0 <= i < |frame| ==> WishAt(frame, strategy, i, l.wishes[i])
  {
    hide After, Replay, Balanced, WishAt;
    var frame := SortByTime(candles);
    LogIsLawful(frame, strategy, config, |frame|);
    LastBarSendsNothing(frame, strategy, config);
    assert frame[..|frame|] == frame;
  }

  /**
   * Every fill of every run: the price is the bar's, worsened by slippage; the fees are the rates; a buyer asks
   * for as many shares as the cash then on the ledger pays for, a seller for all; and an order filled at the open
   * takes no more than its share of the bar's volume, and all it asks for or as much as that share allows.
   */
  lemma FillsObeyLimits(frame: seq<Candle>, strategy: Strategy, config: Config, count: nat, k: nat)
    requires Runnable(frame, strategy, config) && count <= |frame| && After(frame, strategy, config, count).Ok?
    requires var events := After(frame, strategy, config, count).value.book.events;
             k < |events| && events[k].Fill?
    ensures var events := After(frame, strategy, config, count).value.book.events;
            var e, before, costs := events[k], Replay(config.initialCapital, events[..k]), config.costs;
            && before.bar.Some? && e.timestamp == before.bar.value.timestamp
            && var bar := before.bar.value;
               var room := config.maxParticipation * (if bar.volume > 0 then bar.volume else 0) as real;
               var each := e.marketPrice * (1.0 + costs.slippage) * (1.0 + costs.commission);
               && e.marketPrice == (if e.reason == Signal then bar.open else bar.close)
               && 1 <= e.quantity <= e.requested
               && (e.reason == Signal ==> e.quantity as real <= room)
               && (e.quantity == e.requested || (e.reason == Signal && room < (e.quantity + 1) as real))
               && (e.side == Buy ==>
                     e.requested as real * each <= before.cash < (e.requested + 1) as real * each)
               && (e.side == Sell ==> e.requested == before.shares)
               && e.commission == e.executionPrice * e.quantity as real * costs.commission
               && e.tax == if e.side == Buy then 0.0 else e.executionPrice * e.quantity as real * costs.tax
  {
    hide After, Runnable, Replay, Recorded, LawfulLog;
    LogIsLawful(frame, strategy, config, count);
    EntryIsLawful(After(frame, strategy, config, count).value.book.events, config, k);
  }

  // ----- the reported points -----

  /** Point k shows its bar's time, the equity to four places, and the return to eight, zero after zero equity. */
  ghost predicate PointShows(s: Sim, frame: seq<Candle>, config: Config, k: nat)
    requires k < |s.points| && |s.points| == |s.equities| == |s.dailyReturns| <= |frame|
  {
    var previous := if k == 0 then config.initialCapital else s.equities[k - 1];
    && s.points[k].timestamp == frame[k].timestamp
    && Rounded(s.points[k].equity, s.equities[k], 10000.0)
    && Rounded(s.points[k].dailyReturn, s.dailyReturns[k], 100000000.0)
    && (if previous == 0.0 then s.dailyReturns[k] == 0.0 else previous * (1.0 + s.dailyReturns[k]) == s.equities[k])
  }

  lemma EarlierShows(before: Sim, s: Sim, frame: seq<Candle>, config: Config, k: nat)
    requires k < |before.points| && |before.points| == |before.equities| == |before.dailyReturns|
    requires |s.points| == |s.equities| == |s.dailyReturns| == |before.points| + 1 <= |frame|
    requires s.points[..|before.points|] == before.points && s.equities[..|before.points|] == before.equities
    requires s.dailyReturns[..|before.points|] == before.dailyReturns
    requires PointShows(before, frame, config, k)
    ensures PointShows(s, frame, config, k)
  {
    assert s.points[k] == before.points[k] && s.dailyReturns[k] == before.dailyReturns[k];
    assert s.equities[k] == before.equities[k] && (k > 0 ==> s.equities[k - 1] == before.equities[k - 1]);
  }

  lemma DailyReturnIs(equity: real, previous: real)
    ensures if previous == 0.0 then DailyReturn(equity, previous) == 0.0
            else previous * (1.0 + DailyReturn(equity, previous)) == equity
  {
    if previous != 0.0 {
      DividedTimes(equity, previous);
    }
  }

  lemma NewestShows(frame: seq<Candle>, strategy: Strategy, config: Config, i: nat)
    requires Runnable(frame, strategy, config) && i < |frame| && After(frame, strategy, config, i + 1).Ok?
    requires After(frame, strategy, config, i).Ok?
    requires var before := After(frame, strategy, config, i).value;
             before.previousEquity == if i == 0 then config.initialCapital else before.equities[i - 1]
    ensures PointShows(After(frame, strategy, config, i + 1).value, frame, config, i)
  {
    hide AtOpen, AtClose, Strategy.Observed, EquityOf, DailyReturn, RoundTo, Rounded, Runnable, PositivePrices;
    RunnableAt(frame, strategy, config, i);
    var before, s := After(frame, strategy, config, i).value, After(frame, strategy, config, i + 1).value;
    RoundToRounds(s.equities[i], 10000.0);
    RoundToRounds(s.dailyReturns[i], 100000000.0);
    DailyReturnIs(s.equities[i], before.previousEquity);
    assert s.dailyReturns[i] == DailyReturn(s.equities[i], before.previousEquity);
  }

  lemma {:induction false} PointsShow(frame: seq<Candle>, strategy: Strategy, config: Config, count: nat)
    requires Runnable(frame, strategy, config) && count <= |frame| && After(frame, strategy, config, count).Ok?
    ensures var s := After(frame, strategy, config, count).value;
            && s.previousEquity == (if count == 0 then config.initialCapital else s.equities[count - 1])
            && forall k :: 0 <= k < count ==> PointShows(s, frame, config, k)
  {
    hide AtOpen, AtClose, Strategy.Observed, EquityOf, DailyReturn, RoundTo, Rounded, Runnable, PositivePrices,
         PointShows;
    if count > 0 {
      var i := count - 1;
      RunnableAt(frame, strategy, config, i);
      PointsShow(frame, strategy, config, i);
      var before, s := After(frame, strategy, config, i).value, After(frame, strategy, config, count).value;
      forall k | 0 <= k < count
        ensures PointShows(s, frame, config, k)
      {
        if k < i {
          EarlierShows(before, s, frame, config, k);
        } else {
          NewestShows(frame, strategy, config, i);
        }
      }
    }
  }

  // ----- what a run refuses -----

  lemma AllPricedExactly(frame: seq<Candle>)
    ensures AllPositive(frame) <==>
            forall c :: c in frame ==> c.open > 0.0 && c.high > 0.0 && c.low > 0.0 && c.close > 0.0
  {
    assert forall i :: 0 <= i < |frame| ==> frame[i] in frame;
  }

  lemma AscendingExactly(frame: seq<Candle>)
    requires SortedBy(ByTime, frame)
    ensures Ascending(frame) <==> !exists i :: 0 < i < |frame| && frame[i - 1].timestamp == frame[i].timestamp
  {
    if !exists i :: 0 < i < |frame| && frame[i - 1].timestamp == frame[i].timestamp {
      forall i, j | 0 <= i < j < |frame|
        ensures frame[i].timestamp < frame[j].timestamp
      {
        assert ByTime(frame[i], frame[j - 1]) || i == j - 1;
        assert ByTime(frame[j - 1], frame[j]);
      }
    }
  }

  /** The input checks: two candles, positive prices, and no two at one time, in that order. */
  lemma RefusedExactly(candles: seq<Candle>, strategy: Strategy, config: Config)
    requires config.Valid() && strategy.WellFormed()
    ensures var frame, r := SortByTime(candles), RunResult(candles, strategy, config);
            var priced := forall c :: c in candles ==> c.open > 0.0 && c.high > 0.0 && c.low > 0.0 && c.close > 0.0;
            var repeated := exists i :: 0 < i < |frame| && frame[i - 1].timestamp == frame[i].timestamp;
            && (r == Err(TooFewCandles) <==> |candles| < 2)
            && (r == Err(NonPositivePrice) <==> |candles| >= 2 && !priced)
            && (r == Err(DuplicateTimestamp) <==> |candles| >= 2 && priced && repeated)
  {
    hide After, SortByTime, PositivePrices;
    SortByTimeLaws(candles);
    var frame := SortByTime(candles);
    AllPricedExactly(frame);
    AscendingExactly(frame);
  }
}
