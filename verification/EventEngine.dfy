/** The event-driven backtest engine (backend/app/backtest/event_engine.py). */
module EventEngine {
  import opened Core
  import opened Market
  import opened Strategies

  datatype Costs = Costs(commission: real, tax: real, slippage: real) {
    /** Each rate is checked on its own. */
    predicate Valid() {
      0.0 <= commission < 1.0 && 0.0 <= tax < 1.0 && 0.0 <= slippage < 1.0
    }
  }

  datatype Config = Config(initialCapital: real, forceClose: bool, costs: Costs, maxParticipation: real) {
    predicate Valid() {
      initialCapital > 0.0 && costs.Valid() && 0.0 < maxParticipation <= 1.0
    }
  }

  datatype Side = Buy | Sell

  datatype Reason = Signal | ForceClose

  datatype Rejection = InsufficientCash | InsufficientLiquidity | NoPosition

  datatype Pending = Pending(side: Side, createdAt: int, executeAt: int)

  datatype Trade = Trade(timestamp: int, side: Side, executionPrice: real, cost: real,
                         positionAfter: int, quantity: int, cashAfter: real)

  datatype Event =
    | MarketEvent(timestamp: int, candle: Candle)
    | SignalEvent(timestamp: int, desired: int, before: int)
    | OrderEvent(timestamp: int, side: Side, executeAt: int, reason: Reason)
    | Rejected(timestamp: int, side: Side, rejection: Rejection)
    | PartialFill(timestamp: int, side: Side, requested: int, filled: int, reason: Reason)
    | Fill(timestamp: int, side: Side, requested: int, quantity: int, marketPrice: real,
           executionPrice: real, commission: real, tax: real, reason: Reason)

  datatype Point = Point(timestamp: int, equity: real, dailyReturn: real, position: int)

  datatype RunError = TooFewCandles | NonPositivePrice | DuplicateTimestamp | StrategyFailed(error: Strategies.Error)

  /** Cash, shares and the two lists that one order execution appends to. */
  datatype Book = Book(cash: real, quantity: int, trades: seq<Trade>, events: seq<Event>)

  // ----- one order -----

  /** The share of the bar's volume that an order may take; None is the bypassed limit. */
  function BoundedQuantity(requested: int, volume: Option<int>, participation: real): int {
    match volume
    case None => requested
    case Some(v) => Min(requested, (Max(0, v) as real * participation).Floor)
  }

  function Position(quantity: int): int {
    if quantity > 0 then 1 else 0
  }

  /** The market price worsened by slippage. */
  function ExecutionPrice(side: Side, price: real, costs: Costs): (r: real)
    requires price > 0.0 && costs.Valid()
    ensures r > 0.0
  {
    if side == Buy then price * (1.0 + costs.slippage) else price * (1.0 - costs.slippage)
  }

  function Notional(executionPrice: real, quantity: int): real {
    executionPrice * quantity as real
  }

  function Fee(notional: real, rate: real): real {
    notional * rate
  }

  function Filled(book: Book, side: Side, timestamp: int, price: real, executionPrice: real,
                  requested: int, filled: int, commission: real, tax: real, reason: Reason): Book
  {
    var notional := Notional(executionPrice, filled);
    var cash := if side == Buy then book.cash - (notional + commission) else book.cash + (notional - commission - tax);
    var quantity := if side == Buy then book.quantity + filled else book.quantity - filled;
    var partials := if requested > filled then [PartialFill(timestamp, side, requested, filled, reason)] else [];
    Book(cash, quantity,
         book.trades
           + [Trade(timestamp, side, executionPrice, commission + tax, Position(quantity), filled,
                    RoundTo(cash, 10000.0))],
         book.events + partials
           + [Fill(timestamp, side, requested, filled, price, executionPrice, commission, tax, reason)])
  }

  /** Whole shares that cash pays for, slippage and commission included. */
  function Affordable(cash: real, executionPrice: real, costs: Costs): int
    requires executionPrice > 0.0 && costs.Valid()
  {
    (cash / (executionPrice * (1.0 + costs.commission))).Floor
  }

  function Reject(book: Book, timestamp: int, side: Side, rejection: Rejection): Book {
    book.(events := book.events + [Rejected(timestamp, side, rejection)])
  }

  function Bought(book: Book, timestamp: int, price: real, volume: Option<int>, config: Config, reason: Reason): Book
    requires price > 0.0 && config.Valid()
  {
    var executionPrice := ExecutionPrice(Buy, price, config.costs);
    var requested := Affordable(book.cash, executionPrice, config.costs);
    if requested <= 0 then Reject(book, timestamp, Buy, InsufficientCash)
    else
      var filled := BoundedQuantity(requested, volume, config.maxParticipation);
      if filled <= 0 then Reject(book, timestamp, Buy, InsufficientLiquidity)
      else
        Filled(book, Buy, timestamp, price, executionPrice, requested, filled,
               Fee(Notional(executionPrice, filled), config.costs.commission), 0.0, reason)
  }

  function Sold(book: Book, timestamp: int, price: real, volume: Option<int>, config: Config, reason: Reason): Book
    requires price > 0.0 && config.Valid()
  {
    if book.quantity <= 0 then Reject(book, timestamp, Sell, NoPosition)
    else
      var executionPrice := ExecutionPrice(Sell, price, config.costs);
      var filled := BoundedQuantity(book.quantity, volume, config.maxParticipation);
      if filled <= 0 then Reject(book, timestamp, Sell, InsufficientLiquidity)
      else
        var notional := Notional(executionPrice, filled);
        Filled(book, Sell, timestamp, price, executionPrice, book.quantity, filled,
               Fee(notional, config.costs.commission), Fee(notional, config.costs.tax), reason)
  }

  function Executed(book: Book, side: Side, timestamp: int, price: real, volume: Option<int>, config: Config,
                    reason: Reason): Book
    requires price > 0.0 && config.Valid()
  {
    if side == Buy then Bought(book, timestamp, price, volume, config, reason)
    else Sold(book, timestamp, price, volume, config, reason)
  }

  // ----- one bar -----

  predicate PositivePrices(c: Candle) {
    c.open > 0.0 && c.high > 0.0 && c.low > 0.0 && c.close > 0.0
  }

  /** What the loop carries from bar to bar. */
  datatype Sim = Sim(book: Book, pending: Option<Pending>, previousEquity: real,
                     equities: seq<real>, dailyReturns: seq<real>, points: seq<Point>)

  function Start(config: Config): Sim {
    Sim(Book(config.initialCapital, 0, [], []), None, config.initialCapital, [], [], [])
  }

  /** The book after the open: the market event, then the order that was waiting for it. */
  function AtOpen(before: Book, pending: Option<Pending>, bar: Candle, config: Config): Book
    requires PositivePrices(bar) && config.Valid()
  {
    var book := before.(events := before.events + [MarketEvent(bar.timestamp, bar)]);
    match pending
    case None => book
    case Some(order) => Executed(book, order.side, bar.timestamp, bar.open, Some(bar.volume), config, Signal)
  }

  /** The order, if any, that the close sends to the next bar; the last bar sends none. */
  function NextOrder(book: Book, desired: int, timestamp: int, next: Option<int>): Option<Pending> {
    if desired != Position(book.quantity) && next.Some? then
      Some(Pending(if desired == 1 then Buy else Sell, timestamp, next.value))
    else None
  }

  function Signalled(openBook: Book, timestamp: int, desired: int, next: Option<int>): Book {
    var order := NextOrder(openBook, desired, timestamp, next);
    openBook.(events :=
      openBook.events + [SignalEvent(timestamp, desired, Position(openBook.quantity))]
      + if order.Some? then [OrderEvent(timestamp, order.value.side, order.value.executeAt, Signal)] else [])
  }

  function AtClose(openBook: Book, bar: Candle, desired: int, next: Option<int>, config: Config): Book
    requires PositivePrices(bar) && config.Valid()
  {
    var signalled := Signalled(openBook, bar.timestamp, desired, next);
    if next.None? && config.forceClose && signalled.quantity > 0 then
      var ordered := signalled.(events :=
        signalled.events + [OrderEvent(bar.timestamp, Sell, bar.timestamp, ForceClose)]);
      Executed(ordered, Sell, bar.timestamp, bar.close, None, config, ForceClose)
    else signalled
  }

  function EquityOf(book: Book, price: real): real {
    book.cash + book.quantity as real * price
  }

  function DailyReturn(equity: real, previous: real): real {
    if previous != 0.0 then equity / previous - 1.0 else 0.0
  }

  /** One round of the loop; next is the following bar's timestamp, None on the last bar. */
  function Bar(s: Sim, bar: Candle, desired: int, next: Option<int>, config: Config): Sim
    requires PositivePrices(bar) && config.Valid()
  {
    var openBook := AtOpen(s.book, s.pending, bar, config);
    var closed := AtClose(openBook, bar, desired, next, config);
    var equity := EquityOf(closed, bar.close);
    var daily := DailyReturn(equity, s.previousEquity);
    Sim(closed, NextOrder(openBook, desired, bar.timestamp, next), equity,
        s.equities + [equity], s.dailyReturns + [daily],
        s.points
          + [Point(bar.timestamp, RoundTo(equity, 10000.0), RoundTo(daily, 100000000.0), Position(closed.quantity))])
  }

  // ----- a run -----

  predicate AllPositive(frame: seq<Candle>) {
    forall i :: 0 <= i < |frame| ==> PositivePrices(frame[i])
  }

  /** What a run may assume of its frame once the input checks have passed. */
  ghost predicate Runnable(frame: seq<Candle>, strategy: Strategy, config: Config) {
    && AllPositive(frame)
    && config.Valid()
    && strategy.WellFormed()
  }

  lemma RunnableAt(frame: seq<Candle>, strategy: Strategy, config: Config, i: nat)
    requires Runnable(frame, strategy, config) && i < |frame|
    ensures PositivePrices(frame[i]) && config.Valid() && strategy.WellFormed()
  {
  }

  function NextTimestamp(frame: seq<Candle>, i: nat): Option<int> {
    if i + 1 < |frame| then Some(frame[i + 1].timestamp) else None
  }

  /** The loop after its first count bars. The strategy sees exactly the bars closed so far. */
  ghost function After(frame: seq<Candle>, strategy: Strategy, config: Config, count: nat)
    : (r: Result<Sim, Strategies.Error>)
    requires Runnable(frame, strategy, config) && count <= |frame|
    ensures r.Ok? ==> |r.value.equities| == |r.value.dailyReturns| == |r.value.points| == count
  {
    if count == 0 then Ok(Start(config))
    else
      var s :- After(frame, strategy, config, count - 1);
      var signals :- strategy.Observed(frame[..count]);
      Ok(Bar(s, frame[count - 1], DesiredAt(signals, count - 1), NextTimestamp(frame, count - 1), config))
  }

  lemma {:induction false} AfterMonotone(frame: seq<Candle>, strategy: Strategy, config: Config, low: nat, high: nat)
    requires Runnable(frame, strategy, config) && low <= high <= |frame|
    ensures After(frame, strategy, config, low).Err? ==>
              After(frame, strategy, config, high) == After(frame, strategy, config, low)
    decreases high
  {
    hide Bar, Strategy.Observed, DesiredAt, Runnable;
    if low < high {
      AfterMonotone(frame, strategy, config, low, high - 1);
    }
  }

  /** One round of the loop, seen from the bars already closed. */
  lemma AfterNext(frame: seq<Candle>, strategy: Strategy, config: Config, index: nat, s: Sim)
    requires Runnable(frame, strategy, config) && index < |frame|
    requires After(frame, strategy, config, index) == Ok(s)
    ensures match strategy.Observed(frame[..index + 1])
            case Err(e) => After(frame, strategy, config, |frame|) == Err(e)
            case Ok(signals) =>
              After(frame, strategy, config, index + 1) ==
              Ok(Bar(s, frame[index], DesiredAt(signals, index), NextTimestamp(frame, index), config))
  {
    hide Bar, Strategy.Observed, DesiredAt;
    AfterMonotone(frame, strategy, config, index + 1, |frame|);
  }

  /** The checks of run, in the source's order; sorting is by timestamp. */
  ghost function RunResult(candles: seq<Candle>, strategy: Strategy, config: Config): Result<Sim, RunError>
    requires config.Valid() && strategy.WellFormed()
  {
    var frame := SortByTime(candles);
    if |candles| < 2 then Err(TooFewCandles)
    else if !AllPositive(frame) then Err(NonPositivePrice)
    else if !Ascending(frame) then Err(DuplicateTimestamp)
    else
      match After(frame, strategy, config, |frame|)
      case Err(e) => Err(StrategyFailed(e))
      case Ok(s) => Ok(s)
  }

  /** One order; the lists the source appends to come back extended. */
  method Execute(side: Side, timestamp: int, marketPrice: real, marketVolume: Option<int>,
                 cash: real, quantity: int, config: Config, trades: seq<Trade>, events: seq<Event>, reason: Reason)
    returns (cash': real, quantity': int, trades': seq<Trade>, events': seq<Event>)
    requires marketPrice > 0.0 && config.Valid()
    ensures Book(cash', quantity', trades', events') ==
            Executed(Book(cash, quantity, trades, events), side, timestamp, marketPrice, marketVolume, config, reason)
  {
    hide RoundTo, Affordable, BoundedQuantity, ExecutionPrice, Notional, Fee;
    var executionPrice, commission, tax, requested, filled;
    cash', quantity', trades', events' := cash, quantity, trades, events;
    if side == Buy {
      executionPrice := ExecutionPrice(Buy, marketPrice, config.costs);
      requested := Affordable(cash, executionPrice, config.costs);
      if requested <= 0 {
        events' := events' + [Rejected(timestamp, side, InsufficientCash)];
        return;
      }
      filled := BoundedQuantity(requested, marketVolume, config.maxParticipation);
      if filled <= 0 {
        events' := events' + [Rejected(timestamp, side, InsufficientLiquidity)];
        return;
      }
      var notional := Notional(executionPrice, filled);
      commission, tax := Fee(notional, config.costs.commission), 0.0;
      cash', quantity' := cash - (notional + commission), quantity + filled;
    } else {
      if quantity <= 0 {
        events' := events' + [Rejected(timestamp, side, NoPosition)];
        return;
      }
      executionPrice := ExecutionPrice(Sell, marketPrice, config.costs);
      requested := quantity;
      filled := BoundedQuantity(requested, marketVolume, config.maxParticipation);
      if filled <= 0 {
        events' := events' + [Rejected(timestamp, side, InsufficientLiquidity)];
        return;
      }
      var notional := Notional(executionPrice, filled);
      commission, tax := Fee(notional, config.costs.commission), Fee(notional, config.costs.tax);
      cash', quantity' := cash + (notional - commission - tax), quantity - filled;
    }
    if requested > filled {
      events' := events' + [PartialFill(timestamp, side, requested, filled, reason)];
    }
    assert events + [] == events;
    trades' := trades' +
      [Trade(timestamp, side, executionPrice, commission + tax, Position(quantity'), filled, RoundTo(cash', 10000.0))];
    events' := events' +
      [Fill(timestamp, side, requested, filled, marketPrice, executionPrice, commission, tax, reason)];
  }

  /** The first half of a loop round: the market event and the waiting order. */
  method OpenBar(bar: Candle, pending: Option<Pending>, cash: real, quantity: int, config: Config,
                 trades: seq<Trade>, events: seq<Event>)
    returns (cash': real, quantity': int, trades': seq<Trade>, events': seq<Event>)
    requires PositivePrices(bar) && config.Valid()
    ensures Book(cash', quantity', trades', events') ==
            AtOpen(Book(cash, quantity, trades, events), pending, bar, config)
  {
    hide Executed;
    cash', quantity', trades' := cash, quantity, trades;
    events' := events + [MarketEvent(bar.timestamp, bar)];
    if pending.Some? {
      cash', quantity', trades', events' :=
        Execute(pending.value.side, bar.timestamp, bar.open, Some(bar.volume), cash, quantity, config, trades, events',
                Signal);
    }
  }

  /** The second half: the signal, the next order, and on the last bar the forced close. */
  method CloseBar(bar: Candle, desired: int, next: Option<int>, cash: real, quantity: int, config: Config,
                  trades: seq<Trade>, events: seq<Event>)
    returns (pending: Option<Pending>, cash': real, quantity': int, trades': seq<Trade>, events': seq<Event>)
    requires PositivePrices(bar) && config.Valid()
    ensures pending == NextOrder(Book(cash, quantity, trades, events), desired, bar.timestamp, next)
    ensures Book(cash', quantity', trades', events') ==
            AtClose(Book(cash, quantity, trades, events), bar, desired, next, config)
  {
    hide Executed;
    var current := Position(quantity);
    cash', quantity', trades' := cash, quantity, trades;
    events' := events + [SignalEvent(bar.timestamp, desired, current)];
    pending := None;
    assert events' + [] == events';
    if desired != current && next.Some? {
      var side := if desired == 1 then Buy else Sell;
      pending := Some(Pending(side, bar.timestamp, next.value));
      events' := events' + [OrderEvent(bar.timestamp, side, next.value, Signal)];
    }
    assert Book(cash, quantity, trades, events') ==
           Signalled(Book(cash, quantity, trades, events), bar.timestamp, desired, next);
    if next.None? && config.forceClose && quantity > 0 {
      events' := events' + [OrderEvent(bar.timestamp, Sell, bar.timestamp, ForceClose)];
      cash', quantity', trades', events' :=
        Execute(Sell, bar.timestamp, bar.close, None, cash, quantity, config, trades, events', ForceClose);
    }
  }

  /** The loop of run over the checked frame, on the strategy object itself, cache and all. */
  method Loop(frame: seq<Candle>, strategy: Strategy, config: Config) returns (r: Result<Sim, Strategies.Error>)
    requires Runnable(frame, strategy, config) && strategy.Valid()
    modifies strategy.Repr()
    ensures strategy.Valid()
    ensures r == After(frame, strategy, config, |frame|)
  {
    assert After(frame, strategy, config, 0) == Ok(Start(config));
    hide After, AtOpen, AtClose, EquityOf, DailyReturn, RoundTo, Strategy.Observed, DesiredAt, Runnable,
         Strategy.Valid, Strategy.WellFormed, PositivePrices;
    var cash, quantity := config.initialCapital, 0;
    var pending: Option<Pending> := None;
    var previousEquity := config.initialCapital;
    var equities: seq<real>, dailyReturns: seq<real>, points: seq<Point> := [], [], [];
    var trades: seq<Trade>, events: seq<Event> := [], [];
    var index := 0;
    while index < |frame|
      invariant index <= |frame|
      invariant strategy.Valid()
      invariant After(frame, strategy, config, index) ==
                Ok(Sim(Book(cash, quantity, trades, events), pending, previousEquity, equities, dailyReturns, points))
    {
      ReprAllocated(strategy);
      var row, next := frame[index], NextTimestamp(frame, index);
      AfterNext(frame, strategy, config, index,
                Sim(Book(cash, quantity, trades, events), pending, previousEquity, equities, dailyReturns, points));
      RunnableAt(frame, strategy, config, index);
      cash, quantity, trades, events := OpenBar(row, pending, cash, quantity, config, trades, events);
      var observed := strategy.Signals(frame[..index + 1]);
      if observed.Err? {
        return Err(observed.error);
      }
      var desired := DesiredAt(observed.value, index);
      pending, cash, quantity, trades, events := CloseBar(row, desired, next, cash, quantity, config, trades, events);
      var equity := EquityOf(Book(cash, quantity, trades, events), row.close);
      var daily := DailyReturn(equity, previousEquity);
      equities := equities + [equity];
      dailyReturns := dailyReturns + [daily];
      points := points
                + [Point(row.timestamp, RoundTo(equity, 10000.0), RoundTo(daily, 100000000.0), Position(quantity))];
      previousEquity := equity;
      index := index + 1;
    }
    r := Ok(Sim(Book(cash, quantity, trades, events), pending, previousEquity, equities, dailyReturns, points));
  }

  /** The whole run: the input checks, then the loop. */
  method Run(candles: seq<Candle>, strategy: Strategy, config: Config) returns (r: Result<Sim, RunError>)
    requires config.Valid() && strategy.Valid()
    modifies strategy.Repr()
    ensures strategy.Valid()
    ensures r == RunResult(candles, strategy, config)
  {
    hide After;
    var frame := SortByTime(candles);
    if |candles| < 2 {
      return Err(TooFewCandles);
    }
    if !AllPositive(frame) {
      return Err(NonPositivePrice);
    }
    if !Ascending(frame) {
      return Err(DuplicateTimestamp);
    }
    var loop := Loop(frame, strategy, config);
    match loop
    case Err(e) => r := Err(StrategyFailed(e));
    case Ok(s) => r := Ok(s);
  }
}
