/** Money in a run: equity is capital plus market moves minus costs, and cash stays non-negative. */
module Accounting {
  import opened Core
  import opened Market
  import opened Strategies
  import opened EventEngine

  // ----- costs, read off the fills the run reports -----

  function CostOf(e: Event): real {
    match e
    case Fill(_, _, _, quantity, marketPrice, executionPrice, commission, tax, _) =>
      commission + tax + quantity as real * Abs(executionPrice - marketPrice)
    case _ => 0.0
  }

  function TotalCosts(events: seq<Event>): real {
    if events == [] then 0.0 else TotalCosts(events[..|events| - 1]) + CostOf(events[|events| - 1])
  }

  lemma {:induction false} TotalCostsAppend(a: seq<Event>, b: seq<Event>)
    ensures TotalCosts(a + b) == TotalCosts(a) + TotalCosts(b)
  {
    if b == [] {
      assert a + b == a;
    } else {
      var init := b[..|b| - 1];
      assert (a + b)[..|a + b| - 1] == a + init;
      TotalCostsAppend(a, init);
    }
  }

  lemma FreeEvents(events: seq<Event>)
    requires |events| <= 2 && forall e :: e in events ==> !e.Fill?
    ensures TotalCosts(events) == 0.0
  {
    if |events| > 0 {
      assert events[|events| - 1] in events;
      if |events| == 2 {
        assert events[0] in events;
        assert TotalCosts(events[..1]) == 0.0;
      }
    }
  }

  // ----- one execution keeps wealth, except for its costs -----

  /** Rearranging money and shares at one price, with the price gap and the fees paid. */
  lemma ExchangeAtMarket(cash: real, held: real, price: real, execution: real, filled: real, fees: real)
    ensures cash - (execution * filled + fees) + (held + filled) * price
            == cash + held * price - (fees + filled * (execution - price))
    ensures cash + (execution * filled - fees) + (held - filled) * price
            == cash + held * price - (fees + filled * (price - execution))
  {
  }

  lemma FilledEquity(book: Book, side: Side, timestamp: int, price: real, executionPrice: real,
                     requested: int, filled: int, commission: real, tax: real, reason: Reason)
    requires if side == Buy then executionPrice >= price && tax == 0.0 else executionPrice <= price
    ensures var after :=
      Filled(book, side, timestamp, price, executionPrice, requested, filled, commission, tax, reason);
            EquityOf(after, price) ==
            EquityOf(book, price)
              - CostOf(Fill(timestamp, side, requested, filled, price, executionPrice, commission, tax, reason))
  {
    hide RoundTo;
    ExchangeAtMarket(book.cash, book.quantity as real, price, executionPrice, filled as real, commission + tax);
  }

  lemma FilledCosts(book: Book, side: Side, timestamp: int, price: real, executionPrice: real,
                    requested: int, filled: int, commission: real, tax: real, reason: Reason)
    requires if side == Buy then executionPrice >= price && tax == 0.0 else executionPrice <= price
    ensures var after :=
      Filled(book, side, timestamp, price, executionPrice, requested, filled, commission, tax, reason);
            EquityOf(after, price) == EquityOf(book, price) - (TotalCosts(after.events) - TotalCosts(book.events))
  {
    hide RoundTo, EquityOf;
    var after := Filled(book, side, timestamp, price, executionPrice, requested, filled, commission, tax, reason);
    var partials := if requested > filled then [PartialFill(timestamp, side, requested, filled, reason)] else [];
    var fill := Fill(timestamp, side, requested, filled, price, executionPrice, commission, tax, reason);
    FreeEvents(partials);
    TotalCostsAppend(book.events, partials);
    TotalCostsAppend(book.events + partials, [fill]);
    assert TotalCosts([fill]) == CostOf(fill);
    FilledEquity(book, side, timestamp, price, executionPrice, requested, filled, commission, tax, reason);
  }

  lemma SlippageSign(side: Side, price: real, costs: Costs)
    requires price > 0.0 && costs.Valid()
    ensures side == Buy ==> ExecutionPrice(side, price, costs) >= price
    ensures side == Sell ==> ExecutionPrice(side, price, costs) <= price
  {
  }

  lemma ExecutedCosts(book: Book, side: Side, timestamp: int, price: real, volume: Option<int>, config: Config,
                      reason: Reason)
    requires price > 0.0 && config.Valid()
    ensures var after := Executed(book, side, timestamp, price, volume, config, reason);
            EquityOf(after, price) == EquityOf(book, price) - (TotalCosts(after.events) - TotalCosts(book.events))
  {
    hide Affordable, BoundedQuantity, ExecutionPrice, Notional, Fee, Filled;
    SlippageSign(side, price, config.costs);
    var after := Executed(book, side, timestamp, price, volume, config, reason);
    var executionPrice := ExecutionPrice(side, price, config.costs);
    var requested := if side == Buy then Affordable(book.cash, executionPrice, config.costs) else book.quantity;
    var filled := BoundedQuantity(requested, volume, config.maxParticipation);
    if requested <= 0 || filled <= 0 {
      var e := after.events[|book.events|];
      FreeEvents([e]);
      TotalCostsAppend(book.events, [e]);
    } else {
      var notional := Notional(executionPrice, filled);
      var tax := if side == Buy then 0.0 else Fee(notional, config.costs.tax);
      FilledCosts(book, side, timestamp, price, executionPrice, requested, filled,
                  Fee(notional, config.costs.commission), tax, reason);
    }
  }

  // ----- the whole run -----

  ghost function OpenBook(frame: seq<Candle>, strategy: Strategy, config: Config, i: nat): Book
    requires Runnable(frame, strategy, config) && i < |frame| && After(frame, strategy, config, i).Ok?
  {
    var s := After(frame, strategy, config, i).value;
    AtOpen(s.book, s.pending, frame[i], config)
  }

  /** Shares held overnight times the close-to-open move, plus shares held by day times the open-to-close move. */
  ghost function MarketGains(frame: seq<Candle>, strategy: Strategy, config: Config, count: nat): real
    requires Runnable(frame, strategy, config) && count <= |frame| && After(frame, strategy, config, count).Ok?
  {
    if count == 0 then 0.0
    else
      var i := count - 1;
      AfterMonotone(frame, strategy, config, i, count);
      var held := After(frame, strategy, config, i).value.book.quantity;
      var overnight := if i == 0 then 0.0 else held as real * (frame[i].open - frame[i - 1].close);
      var intraday := OpenBook(frame, strategy, config, i).quantity as real * (frame[i].close - frame[i].open);
      MarketGains(frame, strategy, config, i) + overnight + intraday
  }

  lemma NoCosts()
    ensures TotalCosts([]) == 0.0
  {
  }

  lemma RevaluedAt(book: Book, a: real, b: real)
    ensures EquityOf(book, b) == EquityOf(book, a) + book.quantity as real * (b - a)
  {
  }

  lemma PositiveOpen(bar: Candle)
    requires PositivePrices(bar)
    ensures bar.open > 0.0
  {
  }

  lemma EquityFromCash(book: Book, events: seq<Event>, price: real)
    ensures EquityOf(book.(events := events), price) == EquityOf(book, price)
  {
  }

  lemma AtOpenCosts(before: Book, pending: Option<Pending>, bar: Candle, config: Config)
    requires PositivePrices(bar) && config.Valid()
    ensures var after := AtOpen(before, pending, bar, config);
            EquityOf(after, bar.open) ==
              EquityOf(before, bar.open) - (TotalCosts(after.events) - TotalCosts(before.events))
  {
    hide Executed, EquityOf, TotalCosts, PositivePrices;
    EquityFromCash(before, before.events + [MarketEvent(bar.timestamp, bar)], bar.open);
    PositiveOpen(bar);
    var marked := before.(events := before.events + [MarketEvent(bar.timestamp, bar)]);
    FreeEvents([MarketEvent(bar.timestamp, bar)]);
    TotalCostsAppend(before.events, [MarketEvent(bar.timestamp, bar)]);
    if pending.Some? {
      ExecutedCosts(marked, pending.value.side, bar.timestamp, bar.open, Some(bar.volume), config, Signal);
    }
  }

  lemma AtCloseCosts(openBook: Book, bar: Candle, desired: int, next: Option<int>, config: Config)
    requires PositivePrices(bar) && config.Valid()
    ensures var after := AtClose(openBook, bar, desired, next, config);
            EquityOf(after, bar.close) ==
              EquityOf(openBook, bar.close) - (TotalCosts(after.events) - TotalCosts(openBook.events))
  {
    hide Executed;
    var order := NextOrder(openBook, desired, bar.timestamp, next);
    var signal := [SignalEvent(bar.timestamp, desired, Position(openBook.quantity))];
    var orders := if order.Some? then [OrderEvent(bar.timestamp, order.value.side, order.value.executeAt, Signal)]
                  else [];
    FreeEvents(signal);
    FreeEvents(orders);
    TotalCostsAppend(openBook.events, signal);
    TotalCostsAppend(openBook.events + signal, orders);
    var signalled := Signalled(openBook, bar.timestamp, desired, next);
    if next.None? && config.forceClose && signalled.quantity > 0 {
      var forced := [OrderEvent(bar.timestamp, Sell, bar.timestamp, ForceClose)];
      FreeEvents(forced);
      TotalCostsAppend(signalled.events, forced);
      ExecutedCosts(signalled.(events := signalled.events + forced), Sell, bar.timestamp, bar.close, None, config,
                    ForceClose);
    }
  }

  lemma StartEquity(config: Config, price: real)
    ensures EquityOf(Start(config).book, price) == config.initialCapital
  {
  }

  /**
   * After every bar, equity is the initial capital, plus what the held shares gained, minus every
   * commission, tax and slippage amount on the reported fills.
   */
  lemma {:induction false} SelfFinancing(frame: seq<Candle>, strategy: Strategy, config: Config, count: nat)
    requires Runnable(frame, strategy, config) && count <= |frame| && After(frame, strategy, config, count).Ok?
    ensures var s := After(frame, strategy, config, count).value;
            var worth := config.initialCapital
                         + MarketGains(frame, strategy, config, count) - TotalCosts(s.book.events);
            && (if count == 0 then s.book.cash else EquityOf(s.book, frame[count - 1].close)) == worth
            && (count > 0 ==> s.equities[count - 1] == worth)
  {
    hide AtOpen, AtClose, EquityOf, Strategy.Observed, DesiredAt, RoundTo, DailyReturn, TotalCosts, Runnable,
         PositivePrices;
    NoCosts();
    if count > 0 {
      RunnableAt(frame, strategy, config, count - 1);
      var i := count - 1;
      SelfFinancing(frame, strategy, config, i);
      var before := After(frame, strategy, config, i).value;
      var openBook := OpenBook(frame, strategy, config, i);
      var desired := DesiredAt(strategy.Observed(frame[..count]).value, i);
      AtOpenCosts(before.book, before.pending, frame[i], config);
      AtCloseCosts(openBook, frame[i], desired, NextTimestamp(frame, i), config);
      RevaluedAt(openBook, frame[i].open, frame[i].close);
      if i == 0 {
        StartEquity(config, frame[i].open);
      } else {
        RevaluedAt(before.book, frame[i - 1].close, frame[i].open);
      }
    }
  }

  // ----- cash and shares stay non-negative -----

  lemma AffordableFits(cash: real, executionPrice: real, costs: Costs, filled: int)
    requires executionPrice > 0.0 && costs.Valid() && cash >= 0.0
    requires 0 <= filled <= Affordable(cash, executionPrice, costs)
    ensures Notional(executionPrice, filled) + Fee(Notional(executionPrice, filled), costs.commission) <= cash
  {
    var unit := executionPrice * (1.0 + costs.commission);
    var ratio := cash / unit;
    assert ratio * unit == cash;
    assert filled as real <= ratio;
    assert filled as real * unit <= ratio * unit;
    assert Notional(executionPrice, filled) + Fee(Notional(executionPrice, filled), costs.commission) ==
           filled as real * unit;
  }

  lemma ProceedsFit(executionPrice: real, filled: int, costs: Costs)
    requires executionPrice > 0.0 && filled >= 0 && costs.Valid() && costs.commission + costs.tax <= 1.0
    ensures var n := Notional(executionPrice, filled); n - Fee(n, costs.commission) - Fee(n, costs.tax) >= 0.0
  {
    var n := Notional(executionPrice, filled);
    assert n >= 0.0;
    assert n - Fee(n, costs.commission) - Fee(n, costs.tax) == n * (1.0 - costs.commission - costs.tax);
  }

  predicate Solvent(book: Book) {
    book.cash >= 0.0 && book.quantity >= 0
  }

  lemma ExecutedSolvent(book: Book, side: Side, timestamp: int, price: real, volume: Option<int>, config: Config,
                        reason: Reason)
    requires price > 0.0 && config.Valid() && Solvent(book)
    requires config.costs.commission + config.costs.tax <= 1.0
    ensures Solvent(Executed(book, side, timestamp, price, volume, config, reason))
  {
    hide Affordable, ExecutionPrice, Notional, Fee, RoundTo;
    var executionPrice := ExecutionPrice(side, price, config.costs);
    var requested := if side == Buy then Affordable(book.cash, executionPrice, config.costs) else book.quantity;
    var filled := BoundedQuantity(requested, volume, config.maxParticipation);
    assert filled <= requested;
    if filled > 0 {
      if side == Buy {
        AffordableFits(book.cash, executionPrice, config.costs, filled);
      } else {
        ProceedsFit(executionPrice, filled, config.costs);
      }
    }
  }

  lemma {:induction false} StaysSolvent(frame: seq<Candle>, strategy: Strategy, config: Config, count: nat)
    requires Runnable(frame, strategy, config) && count <= |frame| && After(frame, strategy, config, count).Ok?
    requires config.costs.commission + config.costs.tax <= 1.0
    ensures Solvent(After(frame, strategy, config, count).value.book)
  {
    hide Executed, Strategy.Observed, DesiredAt, RoundTo, DailyReturn, EquityOf;
    if count > 0 {
      var i := count - 1;
      StaysSolvent(frame, strategy, config, i);
      var before := After(frame, strategy, config, i).value;
      var bar := frame[i];
      var marked := before.book.(events := before.book.events + [MarketEvent(bar.timestamp, bar)]);
      assert PositivePrices(bar);
      if before.pending.Some? {
        ExecutedSolvent(marked, before.pending.value.side, bar.timestamp, bar.open, Some(bar.volume), config, Signal);
      }
      var openBook := OpenBook(frame, strategy, config, i);
      var desired := DesiredAt(strategy.Observed(frame[..count]).value, i);
      var signalled := Signalled(openBook, bar.timestamp, desired, NextTimestamp(frame, i));
      var forced := signalled.(events :=
        signalled.events + [OrderEvent(bar.timestamp, Sell, bar.timestamp, ForceClose)]);
      ExecutedSolvent(forced, Sell, bar.timestamp, bar.close, None, config, ForceClose);
    }
  }

  // ----- and exactly then: each cost model over the bound has a run that overdraws -----

  function OneThenZero(history: seq<Candle>): Result<seq<int>, Strategies.Error> {
    Ok(seq(|history|, i requires 0 <= i < |history| => if i == 0 then 1 else 0))
  }

  function FlatBar(timestamp: int, price: real, volume: int): Candle {
    Candle(timestamp, price, price, price, price, volume, Unknown)
  }

  lemma DividedBack(k: real, s: real, c: real)
    requires k > 0.0 && s >= 1.0 && c >= 1.0
    ensures s * c > 0.0
    ensures k / (s * c) > 0.0
    ensures ((k / (s * c)) * s) * c == k
  {
    assert s * c >= c;
    assert (k / (s * c)) * (s * c) == k;
  }

  /** The price at which the whole capital buys exactly one share. */
  function OneSharePrice(config: Config): (price: real)
    requires config.Valid()
    ensures price > 0.0
    ensures (price * (1.0 + config.costs.slippage)) * (1.0 + config.costs.commission) == config.initialCapital
  {
    DividedBack(config.initialCapital, 1.0 + config.costs.slippage, 1.0 + config.costs.commission);
    config.initialCapital / ((1.0 + config.costs.slippage) * (1.0 + config.costs.commission))
  }

  lemma OneShareFits(config: Config, volume: int)
    requires config.Valid() && volume == (1.0 / config.maxParticipation).Floor + 1
    ensures BoundedQuantity(1, Some(volume), config.maxParticipation) == 1
  {
    var p := config.maxParticipation;
    assert 1.0 / p > 0.0;
    assert volume as real > 1.0 / p;
    assert volume as real * p >= (1.0 / p) * p;
    assert (1.0 / p) * p == 1.0;
  }

  function OneShareVolume(config: Config): (volume: int)
    requires config.Valid()
    ensures BoundedQuantity(1, Some(volume), config.maxParticipation) == 1
  {
    OneShareFits(config, (1.0 / config.maxParticipation).Floor + 1);
    (1.0 / config.maxParticipation).Floor + 1
  }

  function OverdraftFrame(config: Config): seq<Candle>
    requires config.Valid()
  {
    [FlatBar(1, 1.0, OneShareVolume(config)),
     FlatBar(2, OneSharePrice(config), OneShareVolume(config)),
     FlatBar(3, 1.0, OneShareVolume(config))]
  }

  lemma ExactlyOne(cash: real, executionPrice: real, costs: Costs)
    requires cash > 0.0 && executionPrice > 0.0 && costs.Valid()
    requires executionPrice * (1.0 + costs.commission) == cash
    ensures Affordable(cash, executionPrice, costs) == 1
  {
    OverItself(cash);
    assert cash / (executionPrice * (1.0 + costs.commission)) == 1.0;
  }

  lemma CostOfOne(executionPrice: real, costs: Costs)
    ensures Notional(executionPrice, 1) + Fee(Notional(executionPrice, 1), costs.commission) ==
            executionPrice * (1.0 + costs.commission)
  {
    assert Notional(executionPrice, 1) == executionPrice;
  }

  lemma AffordsOne(cash: real, executionPrice: real, costs: Costs)
    requires cash > 0.0 && executionPrice > 0.0 && costs.Valid()
    requires executionPrice * (1.0 + costs.commission) == cash
    ensures Affordable(cash, executionPrice, costs) == 1
    ensures Notional(executionPrice, 1) + Fee(Notional(executionPrice, 1), costs.commission) == cash
  {
    hide Affordable, Notional, Fee;
    CostOfOne(executionPrice, costs);
    ExactlyOne(cash, executionPrice, costs);
  }

  lemma ExactPrice(config: Config)
    requires config.Valid()
    ensures var execution := ExecutionPrice(Buy, OneSharePrice(config), config.costs);
            && Affordable(config.initialCapital, execution, config.costs) == 1
            && Notional(execution, 1) + Fee(Notional(execution, 1), config.costs.commission) == config.initialCapital
  {
    hide OneSharePrice, Affordable, Notional, Fee;
    var execution := ExecutionPrice(Buy, OneSharePrice(config), config.costs);
    AffordsOne(config.initialCapital, execution, config.costs);
  }

  /** What the account looks like after one bar of the overdrawing run. */
  ghost predicate Holds(frame: seq<Candle>, config: Config, count: nat, cash: real, quantity: int, side: Side)
    requires config.Valid() && count <= |frame| && AllPositive(frame)
  {
    var r := After(frame, HistoryFunction(OneThenZero), config, count);
    && r.Ok? && r.value.book.cash == cash && r.value.book.quantity == quantity
    && r.value.pending.Some? && r.value.pending.value.side == side
  }

  lemma OverdraftBuy(config: Config)
    requires config.Valid()
    ensures AllPositive(OverdraftFrame(config))
    ensures Holds(OverdraftFrame(config), config, 1, config.initialCapital, 0, Buy)
    ensures Holds(OverdraftFrame(config), config, 2, 0.0, 1, Sell)
  {
    hide Affordable, BoundedQuantity, ExecutionPrice, Notional, Fee, RoundTo, DailyReturn, EquityOf, OneSharePrice,
         OneShareVolume;
    ExactPrice(config);
    var frame, strategy := OverdraftFrame(config), HistoryFunction(OneThenZero);
    assert After(frame, strategy, config, 0) == Ok(Start(config));
    assert strategy.Observed(frame[..1]).value[0] == 1;
    assert Holds(frame, config, 1, config.initialCapital, 0, Buy);
    assert strategy.Observed(frame[..2]).value[1] == 0;
  }

  lemma LossOnSale(config: Config)
    requires config.Valid() && config.costs.commission + config.costs.tax > 1.0
    ensures var n := Notional(ExecutionPrice(Sell, 1.0, config.costs), 1);
            n - Fee(n, config.costs.commission) - Fee(n, config.costs.tax) < 0.0
  {
    var n := 1.0 - config.costs.slippage;
    var excess := config.costs.commission + config.costs.tax - 1.0;
    assert n * excess > 0.0;
    assert n * config.costs.commission + n * config.costs.tax - n == n * excess;
    assert Notional(ExecutionPrice(Sell, 1.0, config.costs), 1) == n;
  }

  /** Over the bound, a buy that spends everything and a later sale overdraw the account. */
  lemma Overdraft(config: Config)
    requires config.Valid() && config.costs.commission + config.costs.tax > 1.0
    ensures var frame, strategy := OverdraftFrame(config), HistoryFunction(OneThenZero);
            && Runnable(frame, strategy, config)
            && After(frame, strategy, config, 3).Ok?
            && After(frame, strategy, config, 3).value.book.cash < 0.0
  {
    hide Affordable, BoundedQuantity, ExecutionPrice, Notional, Fee, RoundTo, DailyReturn, EquityOf, OneSharePrice,
         OneShareVolume;
    OverdraftBuy(config);
    var frame, strategy := OverdraftFrame(config), HistoryFunction(OneThenZero);
    LossOnSale(config);
    assert strategy.Observed(frame[..3]).Ok?;
    var before := After(frame, strategy, config, 2).value;
    var openBook := AtOpen(before.book, before.pending, frame[2], config);
    assert openBook.cash < 0.0 && openBook.quantity == 0;
  }

  /** Cash can never go negative under a cost model exactly when commission and tax add to at most one. */
  lemma CashSafeExactly(config: Config)
    requires config.Valid()
    ensures config.costs.commission + config.costs.tax <= 1.0 <==>
            forall frame: seq<Candle>, strategy: Strategy, count: nat ::
              Runnable(frame, strategy, config) && count <= |frame| && After(frame, strategy, config, count).Ok? ==>
                After(frame, strategy, config, count).value.book.cash >= 0.0
  {
    hide After;
    if config.costs.commission + config.costs.tax <= 1.0 {
      forall frame: seq<Candle>, strategy: Strategy, count: nat |
        Runnable(frame, strategy, config) && count <= |frame| && After(frame, strategy, config, count).Ok?
        ensures After(frame, strategy, config, count).value.book.cash >= 0.0
      {
        StaysSolvent(frame, strategy, config, count);
      }
    } else {
      Overdraft(config);
    }
  }
}
