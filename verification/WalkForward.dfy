/** Walk-forward validation: out-of-sample folds behind an idle warm-up (backend/app/backtest/validation.py). */
module WalkForward {
  import opened Core
  import opened Sorting
  import opened Market
  import opened Strategies
  import opened EventEngine
  import EngineAgreement
  import EventLog
  import VectorEngine

  // ----- the warm-up does nothing, in the event engine -----

  predicate Idle(e: Event) {
    e.MarketEvent? || e.SignalEvent? || e.OrderEvent?
  }

  ghost predicate Untouched(s: Sim, config: Config) {
    && s.book.cash == config.initialCapital && s.book.quantity == 0 && s.book.trades == []
    && (forall i :: 0 <= i < |s.book.events| ==> Idle(s.book.events[i]))
    && (forall i :: 0 <= i < |s.equities| ==> s.equities[i] == config.initialCapital)
    && (forall i :: 0 <= i < |s.points| ==>
          s.points[i].equity == RoundTo(config.initialCapital, 10000.0) && s.points[i].position == 0)
  }

  lemma IdleBar(before: Sim, bar: Candle, desired: int, next: Option<int>, config: Config)
    requires PositivePrices(bar) && config.Valid() && Untouched(before, config) && before.pending.None?
    ensures Untouched(Bar(before, bar, desired, next, config), config)
    ensures desired == 0 ==> Bar(before, bar, desired, next, config).pending.None?
  {
    hide Executed, RoundTo, DailyReturn;
    var openBook := AtOpen(before.book, before.pending, bar, config);
    assert openBook == before.book.(events := before.book.events + [MarketEvent(bar.timestamp, bar)]);
    var closed := AtClose(openBook, bar, desired, next, config);
    assert closed == Signalled(openBook, bar.timestamp, desired, next);
    assert EquityOf(closed, bar.close) == config.initialCapital;
  }

  lemma StartUntouched(config: Config)
    ensures Untouched(Start(config), config)
  {
  }

  /** Through the activation bar, the account is as it started and nothing was traded or refused. */
  lemma {:induction false} WarmupIdle(frame: seq<Candle>, delegate: Strategy, activationIndex: nat, config: Config,
                                      count: nat)
    requires Runnable(frame, Activation(delegate, activationIndex), config)
    requires count <= |frame| && count <= activationIndex + 1
    requires After(frame, Activation(delegate, activationIndex), config, count).Ok?
    ensures var s := After(frame, Activation(delegate, activationIndex), config, count).value;
            Untouched(s, config) && (count <= activationIndex ==> s.pending.None?)
  {
    hide Bar, Untouched;
    if count == 0 {
      StartUntouched(config);
    } else {
      var strategy := Activation(delegate, activationIndex);
      WarmupIdle(frame, delegate, activationIndex, config, count - 1);
      var before := After(frame, strategy, config, count - 1).value;
      var signals := strategy.Observed(frame[..count]).value;
      assert PositivePrices(frame[count - 1]);
      IdleBar(before, frame[count - 1], DesiredAt(signals, count - 1), NextTimestamp(frame, count - 1), config);
    }
  }

  /** From some bar on, trades and slips carry that bar's time or a later one, and earlier points stay. */
  ghost predicate Continues(frame: seq<Candle>, low: nat, a: Sim, b: Sim)
    requires low < |frame|
  {
    && a.points <= b.points && a.equities <= b.equities
    && a.book.trades <= b.book.trades && a.book.events <= b.book.events
    && (forall i :: |a.book.trades| <= i < |b.book.trades| ==> b.book.trades[i].timestamp >= frame[low].timestamp)
    && (forall i :: |a.book.events| <= i < |b.book.events| ==> b.book.events[i].timestamp >= frame[low].timestamp)
  }

  lemma ExecutedAppends(book: Book, side: Side, timestamp: int, price: real, volume: Option<int>, config: Config,
                        reason: Reason)
    requires price > 0.0 && config.Valid()
    ensures var after := Executed(book, side, timestamp, price, volume, config, reason);
            && book.trades <= after.trades && book.events <= after.events
            && (forall i :: |book.trades| <= i < |after.trades| ==> after.trades[i].timestamp == timestamp)
            && (forall i :: |book.events| <= i < |after.events| ==> after.events[i].timestamp == timestamp)
  {
    hide Affordable, BoundedQuantity, ExecutionPrice, Notional, Fee, RoundTo;
  }

  ghost predicate Appends(a: Book, b: Book, timestamp: int) {
    && a.trades <= b.trades && a.events <= b.events
    && (forall i :: |a.trades| <= i < |b.trades| ==> b.trades[i].timestamp == timestamp)
    && (forall i :: |a.events| <= i < |b.events| ==> b.events[i].timestamp == timestamp)
  }

  lemma AtOpenAppends(before: Book, pending: Option<Pending>, bar: Candle, config: Config)
    requires PositivePrices(bar) && config.Valid()
    ensures Appends(before, AtOpen(before, pending, bar, config), bar.timestamp)
  {
    hide Executed;
    if pending.Some? {
      var marked := before.(events := before.events + [MarketEvent(bar.timestamp, bar)]);
      ExecutedAppends(marked, pending.value.side, bar.timestamp, bar.open, Some(bar.volume), config, Signal);
    }
  }

  lemma AtCloseAppends(openBook: Book, bar: Candle, desired: int, next: Option<int>, config: Config)
    requires PositivePrices(bar) && config.Valid()
    ensures Appends(openBook, AtClose(openBook, bar, desired, next, config), bar.timestamp)
  {
    hide Executed;
    var signalled := Signalled(openBook, bar.timestamp, desired, next);
    var forced := signalled.(events := signalled.events + [OrderEvent(bar.timestamp, Sell, bar.timestamp, ForceClose)]);
    ExecutedAppends(forced, Sell, bar.timestamp, bar.close, None, config, ForceClose);
  }

  lemma BarAppends(before: Sim, bar: Candle, desired: int, next: Option<int>, config: Config)
    requires PositivePrices(bar) && config.Valid()
    ensures var after := Bar(before, bar, desired, next, config);
            && before.points <= after.points && before.equities <= after.equities
            && Appends(before.book, after.book, bar.timestamp)
  {
    hide AtOpen, AtClose, RoundTo, DailyReturn, EquityOf;
    AtOpenAppends(before.book, before.pending, bar, config);
    AtCloseAppends(AtOpen(before.book, before.pending, bar, config), bar, desired, next, config);
  }

  lemma {:induction false} RunContinues(frame: seq<Candle>, strategy: Strategy, config: Config, low: nat, high: nat)
    requires Runnable(frame, strategy, config) && SortedBy(ByTime, frame)
    requires low <= high <= |frame| && low < |frame| && After(frame, strategy, config, high).Ok?
    ensures After(frame, strategy, config, low).Ok?
    ensures Continues(frame, low, After(frame, strategy, config, low).value, After(frame, strategy, config, high).value)
    decreases high
  {
    hide Bar, Strategy.Observed, DesiredAt;
    if low < high {
      var i := high - 1;
      RunContinues(frame, strategy, config, low, i);
      var before := After(frame, strategy, config, i).value;
      assert PositivePrices(frame[i]);
      BarAppends(before, frame[i], DesiredAt(strategy.Observed(frame[..high]).value, i), NextTimestamp(frame, i),
                 config);
      assert low < i ==> ByTime(frame[low], frame[i]);
    }
  }

  // ----- one fold of either engine -----

  datatype Engine = Vectorized | EventDriven

  datatype Outcome =
    | VectorOutcome(frame: seq<Candle>, run: VectorEngine.VectorRun)
    | EventOutcome(sim: Sim)
  {
    /** A vectorized run reports its series row by row. */
    ghost predicate Valid() {
      VectorOutcome? ==> |frame| == |run.equity| == |run.netReturns| == |run.positions|
    }

    function Points(): seq<Point>
      requires Valid()
    {
      match this
      case EventOutcome(sim) => sim.points
      case VectorOutcome(frame, run) =>
        seq(|frame|, i requires 0 <= i < |frame| =>
          Point(frame[i].timestamp, RoundTo(run.equity[i], 10000.0), RoundTo(run.netReturns[i], 100000000.0),
                run.positions[i]))
    }

    function TradeTimes(): seq<int> {
      match this
      case EventOutcome(sim) => seq(|sim.book.trades|,
                                    i requires 0 <= i < |sim.book.trades| => sim.book.trades[i].timestamp)
      case VectorOutcome(_, run) => seq(|run.trades|, i requires 0 <= i < |run.trades| => run.trades[i].timestamp)
    }

    function Events(): seq<Event> {
      match this
      case EventOutcome(sim) => sim.book.events
      case VectorOutcome(_, _) => []
    }
  }

  /** The points of a vectorized run show its series rounded; trade times are those of the trades. */
  lemma OutcomeShows(outcome: Outcome)
    requires outcome.Valid()
    ensures outcome.VectorOutcome? ==>
              |outcome.Points()| == |outcome.frame| &&
              forall i :: 0 <= i < |outcome.frame| ==>
                var p := outcome.Points()[i];
                && p.timestamp == outcome.frame[i].timestamp && p.position == outcome.run.positions[i]
                && EventLog.Rounded(p.equity, outcome.run.equity[i], 10000.0)
                && EventLog.Rounded(p.dailyReturn, outcome.run.netReturns[i], 100000000.0)
    ensures outcome.EventOutcome? ==> outcome.Points() == outcome.sim.points
    ensures var trades := if outcome.EventOutcome? then |outcome.sim.book.trades| else |outcome.run.trades|;
            && |outcome.TradeTimes()| == trades
            && forall i :: 0 <= i < trades ==>
                 outcome.TradeTimes()[i] == if outcome.EventOutcome? then outcome.sim.book.trades[i].timestamp
                                            else outcome.run.trades[i].timestamp
  {
    hide RoundTo, EventLog.Rounded;
    if outcome.VectorOutcome? {
      forall i | 0 <= i < |outcome.frame|
        ensures EventLog.Rounded(outcome.Points()[i].equity, outcome.run.equity[i], 10000.0)
        ensures EventLog.Rounded(outcome.Points()[i].dailyReturn, outcome.run.netReturns[i], 100000000.0)
      {
        EventLog.RoundToRounds(outcome.run.equity[i], 10000.0);
        EventLog.RoundToRounds(outcome.run.netReturns[i], 100000000.0);
      }
    }
  }

  /** engine.run, as a function of the candles. */
  ghost function EngineResult(engine: Engine, candles: seq<Candle>, strategy: Strategy,
                              config: Config): Result<Outcome, RunError>
    requires config.Valid() && strategy.WellFormed() && VectorEngine.Divisible(SortByTime(candles))
  {
    match engine
    case EventDriven =>
      var sim :- RunResult(candles, strategy, config);
      Ok(EventOutcome(sim))
    case Vectorized =>
      if |candles| < 2 then Err(TooFewCandles)
      else
        match strategy.Observed(SortByTime(candles))
        case Err(e) => Err(StrategyFailed(e))
        case Ok(signals) => Ok(VectorOutcome(SortByTime(candles),
                                             VectorEngine.RunOn(SortByTime(candles), signals, config)))
  }

  /** At rows up to the activation the reported equity is the initial capital, and no trade is that early. */
  ghost predicate WarmedUp(outcome: Outcome, frame: seq<Candle>, activationIndex: nat, config: Config)
    requires outcome.Valid() && activationIndex < |frame|
  {
    && |outcome.Points()| == |frame|
    && (forall i :: 0 <= i <= activationIndex ==> outcome.Points()[i].equity == RoundTo(config.initialCapital, 10000.0))
    && (forall i :: 0 <= i <= activationIndex ==> outcome.Points()[i].position == 0)
    && (forall i :: 0 <= i < |outcome.TradeTimes()| ==>
          activationIndex + 1 < |frame| && outcome.TradeTimes()[i] >= frame[activationIndex + 1].timestamp)
    && (forall i :: 0 <= i < |outcome.Events()| && !Idle(outcome.Events()[i]) ==>
          activationIndex + 1 < |frame| && outcome.Events()[i].timestamp >= frame[activationIndex + 1].timestamp)
  }

  lemma EventWarmup(frame: seq<Candle>, delegate: Strategy, activationIndex: nat, config: Config)
    requires Runnable(frame, Activation(delegate, activationIndex), config) && SortedBy(ByTime, frame)
    requires activationIndex < |frame| && After(frame, Activation(delegate, activationIndex), config, |frame|).Ok?
    ensures WarmedUp(EventOutcome(After(frame, Activation(delegate, activationIndex), config, |frame|).value), frame,
                     activationIndex, config)
  {
    hide After, RoundTo;
    var strategy := Activation(delegate, activationIndex);
    var whole := After(frame, strategy, config, |frame|).value;
    if activationIndex + 1 < |frame| {
      RunContinues(frame, strategy, config, activationIndex + 1, |frame|);
    }
    WarmupIdle(frame, delegate, activationIndex, config, activationIndex + 1);
    var warm := After(frame, strategy, config, activationIndex + 1).value;
    assert |warm.points| == activationIndex + 1;
    assert forall i :: 0 <= i <= activationIndex ==> whole.points[i] == warm.points[i];
    assert warm.book.trades == [] && warm.book.events <= whole.book.events;
    assert forall i :: 0 <= i < |warm.book.events| ==> whole.book.events[i] == warm.book.events[i];
  }

  ghost predicate TradesFrom(trades: seq<VectorEngine.VectorTrade>, frame: seq<Candle>, low: nat) {
    forall i :: 0 <= i < |trades| ==> low < |frame| && trades[i].timestamp >= frame[low].timestamp
  }

  lemma {:induction false} VectorTradeTimes(frame: seq<Candle>, observed: seq<int>, equity: seq<real>, config: Config,
                                            low: nat, high: nat)
    requires |observed| == |frame| == |equity| && low <= high <= |frame|
    requires SortedBy(ByTime, frame) && VectorEngine.TradesUpTo(frame, observed, equity, config, low) == []
    ensures TradesFrom(VectorEngine.TradesUpTo(frame, observed, equity, config, high), frame, low)
    decreases high
  {
    hide VectorEngine.TradeAt;
    if low < high {
      VectorTradeTimes(frame, observed, equity, config, low, high - 1);
      assert low < high - 1 ==> ByTime(frame[low], frame[high - 1]);
    }
  }

  /** With the signals zeroed up to the activation, the vectorized series stand still through it. */
  lemma VectorIdle(frame: seq<Candle>, signals: seq<int>, activationIndex: nat, config: Config, i: nat)
    requires VectorEngine.Divisible(frame) && i <= activationIndex < |frame|
    ensures var observed := VectorEngine.Clipped(ZeroPrefix(signals, activationIndex), |frame|);
            && VectorEngine.EquityAfter(frame, observed, config, i + 1) == config.initialCapital
            && VectorEngine.PositionAt(observed, i) == 0
            && forall equity: seq<real> :: |equity| == |frame| ==>
                 VectorEngine.TradesUpTo(frame, observed, equity, config, i + 1) == []
  {
    hide VectorEngine.NetReturn, VectorEngine.TradeAt;
    var observed := VectorEngine.Clipped(ZeroPrefix(signals, activationIndex), |frame|);
    VectorEngine.EquityBeforeFirstBar(frame, observed, config);
    VectorEngine.FlatGrowth(frame, observed, config, 0, i + 1);
    forall equity: seq<real> | |equity| == |frame|
      ensures VectorEngine.TradesUpTo(frame, observed, equity, config, i + 1) == []
    {
      VectorEngine.FlatTrades(frame, observed, equity, config, 0, i + 1);
    }
  }

  lemma VectorWarmup(frame: seq<Candle>, signals: seq<int>, activationIndex: nat, config: Config)
    requires VectorEngine.Divisible(frame) && |frame| >= 2 && SortedBy(ByTime, frame) && activationIndex < |frame|
    ensures var outcome :=
      VectorOutcome(frame, VectorEngine.RunOn(frame, ZeroPrefix(signals, activationIndex), config));
            outcome.Valid() && WarmedUp(outcome, frame, activationIndex, config)
  {
    hide RoundTo, VectorEngine.NetReturn, VectorEngine.EquityAfter, VectorEngine.TradesUpTo, VectorEngine.TradePrice,
      VectorEngine.TradeCost, VectorEngine.Clipped, VectorEngine.PositionAt;
    var observed := VectorEngine.Clipped(ZeroPrefix(signals, activationIndex), |frame|);
    var outcome := VectorOutcome(frame, VectorEngine.RunOn(frame, ZeroPrefix(signals, activationIndex), config));
    forall i | 0 <= i <= activationIndex
      ensures outcome.run.equity[i] == config.initialCapital && outcome.run.positions[i] == 0
    {
      VectorIdle(frame, signals, activationIndex, config, i);
    }
    VectorIdle(frame, signals, activationIndex, config, activationIndex);
    var equity := VectorEngine.EquitySeries(frame, observed, config);
    VectorTradeTimes(frame, observed, equity, config, activationIndex + 1, |frame|);
    var last := |frame| - 1;
    assert activationIndex + 1 < last ==> ByTime(frame[activationIndex + 1], frame[last]);
    if activationIndex == last {
      VectorIdle(frame, signals, activationIndex, config, last);
    }
    var trades := VectorEngine.TradesUpTo(frame, observed, equity, config, |frame|);
    forall i | 0 <= i < |outcome.TradeTimes()|
      ensures activationIndex + 1 < |frame| && outcome.TradeTimes()[i] >= frame[activationIndex + 1].timestamp
    {
      if i < |trades| {
        assert outcome.TradeTimes()[i] == trades[i].timestamp;
        assert activationIndex + 1 < |frame|;
      } else {
        assert activationIndex + 1 < |frame|;
        assert outcome.TradeTimes()[i] == VectorEngine.ClosingTrade(frame, observed, config)[i - |trades|].timestamp;
      }
    }
  }

  /** Either engine, run behind an activation, leaves the warm-up rows idle. */
  lemma WarmupIsIdle(engine: Engine, candles: seq<Candle>, delegate: Strategy, activationIndex: nat, config: Config)
    requires config.Valid() && delegate.WellFormed() && VectorEngine.Divisible(SortByTime(candles))
             && activationIndex < |candles|
    requires EngineResult(engine, candles, Activation(delegate, activationIndex), config).Ok?
    ensures var outcome := EngineResult(engine, candles, Activation(delegate, activationIndex), config).value;
            outcome.Valid() && WarmedUp(outcome, SortByTime(candles), activationIndex, config)
  {
    hide After, WarmedUp, VectorEngine.RunOn, VectorEngine.Divisible, SortByTime, SortedBy, AllPositive, Ascending,
         ZeroPrefix, Outcome.Points, Outcome.TradeTimes, Outcome.Events;
    var frame := SortByTime(candles);
    SortByTimeLaws(candles);
    match engine
    case EventDriven =>
      EventWarmup(frame, delegate, activationIndex, config);
    case Vectorized =>
      var signals := delegate.Observed(frame);
      VectorWarmup(frame, signals.value, activationIndex, config);
  }

  lemma LastEvaluated(frame: seq<Candle>, strategy: Strategy, config: Config)
    requires Runnable(frame, strategy, config) && frame != []
    ensures After(frame, strategy, config, |frame|).Ok? ==> strategy.Observed(frame).Ok?
  {
    hide Strategy.Observed, Bar;
    assert frame[..|frame|] == frame;
  }

  /**
   * A causal delegate gets through a fold exactly when it can evaluate it; the event engine also
   * asks for positive prices and distinct timestamps.
   */
  lemma SucceedsExactly(engine: Engine, candles: seq<Candle>, delegate: Strategy, activationIndex: nat, config: Config)
    requires config.Valid() && delegate.WellFormed() && Causal(delegate) && VectorEngine.Divisible(SortByTime(candles))
    ensures var frame := SortByTime(candles);
            EngineResult(engine, candles, Activation(delegate, activationIndex), config).Ok? <==>
            && |candles| >= 2 && delegate.Observed(frame).Ok?
            && (engine == EventDriven ==> AllPositive(frame) && Ascending(frame))
  {
    hide After, VectorEngine.RunOn, VectorEngine.Divisible, SortByTime, AllPositive, Ascending, ZeroPrefix, Causal;
    var frame, strategy := SortByTime(candles), Activation(delegate, activationIndex);
    ActivationCausal(delegate, activationIndex);
    if engine == EventDriven && AllPositive(frame) && |candles| >= 2 {
      if delegate.Observed(frame).Ok? {
        EngineAgreement.CausalRunsThrough(frame, strategy, config, |frame|);
      }
      LastEvaluated(frame, strategy, config);
    }
  }

  // ----- the folds -----

  datatype ValidationError = BadSplits | BadWarmup | InsufficientCandles | EngineFailed(error: RunError)

  datatype Fold = Fold(testStart: nat, testEnd: nat, startedAt: int, endedAt: int, points: seq<Point>,
                       tradeTimes: seq<int>, partialFills: nat, rejectedOrders: nat)

  /** Where fold i's test rows begin; the last fold ends with the candles. */
  function TestStart(length: nat, splits: nat, warmup: nat, i: nat): nat
    requires splits > 0 && warmup <= length
  {
    if i >= splits then length else warmup + i * ((length - warmup) / splits)
  }

  function FromTime(times: seq<int>, start: int): seq<int> {
    if times == [] then []
    else (if times[0] >= start then [times[0]] else []) + FromTime(times[1..], start)
  }

  function CountFrom(events: seq<Event>, start: int, partials: bool): nat {
    if events == [] then 0
    else CountFrom(events[..|events| - 1], start, partials)
         + var e := events[|events| - 1];
           if e.timestamp >= start && (if partials then e.PartialFill? else e.Rejected?) then 1 else 0
  }

  function CountAll(events: seq<Event>, partials: bool): nat {
    if events == [] then 0
    else CountAll(events[..|events| - 1], partials)
         + var e := events[|events| - 1];
           if (if partials then e.PartialFill? else e.Rejected?) then 1 else 0
  }

  ghost function Places(events: seq<Event>, partials: bool): set<int> {
    set i | 0 <= i < |events| && if partials then events[i].PartialFill? else events[i].Rejected?
  }

  /** The two counts are the numbers of partial fills and of rejections among the events. */
  lemma {:induction false} CountsExactly(events: seq<Event>, partials: bool)
    ensures CountAll(events, partials) == |Places(events, partials)|
  {
    if events == [] {
      assert Places(events, partials) == {};
    } else {
      var init, last := events[..|events| - 1], events[|events| - 1];
      CountsExactly(init, partials);
      if if partials then last.PartialFill? else last.Rejected? {
        assert Places(events, partials) == Places(init, partials) + {|init|};
      } else {
        assert Places(events, partials) == Places(init, partials);
      }
    }
  }

  lemma FoldSizes(length: nat, splits: nat, warmup: nat, i: nat)
    requires 2 <= splits <= 6 && warmup <= length && length - warmup >= splits * 10 && i < splits
    ensures TestStart(length, splits, warmup, i) + 10 <= TestStart(length, splits, warmup, i + 1) <= length
    ensures warmup <= TestStart(length, splits, warmup, i)
  {
    var size := (length - warmup) / splits;
    assert size >= 10;
    assert splits * size <= length - warmup;
    assert (i + 1) * size == i * size + size;
    assert (i + 1) * size <= splits * size;
  }

  lemma SourceSorted(ordered: seq<Candle>, low: nat, high: nat)
    requires SortedBy(ByTime, ordered) && low <= high <= |ordered|
    ensures SortedBy(ByTime, ordered[low..high]) && SortByTime(ordered[low..high]) == ordered[low..high]
    ensures VectorEngine.Divisible(ordered) ==> VectorEngine.Divisible(ordered[low..high])
  {
    SortByTimeLaws(ordered[low..high]);
  }

  /** What the engine makes of one fold: its run on warm-up plus test rows, behind the activation. */
  ghost function FoldResult(ordered: seq<Candle>, warmup: nat, testStart: nat, testEnd: nat,
                            delegate: Strategy, engine: Engine, config: Config): Result<Outcome, RunError>
    requires config.Valid() && delegate.WellFormed() && VectorEngine.Divisible(ordered) && SortedBy(ByTime, ordered)
    requires warmup <= testStart <= testEnd <= |ordered|
  {
    SourceSorted(ordered, testStart - warmup, testEnd);
    EngineResult(engine, ordered[testStart - warmup..testEnd], Activation(delegate, warmup), config)
  }

  /** The i-th fold of a validation. */
  ghost function NthResult(ordered: seq<Candle>, splits: nat, warmup: nat, i: nat,
                           delegate: Strategy, engine: Engine, config: Config): Result<Outcome, RunError>
    requires config.Valid() && delegate.WellFormed() && VectorEngine.Divisible(ordered) && SortedBy(ByTime, ordered)
    requires 2 <= splits <= 6 && warmup <= |ordered| && |ordered| - warmup >= splits * 10 && i < splits
  {
    FoldSizes(|ordered|, splits, warmup, i);
    FoldResult(ordered, warmup, TestStart(|ordered|, splits, warmup, i), TestStart(|ordered|, splits, warmup, i + 1),
               delegate, engine, config)
  }

  /** The error of the first of the first count folds that the engine fails on. */
  ghost function FirstFailure(ordered: seq<Candle>, splits: nat, warmup: nat, count: nat,
                              delegate: Strategy, engine: Engine, config: Config): Option<RunError>
    requires config.Valid() && delegate.WellFormed() && VectorEngine.Divisible(ordered) && SortedBy(ByTime, ordered)
    requires 2 <= splits <= 6 && warmup <= |ordered| && |ordered| - warmup >= splits * 10 && count <= splits
  {
    if count == 0 then None
    else
      var earlier := FirstFailure(ordered, splits, warmup, count - 1, delegate, engine, config);
      if earlier.Some? then earlier
      else
        match NthResult(ordered, splits, warmup, count - 1, delegate, engine, config)
        case Ok(_) => None
        case Err(e) => Some(e)
  }

  /** There is none exactly when the engine gets through every fold; otherwise all folds before it passed. */
  lemma {:induction false} FirstFailureIsFirst(ordered: seq<Candle>, splits: nat, warmup: nat, count: nat,
                                               delegate: Strategy, engine: Engine, config: Config)
    requires config.Valid() && delegate.WellFormed() && VectorEngine.Divisible(ordered) && SortedBy(ByTime, ordered)
    requires 2 <= splits <= 6 && warmup <= |ordered| && |ordered| - warmup >= splits * 10 && count <= splits
    ensures match FirstFailure(ordered, splits, warmup, count, delegate, engine, config)
            case None => forall i :: 0 <= i < count ==>
                         NthResult(ordered, splits, warmup, i, delegate, engine, config).Ok?
            case Some(e) =>
              exists k :: 0 <= k < count && NthResult(ordered, splits, warmup, k, delegate, engine, config) == Err(e)
                          && forall i :: 0 <= i < k ==>
                             NthResult(ordered, splits, warmup, i, delegate, engine, config).Ok?
  {
    hide NthResult, SortedBy, VectorEngine.Divisible;
    if count > 0 {
      FirstFailureIsFirst(ordered, splits, warmup, count - 1, delegate, engine, config);
    }
  }

  ghost predicate ReportsRun(fold: Fold, source: seq<Candle>, warmup: nat, delegate: Strategy, engine: Engine,
                             config: Config)
    requires config.Valid() && delegate.WellFormed() && VectorEngine.Divisible(source) && warmup < |source|
  {
    SortByTime(source) == source
    && match EngineResult(engine, source, Activation(delegate, warmup), config)
       case Err(_) => false
       case Ok(outcome) =>
         && outcome.Valid() && WarmedUp(outcome, source, warmup, config)
         && fold.points == outcome.Points()[warmup..]
         && fold.tradeTimes == outcome.TradeTimes()
         && fold.partialFills == CountAll(outcome.Events(), true)
         && fold.rejectedOrders == CountAll(outcome.Events(), false)
  }

  /** What a fold must report: the engine's run on warm-up plus test rows, cut at the activation. */
  ghost predicate Reports(fold: Fold, ordered: seq<Candle>, warmup: nat, delegate: Strategy, engine: Engine,
                          config: Config)
    requires config.Valid() && delegate.WellFormed() && VectorEngine.Divisible(ordered)
  {
    && warmup <= fold.testStart < fold.testEnd <= |ordered|
    && ReportsRun(fold, ordered[fold.testStart - warmup..fold.testEnd], warmup, delegate, engine, config)
    && fold.startedAt == ordered[fold.testStart].timestamp
    && fold.endedAt == ordered[fold.testEnd - 1].timestamp
  }

  function Rows(fold: Fold): int {
    fold.testEnd - fold.testStart
  }

  /**
   * The test ranges follow one another, cover every row after the warm-up, and hold ten rows or more; all are
   * equally long but the last, which takes the rows left over, fewer than there are folds.
   */
  ghost predicate Tiles(folds: seq<Fold>, length: nat, warmup: nat) {
    && folds != []
    && folds[0].testStart == warmup && folds[|folds| - 1].testEnd == length
    && (forall i :: 0 <= i < |folds| - 1 ==> folds[i].testEnd == folds[i + 1].testStart)
    && (forall i :: 0 <= i < |folds| ==> folds[i].testStart + 10 <= folds[i].testEnd)
    && (forall i :: 0 <= i < |folds| - 1 ==> Rows(folds[i]) == Rows(folds[0]))
    && Rows(folds[0]) <= Rows(folds[|folds| - 1]) < Rows(folds[0]) + |folds|
  }

  lemma EqualFolds(length: nat, splits: nat, warmup: nat, i: nat)
    requires 2 <= splits && warmup <= length && i < splits
    ensures var first := TestStart(length, splits, warmup, 1) - TestStart(length, splits, warmup, 0);
            var rows := TestStart(length, splits, warmup, i + 1) - TestStart(length, splits, warmup, i);
            if i < splits - 1 then rows == first else first <= rows < first + splits
  {
    var size := (length - warmup) / splits;
    assert (i + 1) * size == i * size + size;
    if i == splits - 1 {
      assert length - warmup == size * splits + (length - warmup) % splits;
      assert i * size + size == size * splits;
    }
  }

  lemma TestBounds(length: nat, splits: nat, warmup: nat)
    requires splits > 0 && warmup <= length
    ensures TestStart(length, splits, warmup, 0) == warmup && TestStart(length, splits, warmup, splits) == length
  {
  }

  ghost predicate CutAt(folds: seq<Fold>, length: nat, splits: nat, warmup: nat)
    requires splits > 0 && warmup <= length
  {
    forall i :: 0 <= i < |folds| ==>
      && folds[i].testStart == TestStart(length, splits, warmup, i)
      && folds[i].testEnd == TestStart(length, splits, warmup, i + 1)
  }

  lemma FoldsTile(folds: seq<Fold>, length: nat, splits: nat, warmup: nat)
    requires 2 <= splits <= 6 && warmup <= length && length - warmup >= splits * 10 && |folds| == splits
    requires CutAt(folds, length, splits, warmup)
    ensures Tiles(folds, length, warmup)
  {
    TestBounds(length, splits, warmup);
    hide TestStart;
    forall i | 0 <= i < splits
      ensures folds[i].testStart + 10 <= folds[i].testEnd
      ensures i < splits - 1 ==> Rows(folds[i]) == Rows(folds[0])
      ensures i == splits - 1 ==> Rows(folds[0]) <= Rows(folds[i]) < Rows(folds[0]) + splits
    {
      FoldSizes(length, splits, warmup, i);
      EqualFolds(length, splits, warmup, i);
    }
  }

  lemma {:induction false} NothingFiltered(times: seq<int>, start: int)
    requires forall i :: 0 <= i < |times| ==> times[i] >= start
    ensures FromTime(times, start) == times
  {
    if times != [] {
      NothingFiltered(times[1..], start);
    }
  }

  lemma {:induction false} NothingUncounted(events: seq<Event>, start: int, partials: bool)
    requires forall i :: 0 <= i < |events| && !Idle(events[i]) ==> events[i].timestamp >= start
    ensures CountFrom(events, start, partials) == CountAll(events, partials)
  {
    if events != [] {
      NothingUncounted(events[..|events| - 1], start, partials);
    }
  }

  method RunEngine(engine: Engine, candles: seq<Candle>, strategy: Strategy, config: Config)
    returns (r: Result<Outcome, RunError>)
    requires config.Valid() && strategy.Valid()
    requires VectorEngine.Divisible(candles) && VectorEngine.Divisible(SortByTime(candles))
    modifies strategy.Repr()
    ensures strategy.Valid()
    ensures r == EngineResult(engine, candles, strategy, config)
  {
    hide After, VectorEngine.RunOn, Strategy.Observed;
    match engine
    case EventDriven =>
      var sim := EventEngine.Run(candles, strategy, config);
      r := if sim.Ok? then Ok(EventOutcome(sim.value)) else Err(sim.error);
    case Vectorized =>
      var run := VectorEngine.Run(candles, strategy, config);
      r := if run.Ok? then Ok(VectorOutcome(SortByTime(candles), run.value)) else Err(run.error);
  }

  /** The fold's report: points from the activation on, trades and events from the first test row on. */
  method CutFold(outcome: Outcome, ordered: seq<Candle>, warmup: nat, testStart: nat, testEnd: nat, config: Config)
    returns (fold: Fold)
    requires warmup <= testStart < testEnd <= |ordered| && SortedBy(ByTime, ordered)
    requires outcome.Valid() && WarmedUp(outcome, ordered[testStart - warmup..testEnd], warmup, config)
    ensures fold == Fold(testStart, testEnd, ordered[testStart].timestamp, ordered[testEnd - 1].timestamp,
                         outcome.Points()[warmup..], outcome.TradeTimes(),
                         CountAll(outcome.Events(), true), CountAll(outcome.Events(), false))
  {
    hide RoundTo;
    var source := ordered[testStart - warmup..testEnd];
    var started := ordered[testStart].timestamp;
    assert source[warmup] == ordered[testStart];
    assert warmup + 1 < |source| ==>
           source[warmup + 1] == ordered[testStart + 1] && ByTime(ordered[testStart], ordered[testStart + 1]);
    NothingFiltered(outcome.TradeTimes(), started);
    NothingUncounted(outcome.Events(), started, true);
    NothingUncounted(outcome.Events(), started, false);
    fold := Fold(testStart, testEnd, started, ordered[testEnd - 1].timestamp, outcome.Points()[warmup..],
                 FromTime(outcome.TradeTimes(), started),
                 CountFrom(outcome.Events(), started, true), CountFrom(outcome.Events(), started, false));
  }

  lemma WarmedUpPoints(outcome: Outcome, source: seq<Candle>, warmup: nat, config: Config)
    requires outcome.Valid() && warmup < |source| && WarmedUp(outcome, source, warmup, config)
    ensures |outcome.Points()| == |source|
  {
  }

  lemma CutFoldReports(fold: Fold, outcome: Outcome, ordered: seq<Candle>, source: seq<Candle>, warmup: nat,
                       testStart: nat, testEnd: nat, delegate: Strategy, engine: Engine, config: Config)
    requires config.Valid() && delegate.WellFormed() && VectorEngine.Divisible(ordered)
    requires warmup <= testStart < testEnd <= |ordered|
    requires source == ordered[testStart - warmup..testEnd] && |source| == testEnd - testStart + warmup
    requires SortByTime(source) == source && VectorEngine.Divisible(source)
    requires outcome.Valid() && |outcome.Points()| == |source| && WarmedUp(outcome, source, warmup, config)
    requires EngineResult(engine, source, Activation(delegate, warmup), config) == Ok(outcome)
    requires fold == Fold(testStart, testEnd, ordered[testStart].timestamp, ordered[testEnd - 1].timestamp,
                          outcome.Points()[warmup..], outcome.TradeTimes(),
                          CountAll(outcome.Events(), true), CountAll(outcome.Events(), false))
    ensures Reports(fold, ordered, warmup, delegate, engine, config)
  {
    hide EngineResult, WarmedUp, CountAll, Outcome.Points, Outcome.TradeTimes, Outcome.Events, SortByTime,
         Strategy.Observed;
    assert ReportsRun(fold, source, warmup, delegate, engine, config);
  }

  lemma ActivationWraps(delegate: Strategy, activationIndex: nat)
    ensures var strategy := Activation(delegate, activationIndex);
            && (strategy.WellFormed() <==> delegate.WellFormed())
            && (strategy.Valid() <==> delegate.Valid())
            && strategy.Repr() == delegate.Repr()
    ensures delegate.Valid() ==> delegate.WellFormed()
  {
  }

  lemma FoldOfSource(ordered: seq<Candle>, source: seq<Candle>, warmup: nat, testStart: nat, testEnd: nat,
                     delegate: Strategy, engine: Engine, config: Config)
    requires config.Valid() && delegate.WellFormed() && VectorEngine.Divisible(ordered) && SortedBy(ByTime, ordered)
    requires warmup <= testStart <= testEnd <= |ordered| && source == ordered[testStart - warmup..testEnd]
    requires SortByTime(source) == source && VectorEngine.Divisible(source)
    ensures FoldResult(ordered, warmup, testStart, testEnd, delegate, engine, config) ==
            EngineResult(engine, source, Activation(delegate, warmup), config)
  {
    hide EngineResult, VectorEngine.Divisible;
  }

  /** One fold: the engine behind an activation on its warm-up and test rows. */
  method RunFold(ordered: seq<Candle>, delegate: Strategy, engine: Engine, config: Config,
                 warmup: nat, testStart: nat, testEnd: nat)
    returns (r: Result<Fold, ValidationError>)
    requires config.Valid() && delegate.Valid() && VectorEngine.Divisible(ordered) && SortedBy(ByTime, ordered)
    requires warmup <= testStart < testEnd <= |ordered|
    modifies delegate.Repr()
    ensures delegate.Valid()
    ensures r.Ok? ==> Reports(r.value, ordered, warmup, delegate, engine, config)
                      && r.value.testStart == testStart && r.value.testEnd == testEnd
    ensures match FoldResult(ordered, warmup, testStart, testEnd, delegate, engine, config)
            case Ok(_) => r.Ok?
            case Err(e) => r == Err(EngineFailed(e))
  {
    hide EngineResult, WarmedUp, CountAll, Outcome.Points, Outcome.TradeTimes, Outcome.Events, Reports, SortByTime,
         SortedBy, FoldResult, VectorEngine.Divisible, Strategy.Observed, Strategy.Valid, Strategy.WellFormed,
         Strategy.Repr;
    ActivationWraps(delegate, warmup);
    var source := ordered[testStart - warmup..testEnd];
    SourceSorted(ordered, testStart - warmup, testEnd);
    FoldOfSource(ordered, source, warmup, testStart, testEnd, delegate, engine, config);
    var outcome := RunEngine(engine, source, Activation(delegate, warmup), config);
    ActivationWraps(delegate, warmup);
    if outcome.Err? {
      return Err(EngineFailed(outcome.error));
    }
    ReprAllocated(delegate);
    WarmupIsIdle(engine, source, delegate, warmup, config);
    WarmedUpPoints(outcome.value, source, warmup, config);
    var fold := CutFold(outcome.value, ordered, warmup, testStart, testEnd, config);
    CutFoldReports(fold, outcome.value, ordered, source, warmup, testStart, testEnd, delegate, engine, config);
    r := Ok(fold);
  }

  lemma NoFailureYet(ordered: seq<Candle>, splits: nat, warmup: nat, delegate: Strategy, engine: Engine, config: Config)
    requires config.Valid() && delegate.WellFormed() && VectorEngine.Divisible(ordered) && SortedBy(ByTime, ordered)
    requires 2 <= splits <= 6 && warmup <= |ordered| && |ordered| - warmup >= splits * 10
    ensures FirstFailure(ordered, splits, warmup, 0, delegate, engine, config).None?
  {
  }

  lemma NextFailure(ordered: seq<Candle>, splits: nat, warmup: nat, i: nat,
                    delegate: Strategy, engine: Engine, config: Config)
    requires config.Valid() && delegate.WellFormed() && VectorEngine.Divisible(ordered) && SortedBy(ByTime, ordered)
    requires 2 <= splits <= 6 && warmup <= |ordered| && |ordered| - warmup >= splits * 10 && i < splits
    requires FirstFailure(ordered, splits, warmup, i, delegate, engine, config).None?
    ensures warmup <= TestStart(|ordered|, splits, warmup, i)
    ensures TestStart(|ordered|, splits, warmup, i) <= TestStart(|ordered|, splits, warmup, i + 1) <= |ordered|
    ensures FirstFailure(ordered, splits, warmup, i + 1, delegate, engine, config) ==
            match FoldResult(ordered, warmup, TestStart(|ordered|, splits, warmup, i),
                             TestStart(|ordered|, splits, warmup, i + 1),
                             delegate, engine, config)
            case Ok(_) => None
            case Err(e) => Some(e)
  {
    hide FoldResult, TestStart;
    FoldSizes(|ordered|, splits, warmup, i);
  }

  lemma {:induction false} FailureStays(ordered: seq<Candle>, splits: nat, warmup: nat, low: nat, high: nat,
                                        delegate: Strategy, engine: Engine, config: Config)
    requires config.Valid() && delegate.WellFormed() && VectorEngine.Divisible(ordered) && SortedBy(ByTime, ordered)
    requires 2 <= splits <= 6 && warmup <= |ordered| && |ordered| - warmup >= splits * 10 && low <= high <= splits
    requires FirstFailure(ordered, splits, warmup, low, delegate, engine, config).Some?
    ensures FirstFailure(ordered, splits, warmup, high, delegate, engine, config) ==
            FirstFailure(ordered, splits, warmup, low, delegate, engine, config)
    decreases high
  {
    hide NthResult, SortedBy, VectorEngine.Divisible;
    if low < high {
      FailureStays(ordered, splits, warmup, low, high - 1, delegate, engine, config);
    }
  }

  /**
   * The loop of run over the folds. The factory's fresh strategies all observe alike, so one
   * strategy stands for them; its cache passes from fold to fold without effect.
   */
  method Validate(candles: seq<Candle>, delegate: Strategy, engine: Engine, config: Config, splits: int, warmup: int)
    returns (r: Result<seq<Fold>, ValidationError>)
    requires config.Valid() && delegate.Valid() && VectorEngine.Divisible(SortByTime(candles))
    modifies delegate.Repr()
    ensures delegate.Valid()
    ensures r == Err(BadSplits) <==> !(2 <= splits <= 6)
    ensures r == Err(BadWarmup) <==> 2 <= splits <= 6 && warmup < 21
    ensures r == Err(InsufficientCandles) <==> 2 <= splits <= 6 && warmup >= 21 && |candles| - warmup < splits * 10
    ensures SortedBy(ByTime, SortByTime(candles))
    ensures 2 <= splits <= 6 && warmup >= 21 && |candles| - warmup >= splits * 10 ==>
              match FirstFailure(SortByTime(candles), splits, warmup, splits, delegate, engine, config)
              case None => r.Ok?
              case Some(e) => r == Err(EngineFailed(e))
    ensures r.Ok? ==> |r.value| == splits && Tiles(r.value, |candles|, warmup)
    ensures r.Ok? ==> forall i :: 0 <= i < splits ==>
              Reports(r.value[i], SortByTime(candles), warmup, delegate, engine, config)
  {
    hide Reports, SortByTime, SortedBy, VectorEngine.Divisible, FoldResult, Tiles;
    SortByTimeLaws(candles);
    if !(2 <= splits <= 6) {
      return Err(BadSplits);
    }
    if warmup < 21 {
      return Err(BadWarmup);
    }
    var ordered := SortByTime(candles);
    if |ordered| - warmup < splits * 10 {
      return Err(InsufficientCandles);
    }
    hide TestStart;
    NoFailureYet(ordered, splits, warmup, delegate, engine, config);
    hide FirstFailure;
    var folds: seq<Fold> := [];
    var index := 0;
    while index < splits
      invariant 0 <= index <= splits && |folds| == index
      invariant delegate.Valid()
      invariant FirstFailure(ordered, splits, warmup, index, delegate, engine, config).None?
      invariant CutAt(folds, |ordered|, splits, warmup)
      invariant forall i :: 0 <= i < index ==> Reports(folds[i], ordered, warmup, delegate, engine, config)
    {
      FoldSizes(|ordered|, splits, warmup, index);
      NextFailure(ordered, splits, warmup, index, delegate, engine, config);
      var fold := RunFold(ordered, delegate, engine, config, warmup,
                          TestStart(|ordered|, splits, warmup, index), TestStart(|ordered|, splits, warmup, index + 1));
      if fold.Err? {
        FailureStays(ordered, splits, warmup, index + 1, splits, delegate, engine, config);
        return Err(fold.error);
      }
      folds := folds + [fold.value];
      index := index + 1;
    }
    FoldsTile(folds, |ordered|, splits, warmup);
    r := Ok(folds);
  }
}
