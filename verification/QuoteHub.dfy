/**
 * The streaming hub's subscriber counts, and the hub, its streams and the KIS source as one
 * system of interleaved steps (backend/app/realtime/hub.py).
 */
module QuoteHub {
  import opened Core
  import opened OrderedDicts
  import Kis = KisSource

  datatype CapacityError = ConnectionCapacity | SymbolCapacity

  datatype Limits = Limits(maxSymbols: nat, maxConnections: nat)

  type Counts = Dict<string, int>

  function SumOf(keys: seq<string>, items: map<string, int>): int
    requires forall k :: k in keys ==> k in items
  {
    if keys == [] then 0 else items[keys[0]] + SumOf(keys[1..], items)
  }

  /** sum(self._subscriptions.values()) */
  function Total(counts: Counts): int
    requires counts.Valid()
  {
    SumOf(counts.keys, counts.items)
  }

  function CountAt(counts: Counts, symbol: string): int {
    if symbol in counts.items then counts.items[symbol] else 0
  }

  function Registered(counts: Counts, symbol: string, limits: Limits): (r: Result<(Counts, bool), CapacityError>)
    requires counts.Valid()
    ensures r.Ok? ==> r.value.0.Valid()
  {
    if Total(counts) >= limits.maxConnections then Err(ConnectionCapacity)
    else if symbol !in counts.items && |counts.keys| >= limits.maxSymbols then Err(SymbolCapacity)
    else Ok((counts.Set(symbol, CountAt(counts, symbol) + 1), symbol !in counts.items))
  }

  function Unregistered(counts: Counts, symbol: string): (r: (Counts, bool))
    requires counts.Valid()
    ensures r.0.Valid()
  {
    var subscribers := CountAt(counts, symbol) - 1;
    if subscribers <= 0 then (counts.Pop(symbol), true)
    else (counts.Set(symbol, subscribers), false)
  }

  /** The two hubs keep the same counts. */
  class SubscriberCounts {
    const limits: Limits
    var subscriptions: Counts

    ghost predicate Valid()
      reads this
    {
      subscriptions.Valid()
    }

    constructor (limits: Limits)
      ensures Valid() && this.limits == limits && subscriptions == Empty()
    {
      this.limits := limits;
      subscriptions := Empty();
    }

    method Sum() returns (total: int)
      requires Valid()
      ensures total == Total(subscriptions)
    {
      total := 0;
      var i := |subscriptions.keys|;
      while i > 0
        invariant 0 <= i <= |subscriptions.keys|
        invariant total == SumOf(subscriptions.keys[i..], subscriptions.items)
      {
        i := i - 1;
        assert subscriptions.keys[i] in subscriptions.items;
        total := subscriptions.items[subscriptions.keys[i]] + total;
      }
    }

    method Register(symbol: string) returns (r: Result<bool, CapacityError>)
      requires Valid()
      modifies this
      ensures Valid()
      ensures match Registered(old(subscriptions), symbol, limits)
              case Err(e) => r == Err(e) && subscriptions == old(subscriptions)
              case Ok(after) => r == Ok(after.1) && subscriptions == after.0
    {
      var total := Sum();
      if total >= limits.maxConnections {
        return Err(ConnectionCapacity);
      }
      if symbol !in subscriptions.items && |subscriptions.keys| >= limits.maxSymbols {
        return Err(SymbolCapacity);
      }
      var first := symbol !in subscriptions.items;
      subscriptions := subscriptions.Set(symbol, CountAt(subscriptions, symbol) + 1);
      r := Ok(first);
    }

    method Unregister(symbol: string) returns (last: bool)
      requires Valid()
      modifies this
      ensures Valid() && (subscriptions, last) == Unregistered(old(subscriptions), symbol)
    {
      var subscribers := CountAt(subscriptions, symbol) - 1;
      if subscribers <= 0 {
        subscriptions := subscriptions.Pop(symbol);
        return true;
      }
      subscriptions := subscriptions.Set(symbol, subscribers);
      last := false;
    }
  }

  // ----- hub, streams and source together -----

  /** A stream whose source.subscribe has not come back yet, or one that is past it. */
  datatype Stream = Subscribing(symbol: string) | Listening(symbol: string)

  datatype System = System(streams: map<nat, Stream>, counts: Counts, kis: Kis.State)

  datatype Move =
    | Open(id: nat, symbol: string)
    | Answered(id: nat, stock: Option<Kis.StockInfo>)
    | Close(id: nat)
    | Source(step: Kis.Step)

  function Initial(): System {
    System(map[], Empty(), Kis.Initial())
  }

  ghost predicate WellFormed(s: System) {
    s.counts.Valid() && s.kis.local.Valid()
  }

  /** The finally clause of stream: unregister, and with the last subscriber unsubscribe, in one step. */
  function Closed(s: System, id: nat): (r: System)
    requires WellFormed(s) && id in s.streams
    ensures WellFormed(r)
  {
    var symbol := s.streams[id].symbol;
    var (counts, last) := Unregistered(s.counts, symbol);
    System(s.streams - {id}, counts, if last then Kis.Unsubscribed(s.kis, symbol) else s.kis)
  }

  /** source.subscribe coming back for a stream: a stock, or the resolver's exception. */
  function SubscribeAnswer(s: System, id: nat, stock: Option<Kis.StockInfo>): (r: Result<Kis.State, Kis.SubscribeError>)
    requires WellFormed(s) && id in s.streams
    ensures r.Ok? ==> r.value.local.Valid()
  {
    match stock
    case None => Err(Kis.MarketNotSupported)
    case Some(info) =>
      var subscription :- Kis.Resolve(info);
      Kis.Subscribed(s.kis, s.streams[id].symbol, subscription)
  }

  function Next(s: System, move: Move, limits: Limits): (r: System)
    requires WellFormed(s)
    ensures WellFormed(r)
  {
    match move
    case Open(id, symbol) =>
      if id in s.streams then s
      else
        (match Registered(s.counts, symbol, limits)
         case Err(_) => s
         case Ok((counts, first)) =>
           System(s.streams[id := if first then Subscribing(symbol) else Listening(symbol)], counts, s.kis))
    case Answered(id, stock) =>
      if id !in s.streams || !s.streams[id].Subscribing? then s
      else
        (match SubscribeAnswer(s, id, stock)
         case Err(_) => Closed(s, id)
         case Ok(kis) => System(s.streams[id := Listening(s.streams[id].symbol)], s.counts, kis))
    case Close(id) => if id in s.streams then Closed(s, id) else s
    case Source(step) =>
      if step.SubscribeDone? || step.UnsubscribeCall? then s else s.(kis := Kis.Next(s.kis, step))
  }

  function Run(moves: seq<Move>, limits: Limits): (r: System)
    ensures WellFormed(r)
  {
    if moves == [] then Initial() else Next(Run(moves[..|moves| - 1], limits), moves[|moves| - 1], limits)
  }

  // ----- counting -----

  ghost function StreamsOf(streams: map<nat, Stream>, symbol: string): set<nat> {
    set id | id in streams && streams[id].symbol == symbol
  }

  /** Counts equal live streams, capacities hold, and every upstream symbol has a subscriber. */
  ghost predicate Balanced(s: System, limits: Limits) {
    && WellFormed(s)
    && (forall symbol :: CountAt(s.counts, symbol) == |StreamsOf(s.streams, symbol)|)
    && (forall symbol :: symbol in s.counts.items ==> s.counts.items[symbol] >= 1)
    && Total(s.counts) == |s.streams|
    && |s.streams| <= limits.maxConnections
    && |s.counts.keys| <= limits.maxSymbols
    && s.kis.local.items.Keys <= s.counts.items.Keys
  }

  lemma {:induction false} SumOfOther(keys: seq<string>, a: map<string, int>, b: map<string, int>)
    requires forall k :: k in keys ==> k in a && k in b && a[k] == b[k]
    ensures SumOf(keys, a) == SumOf(keys, b)
  {
    if keys != [] {
      SumOfOther(keys[1..], a, b);
    }
  }

  lemma {:induction false} SumOfAppend(keys: seq<string>, key: string, items: map<string, int>)
    requires forall k :: k in keys ==> k in items
    requires key in items
    ensures SumOf(keys + [key], items) == SumOf(keys, items) + items[key]
  {
    if keys != [] {
      assert (keys + [key])[1..] == keys[1..] + [key];
      SumOfAppend(keys[1..], key, items);
    } else {
      assert [key][1..] == [];
      assert keys + [key] == [key];
    }
  }

  lemma {:induction false} SumOfUpdate(keys: seq<string>, items: map<string, int>, key: string, value: int)
    requires Distinct(keys) && key in keys && forall k :: k in keys ==> k in items
    ensures SumOf(keys, items[key := value]) == SumOf(keys, items) + value - items[key]
  {
    if keys[0] == key {
      SumOfOther(keys[1..], items, items[key := value]);
    } else {
      SumOfUpdate(keys[1..], items, key, value);
    }
  }

  lemma {:induction false} SumOfWithout(keys: seq<string>, items: map<string, int>, key: string)
    requires Distinct(keys) && key in keys && forall k :: k in keys ==> k in items
    ensures SumOf(Without(keys, key), items - {key}) == SumOf(keys, items) - items[key]
  {
    var rest := keys[1..];
    if keys[0] == key {
      assert key !in rest;
      SumOfOther(rest, items, items - {key});
    } else {
      SumOfWithout(rest, items, key);
      assert ([keys[0]] + Without(rest, key))[1..] == Without(rest, key);
    }
  }

  lemma TotalAfterSet(counts: Counts, symbol: string, value: int)
    requires counts.Valid()
    ensures Total(counts.Set(symbol, value)) == Total(counts) + value - CountAt(counts, symbol)
  {
    if symbol in counts.items {
      SumOfUpdate(counts.keys, counts.items, symbol, value);
    } else {
      SumOfAppend(counts.keys, symbol, counts.items[symbol := value]);
      SumOfOther(counts.keys, counts.items, counts.items[symbol := value]);
    }
  }

  lemma TotalAfterPop(counts: Counts, symbol: string)
    requires counts.Valid() && symbol in counts.items
    ensures Total(counts.Pop(symbol)) == Total(counts) - counts.items[symbol]
  {
    SumOfWithout(counts.keys, counts.items, symbol);
  }

  lemma StreamCounted(streams: map<nat, Stream>, id: nat, stream: Stream, symbol: string)
    requires id !in streams
    ensures |StreamsOf(streams[id := stream], symbol)| ==
            |StreamsOf(streams, symbol)| + if symbol == stream.symbol then 1 else 0
  {
    var before, after := StreamsOf(streams, symbol), StreamsOf(streams[id := stream], symbol);
    if symbol == stream.symbol {
      assert after == before + {id};
    } else {
      assert after == before;
    }
  }

  lemma StreamAdded(streams: map<nat, Stream>, id: nat, stream: Stream)
    requires id !in streams
    ensures |streams[id := stream]| == |streams| + 1
    ensures forall symbol ::
      |StreamsOf(streams[id := stream], symbol)| ==
      |StreamsOf(streams, symbol)| + if symbol == stream.symbol then 1 else 0
  {
    hide StreamsOf;
    forall symbol
      ensures |StreamsOf(streams[id := stream], symbol)| ==
              |StreamsOf(streams, symbol)| + if symbol == stream.symbol then 1 else 0
    {
      StreamCounted(streams, id, stream, symbol);
    }
  }

  lemma StreamRemoved(streams: map<nat, Stream>, id: nat)
    requires id in streams
    ensures |streams - {id}| == |streams| - 1
    ensures forall symbol ::
      |StreamsOf(streams - {id}, symbol)| ==
      |StreamsOf(streams, symbol)| - if symbol == streams[id].symbol then 1 else 0
  {
    var less := streams - {id};
    assert streams == less[id := streams[id]];
    StreamAdded(less, id, streams[id]);
  }

  lemma StreamAnswered(streams: map<nat, Stream>, id: nat)
    requires id in streams
    ensures var after := streams[id := Listening(streams[id].symbol)];
            |after| == |streams| && forall symbol :: StreamsOf(after, symbol) == StreamsOf(streams, symbol)
  {
    var after := streams[id := Listening(streams[id].symbol)];
    assert after.Keys == streams.Keys;
    assert |after| == |after.Keys| && |streams| == |streams.Keys|;
  }

  lemma SomeStream(streams: map<nat, Stream>, id: nat)
    requires id in streams
    ensures |StreamsOf(streams, streams[id].symbol)| >= 1
  {
    assert id in StreamsOf(streams, streams[id].symbol);
  }

  lemma ClosedBalanced(s: System, id: nat, limits: Limits)
    requires Balanced(s, limits) && id in s.streams
    ensures Balanced(Closed(s, id), limits)
  {
    hide StreamsOf, Total;
    var symbol := s.streams[id].symbol;
    StreamRemoved(s.streams, id);
    SomeStream(s.streams, id);
    assert symbol in s.counts.items;
    TotalAfterSet(s.counts, symbol, s.counts.items[symbol] - 1);
    TotalAfterPop(s.counts, symbol);
    var after := Closed(s, id);
    forall other
      ensures CountAt(after.counts, other) == |StreamsOf(after.streams, other)|
    {
      assert CountAt(s.counts, other) == |StreamsOf(s.streams, other)|;
    }
  }

  lemma RegisterLaws(counts: Counts, symbol: string, limits: Limits)
    requires counts.Valid() && Registered(counts, symbol, limits).Ok?
    ensures var after := Registered(counts, symbol, limits).value.0;
            && (forall other :: CountAt(after, other) == CountAt(counts, other) + if other == symbol then 1 else 0)
            && Total(after) == Total(counts) + 1 <= limits.maxConnections
            && |after.keys| <= (if symbol in counts.items then |counts.keys| else limits.maxSymbols)
            && after.items.Keys == counts.items.Keys + {symbol}
  {
    hide Total;
    TotalAfterSet(counts, symbol, CountAt(counts, symbol) + 1);
  }

  // ----- capacity and the last subscriber, said of the open streams -----

  ghost function SymbolsOf(streams: map<nat, Stream>): set<string> {
    set id | id in streams :: streams[id].symbol
  }

  lemma CountedSymbols(s: System, limits: Limits)
    requires Balanced(s, limits)
    ensures WellFormed(s) && s.counts.items.Keys == SymbolsOf(s.streams)
    ensures |s.counts.keys| == |SymbolsOf(s.streams)|
    ensures forall symbol :: symbol in s.counts.items <==> StreamsOf(s.streams, symbol) != {}
  {
    hide Total;
    forall symbol
      ensures symbol in s.counts.items <==> StreamsOf(s.streams, symbol) != {}
      ensures symbol in SymbolsOf(s.streams) <==> StreamsOf(s.streams, symbol) != {}
    {
      assert CountAt(s.counts, symbol) == |StreamsOf(s.streams, symbol)|;
      if id :| id in s.streams && s.streams[id].symbol == symbol {
        assert id in StreamsOf(s.streams, symbol);
      }
    }
    SizeOfKeys(s.counts.keys, SymbolsOf(s.streams));
  }

  /**
   * A stream is turned away exactly when as many are open as there are connections, or otherwise when nobody
   * streams its symbol and as many symbols are streamed as allowed; and it is told to subscribe exactly when
   * nobody streams its symbol yet.
   */
  lemma RefusedExactly(s: System, symbol: string, limits: Limits)
    requires Balanced(s, limits)
    ensures var streamed := StreamsOf(s.streams, symbol) != {};
            match Registered(s.counts, symbol, limits)
            case Err(ConnectionCapacity) => |s.streams| >= limits.maxConnections
            case Err(SymbolCapacity) =>
              |s.streams| < limits.maxConnections && !streamed && |SymbolsOf(s.streams)| >= limits.maxSymbols
            case Ok((_, first)) =>
              && |s.streams| < limits.maxConnections
              && (streamed || |SymbolsOf(s.streams)| < limits.maxSymbols)
              && (first <==> !streamed)
  {
    hide Total, StreamsOf, SymbolsOf;
    CountedSymbols(s, limits);
  }

  /** The upstream unsubscription goes with the last stream of a symbol and with no other. */
  lemma LastExactly(s: System, id: nat, limits: Limits)
    requires Balanced(s, limits) && id in s.streams
    ensures Unregistered(s.counts, s.streams[id].symbol).1 <==> StreamsOf(s.streams, s.streams[id].symbol) == {id}
  {
    hide Total;
    var symbol := s.streams[id].symbol;
    var streams := StreamsOf(s.streams, symbol);
    assert id in streams;
    assert CountAt(s.counts, symbol) == |streams|;
    SubsetSize({id}, streams);
    if |streams| == 1 {
      assert |streams - {id}| == 0;
    }
  }

  lemma AddedBalanced(s: System, id: nat, stream: Stream, counts: Counts, limits: Limits)
    requires Balanced(s, limits) && id !in s.streams && counts.Valid()
    requires forall other ::
               CountAt(counts, other) == CountAt(s.counts, other) + if other == stream.symbol then 1 else 0
    requires Total(counts) == Total(s.counts) + 1 <= limits.maxConnections
    requires |counts.keys| <= limits.maxSymbols && counts.items.Keys == s.counts.items.Keys + {stream.symbol}
    ensures Balanced(System(s.streams[id := stream], counts, s.kis), limits)
  {
    hide StreamsOf, Total;
    StreamAdded(s.streams, id, stream);
    forall other
      ensures CountAt(counts, other) == |StreamsOf(s.streams[id := stream], other)|
    {
      assert CountAt(s.counts, other) == |StreamsOf(s.streams, other)|;
    }
    forall other | other in counts.items
      ensures counts.items[other] >= 1
    {
      assert counts.items[other] == CountAt(counts, other);
      assert other in s.counts.items ==> CountAt(s.counts, other) == s.counts.items[other];
    }
  }

  lemma WithinSymbols(s: System, limits: Limits)
    requires Balanced(s, limits)
    ensures WellFormed(s) && |s.counts.keys| <= limits.maxSymbols
  {
  }

  lemma OpenBalanced(s: System, id: nat, symbol: string, limits: Limits)
    requires Balanced(s, limits)
    ensures Balanced(Next(s, Open(id, symbol), limits), limits)
  {
    WithinSymbols(s, limits);
    hide Balanced, Total, CountAt;
    var registered := Registered(s.counts, symbol, limits);
    if id !in s.streams && registered.Ok? {
      RegisterLaws(s.counts, symbol, limits);
      var stream := if registered.value.1 then Subscribing(symbol) else Listening(symbol);
      AddedBalanced(s, id, stream, registered.value.0, limits);
    }
  }

  lemma AnsweredBalanced(s: System, id: nat, stock: Option<Kis.StockInfo>, limits: Limits)
    requires Balanced(s, limits)
    ensures Balanced(Next(s, Answered(id, stock), limits), limits)
  {
    hide StreamsOf, Total, Kis.Resolve;
    if id in s.streams && s.streams[id].Subscribing? {
      var answer := SubscribeAnswer(s, id, stock);
      if answer.Err? {
        ClosedBalanced(s, id, limits);
      } else {
        StreamAnswered(s.streams, id);
        SomeStream(s.streams, id);
        assert CountAt(s.counts, s.streams[id].symbol) >= 1;
      }
    }
  }

  /** Every step keeps counts, capacities and the inclusion of the source in the hub. */
  lemma StepBalanced(s: System, move: Move, limits: Limits)
    requires Balanced(s, limits)
    ensures Balanced(Next(s, move, limits), limits)
  {
    match move
    case Open(id, symbol) => OpenBalanced(s, id, symbol, limits);
    case Answered(id, stock) => AnsweredBalanced(s, id, stock, limits);
    case Close(id) =>
      if id in s.streams {
        ClosedBalanced(s, id, limits);
      }
    case Source(step) =>
  }

  lemma InitialBalanced(limits: Limits)
    ensures Balanced(Initial(), limits)
  {
    assert forall symbol :: StreamsOf(map[], symbol) == {};
  }

  lemma {:induction false} RunBalanced(moves: seq<Move>, limits: Limits)
    ensures Balanced(Run(moves, limits), limits)
  {
    hide Next, Balanced;
    if moves == [] {
      InitialBalanced(limits);
    } else {
      RunBalanced(moves[..|moves| - 1], limits);
      StepBalanced(Run(moves[..|moves| - 1], limits), moves[|moves| - 1], limits);
    }
  }

  lemma ProperSubsetIsSmaller(keys: seq<string>, symbol: string, more: seq<string>)
    requires Distinct(keys) && Distinct(more) && symbol in more && symbol !in keys
    requires forall k :: k in keys ==> k in more
    ensures |keys| < |more|
  {
    var a, b := set k | k in keys, set k | k in more;
    SizeOfKeys(keys, a);
    SizeOfKeys(more, b);
    assert a + {symbol} <= b;
    assert |a + {symbol}| == |a| + 1;
    SubsetSize(a + {symbol}, b);
  }

  /** With the hub capped at the source's own limit, the source's limit error is never raised. */
  lemma SourceLimitUnreachable(moves: seq<Move>, limits: Limits, id: nat, stock: Option<Kis.StockInfo>)
    requires limits.maxSymbols <= Kis.MAX_SUBSCRIPTIONS
    requires id in Run(moves, limits).streams
    ensures SubscribeAnswer(Run(moves, limits), id, stock) != Err(Kis.SubscriptionLimit)
  {
    hide Next, Run, Kis.MarketCode, StreamsOf;
    var s := Run(moves, limits);
    RunBalanced(moves, limits);
    var symbol := s.streams[id].symbol;
    SomeStream(s.streams, id);
    assert CountAt(s.counts, symbol) >= 1;
    if symbol !in s.kis.local.items {
      ProperSubsetIsSmaller(s.kis.local.keys, symbol, s.counts.keys);
    }
  }

  // ----- the source's protocol inside the system -----

  /** Symbols are normalised before they reach the hub, and the resolver answers for what it was asked. */
  ghost predicate FaithfulMove(s: System, move: Move)
    requires WellFormed(s)
  {
    move.Answered? && move.id in s.streams && move.stock.Some? ==>
      Kis.Upper(move.stock.value.symbol) == s.streams[move.id].symbol
  }

  ghost predicate FaithfulRun(moves: seq<Move>, limits: Limits) {
    forall i :: 0 <= i < |moves| ==> FaithfulMove(Run(moves[..i], limits), moves[i])
  }

  lemma MoveIsSourceStep(s: System, move: Move, limits: Limits)
    requires WellFormed(s) && Kis.Invariant(s.kis) && FaithfulMove(s, move)
    ensures Kis.Invariant(Next(s, move, limits).kis)
  {
    hide Kis.Tracks, Kis.Resolve, Kis.Invariant, Total;
    match move
    case Open(id, symbol) =>
    case Answered(id, stock) =>
      if id in s.streams && s.streams[id].Subscribing? {
        Kis.StepKeepsInvariant(s.kis, Kis.UnsubscribeCall(s.streams[id].symbol));
        if stock.Some? {
          Kis.StepKeepsInvariant(s.kis, Kis.SubscribeDone(s.streams[id].symbol, stock.value));
        }
      }
    case Close(id) =>
      if id in s.streams {
        Kis.StepKeepsInvariant(s.kis, Kis.UnsubscribeCall(s.streams[id].symbol));
      }
    case Source(step) =>
      if !step.SubscribeDone? && !step.UnsubscribeCall? {
        Kis.StepKeepsInvariant(s.kis, step);
      }
  }

  /** In the whole system, a drained live connection holds only symbols that streams are counted for. */
  lemma {:induction false} SystemTracks(moves: seq<Move>, limits: Limits)
    requires FaithfulRun(moves, limits)
    ensures Kis.Invariant(Run(moves, limits).kis)
  {
    hide Next, Kis.Invariant;
    if moves == [] {
      Kis.InitialInvariant();
    } else {
      var init := moves[..|moves| - 1];
      forall i | 0 <= i < |init|
        ensures FaithfulMove(Run(init[..i], limits), init[i])
      {
        assert init[..i] == moves[..i];
      }
      SystemTracks(init, limits);
      MoveIsSourceStep(Run(init, limits), moves[|moves| - 1], limits);
    }
  }

  /** When the connection is live and drained, what the server streams is what the hub has subscribers for. */
  lemma DrainedServerIsWanted(moves: seq<Move>, limits: Limits)
    requires FaithfulRun(moves, limits)
    ensures var s := Run(moves, limits);
            Kis.Live(s.kis) && Kis.Wire(s.kis) == [] ==>
              forall key :: key in s.kis.server ==>
                exists symbol :: symbol in s.kis.local.items && Kis.KeyOf(s.kis.local.items[symbol]) == key
                                 && CountAt(s.counts, symbol) >= 1
  {
    hide Next, Run;
    SystemTracks(moves, limits);
    RunBalanced(moves, limits);
  }

  // ----- the inclusion does not hold the other way -----

  function GapMoves(symbol: string): seq<Move> {
    [Open(0, symbol), Open(1, symbol), Answered(0, None)]
  }

  /** One stream still subscribing, counted, and nothing upstream. */
  function OneSubscribing(symbol: string): System {
    System(map[0 := Subscribing(symbol)], Dict([symbol], map[symbol := 1]), Kis.Initial())
  }

  lemma FirstOpens(symbol: string, limits: Limits)
    requires limits.maxSymbols >= 1 && limits.maxConnections >= 1
    ensures Next(Initial(), GapMoves(symbol)[0], limits) == OneSubscribing(symbol)
  {
  }

  function OneOfEach(symbol: string): System {
    System(map[0 := Subscribing(symbol), 1 := Listening(symbol)], Dict([symbol], map[symbol := 2]), Kis.Initial())
  }

  lemma SecondOpens(symbol: string, limits: Limits)
    requires limits.maxConnections >= 2
    ensures OneSubscribing(symbol).counts.Valid()
    ensures Next(OneSubscribing(symbol), GapMoves(symbol)[1], limits) == OneOfEach(symbol)
  {
    var s := OneSubscribing(symbol);
    assert SumOf([symbol][1..], s.counts.items) == 0;
    assert Total(s.counts) == 1;
  }

  lemma FirstIsRefused(symbol: string, limits: Limits)
    ensures OneOfEach(symbol).counts.Valid()
    ensures Next(OneOfEach(symbol), GapMoves(symbol)[2], limits) ==
            System(map[1 := Listening(symbol)], Dict([symbol], map[symbol := 1]), Kis.Initial())
  {
    assert OneOfEach(symbol).streams - {0} == map[1 := Listening(symbol)];
  }

  lemma RunOfThree(moves: seq<Move>, limits: Limits)
    requires |moves| == 3
    ensures Run(moves, limits) == Next(Next(Next(Initial(), moves[0], limits), moves[1], limits), moves[2], limits)
  {
    hide Next;
    assert moves[..2][..1] == moves[..1] && moves[..1][..0] == [];
    assert Run(moves[..1], limits) == Next(Initial(), moves[0], limits);
    assert Run(moves[..2], limits) == Next(Run(moves[..1], limits), moves[1], limits);
  }

  /**
   * When the first stream's subscribe fails, a second stream that registered meanwhile keeps
   * listening to a symbol nobody subscribes upstream.
   */
  lemma ListeningWithoutSource(symbol: string, limits: Limits)
    requires limits.maxSymbols >= 1 && limits.maxConnections >= 2
    ensures var s := Run(GapMoves(symbol), limits);
            s.streams == map[1 := Listening(symbol)] && symbol !in s.kis.local.items && CountAt(s.counts, symbol) == 1
  {
    hide Next;
    FirstOpens(symbol, limits);
    SecondOpens(symbol, limits);
    FirstIsRefused(symbol, limits);
    RunOfThree(GapMoves(symbol), limits);
  }
}
