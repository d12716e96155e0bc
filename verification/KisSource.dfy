/**
 * The KIS websocket source: a local subscription map, an action queue and a reconnect loop
 * (backend/app/realtime/kis.py). A step is what runs between two suspension points.
 */
module KisSource {
  import opened Core
  import opened OrderedDicts

  datatype StockInfo = StockInfo(symbol: string, name: string, market: string, currency: string)

  datatype Subscription = Subscription(symbol: string, name: string, trId: string, trKey: string, currency: string)

  datatype SubscribeError = MarketNotSupported | ExchangeNotSupported | SubscriptionLimit

  const DOMESTIC_TR_ID := "H0STCNT0"
  const OVERSEAS_TR_ID := "HDFSCNT0"
  const MAX_SUBSCRIPTIONS := 40

  // ----- resolving a stock -----

  function UpperChar(c: char): char {
    if 'a' <= c <= 'z' then c - 'a' + 'A' else c
  }

  function Upper(s: string): (r: string)
    ensures |r| == |s|
  {
    seq(|s|, i requires 0 <= i < |s| => UpperChar(s[i]))
  }

  predicate IsDigits(s: string) {
    s != "" && forall i :: 0 <= i < |s| ==> '0' <= s[i] <= '9'
  }

  predicate Contains(s: string, part: string) {
    part <= s || (s != "" && Contains(s[1..], part))
  }

  function MarketCode(market: string): (code: Option<string>)
    ensures code.Some? ==> |code.value| == 3
  {
    if Contains(market, "NAS") then Some("NAS")
    else if Contains(market, "NYS") || Contains(market, "NYSE") then Some("NYS")
    else if Contains(market, "AMS") || Contains(market, "AMEX") then Some("AMS")
    else None
  }

  function Resolve(stock: StockInfo): Result<Subscription, SubscribeError> {
    var symbol := Upper(stock.symbol);
    if IsDigits(symbol) && |symbol| == 6 then
      Ok(Subscription(symbol, stock.name, DOMESTIC_TR_ID, symbol, "KRW"))
    else if Upper(stock.currency) != "USD" then Err(MarketNotSupported)
    else
      match MarketCode(Upper(stock.market))
      case None => Err(ExchangeNotSupported)
      case Some(code) => Ok(Subscription(symbol, stock.name, OVERSEAS_TR_ID, "D" + code + symbol, "USD"))
  }

  type Key = (string, string)

  function KeyOf(s: Subscription): Key {
    (s.trId, s.trKey)
  }

  /** Two stocks get the same server key only if they have the same symbol. */
  lemma ResolveInjective(a: StockInfo, b: StockInfo)
    requires Resolve(a).Ok? && Resolve(b).Ok? && KeyOf(Resolve(a).value) == KeyOf(Resolve(b).value)
    ensures Resolve(a).value.symbol == Resolve(b).value.symbol
  {
    var x, y := Resolve(a).value, Resolve(b).value;
    assert DOMESTIC_TR_ID[1] != OVERSEAS_TR_ID[1];
    if x.trId == OVERSEAS_TR_ID {
      assert x.trKey[4..] == x.symbol;
      assert y.trKey[4..] == y.symbol;
    }
  }

  // ----- the state -----

  datatype Action = Subscribe(subscription: Subscription) | Unsubscribe(subscription: Subscription)

  /** Where the run loop stands. Broken is a dead connection that the loop has not yet put away. */
  datatype Phase =
    | Idle
    | Snapshot(unsent: seq<Subscription>)
    | Serving(inFlight: Option<Action>)
    | Broken

  datatype State = State(local: Dict<string, Subscription>, actions: seq<Action>, hasSubscriptions: bool,
                         phase: Phase, server: set<Key>)

  function Initial(): State {
    State(Empty(), [], false, Idle, {})
  }

  predicate Live(s: State) {
    s.phase.Snapshot? || s.phase.Serving?
  }

  ghost function LocalKeys(local: Dict<string, Subscription>): set<Key> {
    set symbol | symbol in local.items :: KeyOf(local.items[symbol])
  }

  function SubscribeAll(subscriptions: seq<Subscription>): (r: seq<Action>)
    ensures |r| == |subscriptions|
  {
    seq(|subscriptions|, i requires 0 <= i < |subscriptions| => Subscribe(subscriptions[i]))
  }

  /** What is still to be sent on the current connection, in order. */
  function Wire(s: State): seq<Action> {
    match s.phase
    case Snapshot(unsent) => SubscribeAll(unsent) + s.actions
    case Serving(Some(action)) => [action] + s.actions
    case _ => s.actions
  }

  function Sent(server: set<Key>, action: Action): set<Key> {
    match action
    case Subscribe(subscription) => server + {KeyOf(subscription)}
    case Unsubscribe(subscription) => server - {KeyOf(subscription)}
  }

  function SentAll(server: set<Key>, actions: seq<Action>): set<Key>
    decreases |actions|
  {
    if actions == [] then server else SentAll(Sent(server, actions[0]), actions[1..])
  }

  // ----- the steps -----

  /** subscribe after its thread returned: the lock body and the put that follows it. */
  function Subscribed(s: State, symbol: string, subscription: Subscription): (r: Result<State, SubscribeError>)
    requires s.local.Valid()
    ensures r.Ok? ==> r.value.local.Valid()
  {
    if symbol in s.local.items then Ok(s)
    else if |s.local.keys| >= MAX_SUBSCRIPTIONS then Err(SubscriptionLimit)
    else
      Ok(s.(local := s.local.Set(symbol, subscription), hasSubscriptions := true,
            actions := if s.phase.Idle? then s.actions else s.actions + [Subscribe(subscription)]))
  }

  /** unsubscribe: the pop, the put, and on an empty map the close, which ends the connection. */
  function Unsubscribed(s: State, symbol: string): (r: State)
    requires s.local.Valid()
    ensures r.local.Valid()
  {
    var local := s.local.Pop(symbol);
    var actions :=
      if symbol in s.local.items && !s.phase.Idle? then s.actions + [Unsubscribe(s.local.items[symbol])] else s.actions;
    if local.keys == [] then
      s.(local := local, actions := actions, hasSubscriptions := false, phase := if s.phase.Idle? then Idle else Broken)
    else s.(local := local, actions := actions)
  }

  datatype Step =
    | SubscribeDone(symbol: string, stock: StockInfo)
    | UnsubscribeCall(symbol: string)
    | Connect
    | SendSnapshot
    | StartServing
    | TakeAction
    | SendAction
    | Fail
    | CleanUp

  /** A step that is not enabled leaves the state alone. */
  function Next(s: State, step: Step): (r: State)
    requires s.local.Valid()
    ensures r.local.Valid()
  {
    match step
    case SubscribeDone(symbol, stock) =>
      if Resolve(stock).Err? then s
      else
        var r := Subscribed(s, symbol, Resolve(stock).value);
        if r.Ok? then r.value else s
    case UnsubscribeCall(symbol) => Unsubscribed(s, symbol)
    case Connect =>
      if s.phase.Idle? then s.(phase := Snapshot(s.local.Values()), actions := [], server := {}) else s
    case SendSnapshot =>
      if s.phase.Snapshot? && s.phase.unsent != [] then
        s.(phase := Snapshot(s.phase.unsent[1..]), server := Sent(s.server, Subscribe(s.phase.unsent[0])))
      else s
    case StartServing =>
      if s.phase == Snapshot([]) then s.(phase := Serving(None)) else s
    case TakeAction =>
      if s.phase == Serving(None) && s.actions != [] then
        s.(phase := Serving(Some(s.actions[0])), actions := s.actions[1..])
      else s
    case SendAction =>
      if s.phase.Serving? && s.phase.inFlight.Some? then
        s.(phase := Serving(None), server := Sent(s.server, s.phase.inFlight.value))
      else s
    case Fail => if Live(s) then s.(phase := Broken) else s
    case CleanUp => if s.phase.Broken? then s.(phase := Idle) else s
  }

  function Run(s: State, steps: seq<Step>): (r: State)
    requires s.local.Valid()
    ensures r.local.Valid()
  {
    if steps == [] then s else Next(Run(s, steps[..|steps| - 1]), steps[|steps| - 1])
  }

  lemma EmptyKeysEmptyItems(local: Dict<string, Subscription>)
    requires local.Valid()
    ensures local.keys == [] <==> local.items == map[]
  {
    if local.keys != [] {
      assert local.keys[0] in local.keys;
    }
  }

  /**
   * An unsubscribe that leaves nothing subscribed ends the connection there is; any other one
   * leaves the run loop where it stands. What is popped on a connection is queued for the server.
   */
  lemma UnsubscribeEndsConnection(s: State, symbol: string)
    requires s.local.Valid()
    ensures var t := Next(s, UnsubscribeCall(symbol));
            && t.local.items == s.local.items - {symbol}
            && (t.local.items == map[] ==> !Live(t) && !t.hasSubscriptions && (t.phase.Idle? <==> s.phase.Idle?))
            && (t.local.items != map[] ==> t.phase == s.phase && t.hasSubscriptions == s.hasSubscriptions)
            && (symbol in s.local.items && !s.phase.Idle? ==>
                t.actions == s.actions + [Unsubscribe(s.local.items[symbol])])
            && (symbol !in s.local.items || s.phase.Idle? ==> t.actions == s.actions)
            && t.server == s.server
  {
    EmptyKeysEmptyItems(s.local.Pop(symbol));
  }

  /** A subscribe never moves the run loop; a new symbol wakes it and, on a connection, is queued for the server. */
  lemma SubscribeWakes(s: State, symbol: string, stock: StockInfo)
    requires s.local.Valid() && Resolve(stock).Ok?
    ensures var t := Next(s, SubscribeDone(symbol, stock));
            && t.phase == s.phase && t.server == s.server
            && (symbol in s.local.items || |s.local.keys| >= MAX_SUBSCRIPTIONS ==> t == s)
            && (symbol !in s.local.items && |s.local.keys| < MAX_SUBSCRIPTIONS ==>
                && t.local.items == s.local.items[symbol := Resolve(stock).value]
                && t.hasSubscriptions
                && t.actions == s.actions + if s.phase.Idle? then [] else [Subscribe(Resolve(stock).value)])
  {
    hide Resolve;
  }

  // ----- what a stock resolves to -----

  predicate StandsAt(s: string, part: string, i: int) {
    0 <= i <= |s| - |part| && s[i..i + |part|] == part
  }

  /** The part stands somewhere in the text. */
  lemma {:induction false} ContainsExactly(s: string, part: string)
    ensures Contains(s, part) <==> exists i :: StandsAt(s, part, i)
  {
    if part <= s {
      assert StandsAt(s, part, 0);
    } else if s != "" {
      ContainsExactly(s[1..], part);
      if i :| StandsAt(s[1..], part, i) {
        assert StandsAt(s, part, i + 1);
      }
      if i :| StandsAt(s, part, i) {
        assert i > 0;
        assert StandsAt(s[1..], part, i - 1);
      }
    }
  }

  lemma NyseIsNys(market: string)
    ensures Contains(market, "NYSE") ==> Contains(market, "NYS")
  {
    ContainsExactly(market, "NYSE");
    ContainsExactly(market, "NYS");
    if i :| StandsAt(market, "NYSE", i) {
      assert market[i..i + 3] == market[i..i + 4][..3];
      assert "NYSE"[..3] == "NYS";
      assert StandsAt(market, "NYS", i);
    }
  }

  /**
   * Six digits are a domestic stock under its own code; a dollar stock of one of the three markets
   * goes under the market's code and its symbol; nothing else is subscribed.
   */
  lemma ResolvesExactly(stock: StockInfo)
    ensures var symbol, market := Upper(stock.symbol), Upper(stock.market);
            var domestic := |symbol| == 6 && forall i :: 0 <= i < 6 ==> '0' <= symbol[i] <= '9';
            var listed := Contains(market, "NAS") || Contains(market, "NYS") || Contains(market, "AMS")
                          || Contains(market, "AMEX");
            && (Resolve(stock).Ok? <==> domestic || (Upper(stock.currency) == "USD" && listed))
            && (domestic ==> Resolve(stock).value == Subscription(symbol, stock.name, "H0STCNT0", symbol, "KRW"))
            && (Resolve(stock).Ok? && !domestic ==>
                var code := if Contains(market, "NAS") then "NAS" else if Contains(market, "NYS") then "NYS" else "AMS";
                Resolve(stock).value == Subscription(symbol, stock.name, "HDFSCNT0", "D" + code + symbol, "USD"))
  {
    hide Contains, Upper;
    assert "" != "USD";
    NyseIsNys(Upper(stock.market));
  }

  // ----- the protocol invariant -----

  /** On a live connection, sending what is left brings the server to the local subscriptions. */
  ghost predicate Tracks(s: State) {
    Live(s) ==> SentAll(s.server, Wire(s)) == LocalKeys(s.local)
  }

  lemma {:induction false} SentAllAppend(server: set<Key>, a: seq<Action>, b: seq<Action>)
    ensures SentAll(server, a + b) == SentAll(SentAll(server, a), b)
    decreases |a|
  {
    if a == [] {
      assert a + b == b;
    } else {
      assert (a + b)[1..] == a[1..] + b;
      SentAllAppend(Sent(server, a[0]), a[1..], b);
    }
  }

  lemma SentAllLast(server: set<Key>, a: seq<Action>, action: Action)
    ensures SentAll(server, a + [action]) == Sent(SentAll(server, a), action)
  {
    SentAllAppend(server, a, [action]);
    assert SentAll(SentAll(server, a), [action]) == Sent(SentAll(server, a), action);
  }

  lemma {:induction false} SnapshotKeys(server: set<Key>, subscriptions: seq<Subscription>)
    ensures SentAll(server, SubscribeAll(subscriptions)) ==
            server + set i | 0 <= i < |subscriptions| :: KeyOf(subscriptions[i])
    decreases |subscriptions|
  {
    if subscriptions != [] {
      var rest := subscriptions[1..];
      assert SubscribeAll(subscriptions)[1..] == SubscribeAll(rest);
      SnapshotKeys(server + {KeyOf(subscriptions[0])}, rest);
      var all := set i | 0 <= i < |subscriptions| :: KeyOf(subscriptions[i]);
      var tail := set i | 0 <= i < |rest| :: KeyOf(rest[i]);
      forall k | k in all
        ensures k in {KeyOf(subscriptions[0])} + tail
      {
        var i :| 0 <= i < |subscriptions| && KeyOf(subscriptions[i]) == k;
        assert i > 0 ==> rest[i - 1] == subscriptions[i];
      }
      forall k | k in tail
        ensures k in all
      {
        var i :| 0 <= i < |rest| && KeyOf(rest[i]) == k;
        assert subscriptions[i + 1] == rest[i];
      }
      assert KeyOf(subscriptions[0]) in all;
    }
  }

  /** Another local symbol is subscribed under the same server key. */
  ghost predicate SharesKey(local: Dict<string, Subscription>, symbol: string) {
    symbol in local.items &&
    exists other :: other in local.items && other != symbol && KeyOf(local.items[other]) == KeyOf(local.items[symbol])
  }

  lemma KeysAfterSet(local: Dict<string, Subscription>, symbol: string, subscription: Subscription)
    requires local.Valid() && symbol !in local.items
    ensures LocalKeys(local.Set(symbol, subscription)) == LocalKeys(local) + {KeyOf(subscription)}
  {
    var after := local.Set(symbol, subscription);
    assert after.items[symbol] == subscription;
    forall k | k in LocalKeys(local)
      ensures k in LocalKeys(after)
    {
      var s :| s in local.items && KeyOf(local.items[s]) == k;
      assert s in after.items && after.items[s] == local.items[s];
    }
  }

  lemma KeysAfterPop(local: Dict<string, Subscription>, symbol: string)
    requires local.Valid() && symbol in local.items
    ensures LocalKeys(local.Pop(symbol)) == LocalKeys(local) - {KeyOf(local.items[symbol])} <==>
            !SharesKey(local, symbol)
  {
    var after := local.Pop(symbol);
    forall k | k in LocalKeys(local) && k != KeyOf(local.items[symbol])
      ensures k in LocalKeys(after)
    {
      var s :| s in local.items && KeyOf(local.items[s]) == k;
      assert s in after.items;
    }
    if SharesKey(local, symbol) {
      var other :| other in local.items && other != symbol && KeyOf(local.items[other]) == KeyOf(local.items[symbol]);
      assert other in after.items;
      assert KeyOf(local.items[symbol]) in LocalKeys(after);
    }
  }

  lemma ConnectTracks(s: State)
    requires s.local.Valid() && s.phase.Idle?
    ensures Tracks(Next(s, Connect))
  {
    var values := s.local.Values();
    SnapshotKeys({}, values);
    assert SubscribeAll(values) + [] == SubscribeAll(values);
    var sent := set i | 0 <= i < |values| :: KeyOf(values[i]);
    forall k | k in LocalKeys(s.local)
      ensures k in sent
    {
      var symbol :| symbol in s.local.items && KeyOf(s.local.items[symbol]) == k;
      var i :| 0 <= i < |s.local.keys| && s.local.keys[i] == symbol;
      assert values[i] == s.local.items[symbol];
    }
    forall k | k in sent
      ensures k in LocalKeys(s.local)
    {
      var i :| 0 <= i < |values| && KeyOf(values[i]) == k;
      assert s.local.keys[i] in s.local.items;
    }
  }

  lemma SubscribeTracks(s: State, symbol: string, subscription: Subscription)
    requires s.local.Valid() && Tracks(s) && Subscribed(s, symbol, subscription).Ok?
    ensures Tracks(Subscribed(s, symbol, subscription).value)
  {
    var after := Subscribed(s, symbol, subscription).value;
    if Live(s) && symbol !in s.local.items {
      assert Wire(after) == Wire(s) + [Subscribe(subscription)];
      SentAllLast(s.server, Wire(s), Subscribe(subscription));
      KeysAfterSet(s.local, symbol, subscription);
    }
  }

  lemma WireGrows(s: State, symbol: string)
    requires s.local.Valid() && Live(s) && Live(Unsubscribed(s, symbol)) && symbol in s.local.items
    ensures Wire(Unsubscribed(s, symbol)) == Wire(s) + [Unsubscribe(s.local.items[symbol])]
  {
  }

  /** Unsubscribing keeps the server on track exactly when no other symbol uses the same key. */
  lemma UnsubscribeTracks(s: State, symbol: string)
    requires s.local.Valid() && Tracks(s) && Live(s) && Live(Unsubscribed(s, symbol))
    ensures Tracks(Unsubscribed(s, symbol)) <==> !SharesKey(s.local, symbol)
  {
    hide Wire, SentAll, LocalKeys;
    var after := Unsubscribed(s, symbol);
    if symbol in s.local.items {
      WireGrows(s, symbol);
      SentAllLast(s.server, Wire(s), Unsubscribe(s.local.items[symbol]));
      KeysAfterPop(s.local, symbol);
    } else {
      assert after == s || after.local.keys == [];
    }
  }

  lemma SendingTracks(s: State, step: Step)
    requires s.local.Valid() && Tracks(s)
    requires step.SendSnapshot? || step.StartServing? || step.TakeAction? || step.SendAction?
    ensures Tracks(Next(s, step))
  {
    var after := Next(s, step);
    if after != s {
      match step
      case SendSnapshot =>
        assert SubscribeAll(s.phase.unsent)[1..] == SubscribeAll(s.phase.unsent[1..]);
        assert Wire(s)[1..] == Wire(after);
      case StartServing => assert SubscribeAll([]) + s.actions == s.actions;
      case TakeAction => assert Wire(s) == Wire(after);
      case SendAction => assert Wire(s)[1..] == Wire(after);
    }
  }

  /** A step keeps the connection on track exactly when it does not pop a symbol whose key is shared. */
  lemma StepTracksExactly(s: State, step: Step)
    requires s.local.Valid() && Tracks(s)
    ensures Tracks(Next(s, step)) <==>
            !(step.UnsubscribeCall? && Live(s) && Live(Next(s, step)) && SharesKey(s.local, step.symbol))
  {
    match step
    case SubscribeDone(symbol, stock) =>
      if Resolve(stock).Ok? && Subscribed(s, symbol, Resolve(stock).value).Ok? {
        SubscribeTracks(s, symbol, Resolve(stock).value);
      }
    case UnsubscribeCall(symbol) =>
      if Live(s) && Live(Next(s, step)) {
        UnsubscribeTracks(s, symbol);
      }
    case Connect =>
      if s.phase.Idle? {
        ConnectTracks(s);
      }
    case Fail =>
    case CleanUp =>
    case _ => SendingTracks(s, step);
  }

  // ----- whole runs against a resolver that answers for the symbol it was asked -----

  /** The run on which that happens: one stock under two symbols, and one of the two let go. */
  function SharingRun(stock: StockInfo, kept: string, dropped: string): seq<Step> {
    [SubscribeDone(kept, stock), SubscribeDone(dropped, stock), Connect, UnsubscribeCall(dropped)]
  }

  lemma RunNext(s: State, steps: seq<Step>, step: Step)
    requires s.local.Valid()
    ensures Run(s, steps + [step]) == Next(Run(s, steps), step)
  {
    hide Next;
    assert (steps + [step])[..|steps|] == steps;
  }

  lemma FourSteps(s: State, a: Step, b: Step, c: Step, d: Step)
    requires s.local.Valid()
    ensures Run(s, [a, b, c, d]) == Next(Next(Next(Next(s, a), b), c), d)
  {
    hide Next;
    RunNext(s, [], a);
    RunNext(s, [a], b);
    RunNext(s, [a, b], c);
    RunNext(s, [a, b, c], d);
    assert [] + [a] == [a] && [a] + [b] == [a, b] && [a, b] + [c] == [a, b, c] && [a, b, c] + [d] == [a, b, c, d];
  }

  /** The kept symbol stays subscribed locally, and the server is told to stop its feed. */
  lemma SharedKeyLosesFeed(stock: StockInfo, kept: string, dropped: string)
    requires Resolve(stock).Ok? && kept != dropped
    ensures var s := Run(Initial(), SharingRun(stock, kept, dropped));
            Live(s) && kept in s.local.items && KeyOf(s.local.items[kept]) !in SentAll(s.server, Wire(s))
  {
    hide Resolve, SentAll, Run, Wire;
    var steps := SharingRun(stock, kept, dropped);
    var subscription := Resolve(stock).value;
    FourSteps(Initial(), steps[0], steps[1], steps[2], steps[3]);
    var first := Next(Initial(), steps[0]);
    assert first.local.items == map[kept := subscription];
    var second := Next(first, steps[1]);
    assert second.local.items == map[kept := subscription, dropped := subscription];
    var before := Next(second, Connect);
    var after := Unsubscribed(before, dropped);
    assert kept in after.local.items && kept in after.local.keys;
    WireGrows(before, dropped);
    SentAllLast(before.server, Wire(before), Unsubscribe(subscription));
  }

  /** The resolver returns the stock of the requested (upper-case) symbol. */
  predicate Faithful(step: Step) {
    step.SubscribeDone? ==> Upper(step.stock.symbol) == step.symbol
  }

  ghost predicate Resolved(subscription: Subscription) {
    exists stock :: Resolve(stock) == Ok(subscription)
  }

  ghost predicate Invariant(s: State) {
    && s.local.Valid()
    && Tracks(s)
    && (s.hasSubscriptions <==> s.local.keys != [])
    && |s.local.keys| <= MAX_SUBSCRIPTIONS
    && (forall symbol :: symbol in s.local.items ==>
          s.local.items[symbol].symbol == symbol && Resolved(s.local.items[symbol]))
  }

  lemma NoSharedKeys(s: State, symbol: string)
    requires Invariant(s)
    ensures !SharesKey(s.local, symbol)
  {
    if SharesKey(s.local, symbol) {
      var other :| other in s.local.items && other != symbol
        && KeyOf(s.local.items[other]) == KeyOf(s.local.items[symbol]);
      var a :| Resolve(a) == Ok(s.local.items[symbol]);
      var b :| Resolve(b) == Ok(s.local.items[other]);
      ResolveInjective(a, b);
    }
  }

  lemma ResolvedSymbol(stock: StockInfo)
    ensures Resolve(stock).Ok? ==> Resolve(stock).value.symbol == Upper(stock.symbol)
  {
  }

  lemma PopShrinks(local: Dict<string, Subscription>, symbol: string)
    requires local.Valid()
    ensures |local.Pop(symbol).keys| <= |local.keys|
    ensures symbol !in local.items ==> local.Pop(symbol).keys == local.keys
  {
  }

  lemma StepKeepsInvariant(s: State, step: Step)
    requires Invariant(s) && Faithful(step)
    ensures Invariant(Next(s, step))
  {
    hide Tracks, Resolve, LocalKeys, SentAll, Upper, SharesKey, Sent, KeyOf, Wire, SubscribeAll, Distinct;
    StepTracksExactly(s, step);
    if step.UnsubscribeCall? {
      NoSharedKeys(s, step.symbol);
      PopShrinks(s.local, step.symbol);
    }
    if step.SubscribeDone? && Resolve(step.stock).Ok? {
      ResolvedSymbol(step.stock);
      assert Resolved(Resolve(step.stock).value);
    }
  }

  lemma InitialInvariant()
    ensures Invariant(Initial())
  {
  }

  /** Every interleaving of subscribes, unsubscribes, sends, failures and reconnects keeps the invariant. */
  lemma {:induction false} RunKeepsInvariant(steps: seq<Step>)
    requires forall i :: 0 <= i < |steps| ==> Faithful(steps[i])
    ensures Invariant(Run(Initial(), steps))
  {
    hide Next, Tracks;
    if steps == [] {
      InitialInvariant();
    } else {
      RunKeepsInvariant(steps[..|steps| - 1]);
      StepKeepsInvariant(Run(Initial(), steps[..|steps| - 1]), steps[|steps| - 1]);
    }
  }

  /** So whenever nothing is left to send, the server has exactly the local subscriptions. */
  lemma DrainedMeansEqual(steps: seq<Step>)
    requires forall i :: 0 <= i < |steps| ==> Faithful(steps[i])
    ensures var s := Run(Initial(), steps);
            Live(s) && Wire(s) == [] ==> s.server == LocalKeys(s.local)
  {
    hide Next, Run;
    RunKeepsInvariant(steps);
  }

  // ----- and the loop's own steps do drain it -----

  function Work(s: State): nat {
    match s.phase
    case Snapshot(unsent) => |unsent| + 1 + 2 * |s.actions|
    case Serving(None) => 2 * |s.actions|
    case Serving(Some(_)) => 2 * |s.actions| + 1
    case _ => 0
  }

  /** What the run loop does on a quiet, healthy connection. */
  function LoopSteps(s: State): seq<Step>
    requires s.local.Valid()
    decreases Work(s)
  {
    match s.phase
    case Snapshot(unsent) =>
      if unsent == [] then [StartServing] + LoopSteps(Next(s, StartServing))
      else [SendSnapshot] + LoopSteps(Next(s, SendSnapshot))
    case Serving(None) => if s.actions == [] then [] else [TakeAction] + LoopSteps(Next(s, TakeAction))
    case Serving(Some(_)) => [SendAction] + LoopSteps(Next(s, SendAction))
    case _ => []
  }

  lemma {:induction false} RunCons(s: State, step: Step, rest: seq<Step>)
    requires s.local.Valid()
    ensures Run(s, [step] + rest) == Run(Next(s, step), rest)
    decreases |rest|
  {
    hide Next;
    var all := [step] + rest;
    if rest == [] {
      assert all[..0] == [] && all[0] == step;
      assert Run(s, all[..0]) == s;
    } else {
      assert all[..|all| - 1] == [step] + rest[..|rest| - 1];
      RunCons(s, step, rest[..|rest| - 1]);
    }
  }

  /** On a live connection the loop brings the server to the local subscriptions in Work(s) steps. */
  lemma {:induction false} LoopConverges(s: State)
    requires s.local.Valid() && Tracks(s) && Live(s)
    ensures var t := Run(s, LoopSteps(s));
            Live(t) && Wire(t) == [] && t.local == s.local && t.server == LocalKeys(s.local)
    ensures |LoopSteps(s)| == Work(s)
    decreases Work(s)
  {
    if LoopSteps(s) == [] {
      assert s.phase == Serving(None) && s.actions == [];
      assert Run(s, []) == s;
    } else {
      var step := LoopSteps(s)[0];
      SendingTracks(s, step);
      LoopConverges(Next(s, step));
      RunCons(s, step, LoopSteps(Next(s, step)));
    }
  }

  // ----- the object -----

  class KISStreamingQuoteSource {
    var subscriptions: Dict<string, Subscription>
    var actions: seq<Action>
    var hasSubscriptions: bool
    var connected: bool
    /** The run loop's place and local variables. */
    var phase: Phase
    /** The subscriptions the server holds for the current connection. */
    ghost var server: set<Key>

    ghost predicate Valid()
      reads this
    {
      subscriptions.Valid() && (connected <==> !phase.Idle?)
    }

    ghost function Model(): State
      reads this
    {
      State(subscriptions, actions, hasSubscriptions, phase, server)
    }

    constructor ()
      ensures Valid() && Model() == Initial()
    {
      subscriptions, actions, hasSubscriptions, connected, phase := Empty(), [], false, false, Idle;
      server := {};
    }

    method SubscribeResolved(symbol: string, stock: StockInfo) returns (r: Result<(), SubscribeError>)
      requires Valid()
      modifies this
      ensures Valid() && Model() == Next(old(Model()), SubscribeDone(symbol, stock))
      ensures r.Err? ==> Model() == old(Model())
      ensures r == Err(SubscriptionLimit) <==>
              Resolve(stock).Ok? && symbol !in old(subscriptions.items)
                && |old(subscriptions.keys)| >= MAX_SUBSCRIPTIONS
    {
      var subscription :- Resolve(stock);
      if symbol in subscriptions.items {
        return Ok(());
      }
      if |subscriptions.keys| >= MAX_SUBSCRIPTIONS {
        return Err(SubscriptionLimit);
      }
      subscriptions := subscriptions.Set(symbol, subscription);
      hasSubscriptions := true;
      if connected {
        actions := actions + [Subscribe(subscription)];
      }
      r := Ok(());
    }

    method UnsubscribeSymbol(symbol: string)
      requires Valid()
      modifies this
      ensures Valid() && Model() == Next(old(Model()), UnsubscribeCall(symbol))
    {
      var subscription := if symbol in subscriptions.items then Some(subscriptions.items[symbol]) else None;
      subscriptions := subscriptions.Pop(symbol);
      var empty := subscriptions.keys == [];
      if empty {
        hasSubscriptions := false;
      }
      if subscription.Some? && connected {
        actions := actions + [Unsubscribe(subscription.value)];
      }
      if empty && connected {
        phase := Broken;
      }
    }

    /** A new connection: the snapshot is taken and the queue drained without a suspension between. */
    method OnConnected()
      requires Valid() && phase.Idle?
      modifies this
      ensures Valid() && Model() == Next(old(Model()), Connect)
    {
      connected := true;
      phase := Snapshot(subscriptions.Values());
      server := {};
      DrainActions();
    }

    method DrainActions()
      modifies this`actions
      ensures actions == []
    {
      while actions != []
        decreases |actions|
      {
        actions := actions[1..];
      }
    }

    method SendNextOfSnapshot()
      requires Valid() && phase.Snapshot? && phase.unsent != []
      modifies this
      ensures Valid() && Model() == Next(old(Model()), SendSnapshot)
    {
      server := Sent(server, Subscribe(phase.unsent[0]));
      phase := Snapshot(phase.unsent[1..]);
    }

    method BeginServing()
      requires Valid() && phase == Snapshot([])
      modifies this
      ensures Valid() && Model() == Next(old(Model()), StartServing)
    {
      phase := Serving(None);
    }

    method TakeQueuedAction()
      requires Valid() && phase == Serving(None) && actions != []
      modifies this
      ensures Valid() && Model() == Next(old(Model()), TakeAction)
    {
      phase := Serving(Some(actions[0]));
      actions := actions[1..];
    }

    method SendTakenAction()
      requires Valid() && phase.Serving? && phase.inFlight.Some?
      modifies this
      ensures Valid() && Model() == Next(old(Model()), SendAction)
    {
      server := Sent(server, phase.inFlight.value);
      phase := Serving(None);
    }

    method OnConnectionLost()
      requires Valid() && Live(Model())
      modifies this
      ensures Valid() && Model() == Next(old(Model()), Fail)
    {
      phase := Broken;
    }

    /** The finally clause, after the backoff. */
    method PutConnectionAway()
      requires Valid() && phase.Broken?
      modifies this
      ensures Valid() && Model() == Next(old(Model()), CleanUp)
    {
      connected := false;
      phase := Idle;
    }
  }
}
