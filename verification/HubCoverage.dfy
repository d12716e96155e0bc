/**
 * When every listening stream has its symbol subscribed upstream, or on its way there: what the
 * hub does not keep by itself (backend/app/realtime/hub.py).
 */
module HubCoverage {
  import opened Core
  import opened OrderedDicts
  import Kis = KisSource
  import opened QuoteHub

  /** Some stream is still subscribing to the symbol. */
  ghost predicate OnItsWay(s: System, symbol: string) {
    exists id :: id in s.streams && s.streams[id] == Subscribing(symbol)
  }

  ghost predicate CoveredAt(s: System, symbol: string) {
    symbol in s.kis.local.items || OnItsWay(s, symbol)
  }

  ghost predicate Covered(s: System) {
    forall id :: id in s.streams && s.streams[id].Listening? ==> CoveredAt(s, s.streams[id].symbol)
  }

  /** A symbol being subscribed is not upstream yet, and one stream only is doing it. */
  ghost predicate PendingAt(s: System, id: nat)
    requires id in s.streams
  {
    s.streams[id].Subscribing? ==>
      && s.streams[id].symbol !in s.kis.local.items
      && forall other :: other in s.streams && s.streams[other] == s.streams[id] ==> other == id
  }

  ghost predicate Pending(s: System) {
    forall id :: id in s.streams ==> PendingAt(s, id)
  }

  ghost predicate Held(s: System, id: nat)
    requires id in s.streams
  {
    exists other :: other in s.streams && other != id && s.streams[other].symbol == s.streams[id].symbol
  }

  /** The one stream that is subscribing to a symbol goes away while another stream has the symbol. */
  ghost predicate Abandons(s: System, move: Move)
    requires WellFormed(s)
  {
    match move
    case Answered(id, stock) =>
      id in s.streams && s.streams[id].Subscribing? && SubscribeAnswer(s, id, stock).Err? && Held(s, id)
    case Close(id) => id in s.streams && s.streams[id].Subscribing? && Held(s, id)
    case _ => false
  }

  // ----- what the counts say about the streams -----

  lemma NoneOrSome(s: System, limits: Limits, symbol: string)
    requires Balanced(s, limits)
    ensures symbol in s.counts.items <==> exists id :: id in s.streams && s.streams[id].symbol == symbol
    ensures symbol in s.kis.local.items ==> symbol in s.counts.items
  {
    hide Total;
    assert CountAt(s.counts, symbol) == |StreamsOf(s.streams, symbol)|;
    if id :| id in s.streams && s.streams[id].symbol == symbol {
      assert id in StreamsOf(s.streams, symbol);
    }
    if symbol in s.counts.items {
      assert StreamsOf(s.streams, symbol) != {};
      var id :| id in StreamsOf(s.streams, symbol);
    }
  }

  /** The closing stream is its symbol's last one exactly when no other stream has the symbol. */
  lemma LastExactlyWhenAlone(s: System, limits: Limits, id: nat)
    requires Balanced(s, limits) && id in s.streams
    ensures Unregistered(s.counts, s.streams[id].symbol).1 <==> !Held(s, id)
  {
    hide Total;
    var symbol := s.streams[id].symbol;
    var all := StreamsOf(s.streams, symbol);
    assert CountAt(s.counts, symbol) == |all| && id in all;
    assert |all - {id}| == |all| - 1;
    if other :| other in s.streams && other != id && s.streams[other].symbol == symbol {
      assert other in all - {id};
    }
    if |all - {id}| > 0 {
      var other :| other in all - {id};
    }
  }

  lemma LocalAfterClose(s: System, limits: Limits, id: nat)
    requires Balanced(s, limits) && id in s.streams
    ensures var symbol := s.streams[id].symbol;
            Closed(s, id).kis.local.items == if Held(s, id) then s.kis.local.items else s.kis.local.items - {symbol}
  {
    LastExactlyWhenAlone(s, limits, id);
  }

  // ----- one step -----

  lemma ClosedPending(s: System, limits: Limits, id: nat)
    requires Balanced(s, limits) && Pending(s) && id in s.streams
    ensures Pending(Closed(s, id))
  {
    WithinSymbols(s, limits);
    hide Balanced, Unregistered, Held;
    LocalAfterClose(s, limits, id);
    var after := Closed(s, id);
    forall other | other in after.streams
      ensures PendingAt(after, other)
    {
      assert PendingAt(s, other);
    }
  }

  lemma StaysCovered(s: System, limits: Limits, id: nat, other: nat)
    requires Balanced(s, limits) && Covered(s) && id in s.streams
    requires other in s.streams && other != id && s.streams[other].Listening?
    requires !(s.streams[id].Subscribing? && Held(s, id))
    ensures CoveredAt(Closed(s, id), s.streams[other].symbol)
  {
    WithinSymbols(s, limits);
    hide Balanced, Unregistered;
    LocalAfterClose(s, limits, id);
    var symbol := s.streams[other].symbol;
    assert CoveredAt(s, symbol);
    assert symbol == s.streams[id].symbol ==> Held(s, id);
    if symbol !in s.kis.local.items {
      var one :| one in s.streams && s.streams[one] == Subscribing(symbol);
      assert one in Closed(s, id).streams;
    }
  }

  /** Closing uncovers a stream exactly when it abandons one. */
  lemma ClosedCovered(s: System, limits: Limits, id: nat)
    requires Balanced(s, limits) && Covered(s) && Pending(s) && id in s.streams
    ensures Covered(Closed(s, id)) <==> !(s.streams[id].Subscribing? && Held(s, id))
  {
    WithinSymbols(s, limits);
    hide Balanced, Unregistered;
    LocalAfterClose(s, limits, id);
    var symbol, after := s.streams[id].symbol, Closed(s, id);
    assert PendingAt(s, id);
    if s.streams[id].Subscribing? && Held(s, id) {
      var other :| other in s.streams && other != id && s.streams[other].symbol == symbol;
      assert PendingAt(s, other) && after.streams[other] == s.streams[other] == Listening(symbol);
      assert !CoveredAt(after, symbol);
    } else {
      forall other | other in after.streams && after.streams[other].Listening?
        ensures CoveredAt(after, after.streams[other].symbol)
      {
        StaysCovered(s, limits, id, other);
      }
    }
  }

  lemma KeptCovered(s: System, after: System, symbol: string)
    requires after.kis.local.items.Keys >= s.kis.local.items.Keys
    requires forall id :: id in s.streams ==> id in after.streams && after.streams[id] == s.streams[id]
    ensures CoveredAt(s, symbol) ==> CoveredAt(after, symbol)
    ensures OnItsWay(s, symbol) ==> OnItsWay(after, symbol)
  {
  }

  lemma OpenCovered(s: System, id: nat, symbol: string, limits: Limits)
    requires Balanced(s, limits) && Covered(s) && Pending(s)
    ensures Pending(Next(s, Open(id, symbol), limits)) && Covered(Next(s, Open(id, symbol), limits))
  {
    var after := Next(s, Open(id, symbol), limits);
    WithinSymbols(s, limits);
    NoneOrSome(s, limits, symbol);
    hide Balanced, Total;
    if id !in s.streams && Registered(s.counts, symbol, limits).Ok? {
      forall other | other in after.streams
        ensures PendingAt(after, other)
        ensures after.streams[other].Listening? ==> CoveredAt(after, after.streams[other].symbol)
      {
        if other == id {
          if symbol in s.counts.items {
            var one :| one in s.streams && s.streams[one].symbol == symbol;
            assert s.streams[one].Listening? ==> CoveredAt(s, symbol);
            KeptCovered(s, after, symbol);
          }
        } else {
          assert PendingAt(s, other);
          KeptCovered(s, after, s.streams[other].symbol);
        }
      }
    }
  }

  lemma AcceptedCovered(s: System, id: nat, stock: Option<Kis.StockInfo>, limits: Limits)
    requires WellFormed(s) && Covered(s) && Pending(s)
    requires id in s.streams && s.streams[id].Subscribing? && SubscribeAnswer(s, id, stock).Ok?
    ensures Pending(Next(s, Answered(id, stock), limits)) && Covered(Next(s, Answered(id, stock), limits))
  {
    hide Kis.Resolve;
    var symbol, after := s.streams[id].symbol, Next(s, Answered(id, stock), limits);
    assert PendingAt(s, id);
    assert after.kis.local.items.Keys == s.kis.local.items.Keys + {symbol};
    forall other | other in after.streams
      ensures PendingAt(after, other)
      ensures after.streams[other].Listening? ==> CoveredAt(after, after.streams[other].symbol)
    {
      assert PendingAt(s, other);
      if other != id && s.streams[other].Listening? && s.streams[other].symbol !in after.kis.local.items {
        assert CoveredAt(s, s.streams[other].symbol);
        var one :| one in s.streams && s.streams[one] == Subscribing(s.streams[other].symbol);
        assert after.streams[one] == s.streams[one];
      }
    }
  }

  lemma SourceKeeps(s: System, step: Kis.Step, limits: Limits)
    requires WellFormed(s)
    ensures var after := Next(s, Source(step), limits);
            after.streams == s.streams && after.kis.local == s.kis.local
  {
  }

  lemma SameCoverage(s: System, after: System)
    requires after.streams == s.streams && after.kis.local == s.kis.local
    ensures Covered(after) <==> Covered(s)
    ensures Pending(after) <==> Pending(s)
  {
    if Covered(s) {
      forall id | id in after.streams && after.streams[id].Listening?
        ensures CoveredAt(after, after.streams[id].symbol)
      {
        assert CoveredAt(s, s.streams[id].symbol);
      }
    }
    if Covered(after) {
      forall id | id in s.streams && s.streams[id].Listening?
        ensures CoveredAt(s, s.streams[id].symbol)
      {
        assert CoveredAt(after, after.streams[id].symbol);
      }
    }
    assert forall id :: id in s.streams ==> (PendingAt(s, id) <==> PendingAt(after, id));
  }

  /** A step leaves every listening stream covered exactly when it does not abandon one. */
  lemma StepCoversExactly(s: System, move: Move, limits: Limits)
    requires Balanced(s, limits) && Covered(s) && Pending(s)
    ensures Pending(Next(s, move, limits))
    ensures Covered(Next(s, move, limits)) <==> !Abandons(s, move)
  {
    WithinSymbols(s, limits);
    hide Balanced, Covered, Pending, Held;
    match move
    case Open(id, symbol) => OpenCovered(s, id, symbol, limits);
    case Answered(id, stock) =>
      if id in s.streams && s.streams[id].Subscribing? {
        if SubscribeAnswer(s, id, stock).Ok? {
          AcceptedCovered(s, id, stock, limits);
        } else {
          ClosedPending(s, limits, id);
          ClosedCovered(s, limits, id);
        }
      }
    case Close(id) =>
      if id in s.streams {
        ClosedPending(s, limits, id);
        ClosedCovered(s, limits, id);
      }
    case Source(step) =>
      SourceKeeps(s, step, limits);
      SameCoverage(s, Next(s, move, limits));
  }

  // ----- whole runs -----

  lemma InitialCovered()
    ensures Covered(Initial()) && Pending(Initial())
  {
  }

  /** No step of the first count ones abandons a stream. */
  ghost predicate NoneAbandoned(moves: seq<Move>, limits: Limits, count: nat)
    requires count <= |moves|
  {
    forall i :: 0 <= i < count ==> !Abandons(Run(moves[..i], limits), moves[i])
  }

  ghost predicate AlwaysCovered(moves: seq<Move>, limits: Limits, count: nat)
    requires count <= |moves|
  {
    forall i :: 0 <= i <= count ==> Covered(Run(moves[..i], limits))
  }

  lemma RunNext(moves: seq<Move>, limits: Limits, i: nat)
    requires i < |moves|
    ensures Run(moves[..i + 1], limits) == Next(Run(moves[..i], limits), moves[i], limits)
  {
    hide Next;
    assert moves[..i + 1][..i] == moves[..i];
  }

  lemma RunOfNone(limits: Limits)
    ensures Run([], limits) == Initial()
  {
  }

  /**
   * Every listening stream stays covered through a run exactly when no stream that is subscribing
   * fails, or is closed, while another one holds its symbol.
   */
  lemma {:induction false} CoveredExactly(moves: seq<Move>, limits: Limits, count: nat)
    requires count <= |moves|
    ensures AlwaysCovered(moves, limits, count) <==> NoneAbandoned(moves, limits, count)
    ensures AlwaysCovered(moves, limits, count) ==> Pending(Run(moves[..count], limits))
  {
    hide Next, Covered, Pending, Abandons, Balanced, Run;
    if count == 0 {
      RunOfNone(limits);
      InitialCovered();
      assert moves[..0] == [];
    } else {
      var i := count - 1;
      CoveredExactly(moves, limits, i);
      RunBalanced(moves[..i], limits);
      RunNext(moves, limits, i);
      if AlwaysCovered(moves, limits, i) {
        StepCoversExactly(Run(moves[..i], limits), moves[i], limits);
      }
      assert AlwaysCovered(moves, limits, count) ==> AlwaysCovered(moves, limits, i);
      assert NoneAbandoned(moves, limits, count) ==> NoneAbandoned(moves, limits, i);
    }
  }

  /** Then, once no stream is subscribing any more, hub and source hold the same symbols. */
  lemma SettledMeansEqual(moves: seq<Move>, limits: Limits)
    requires NoneAbandoned(moves, limits, |moves|)
    requires forall id :: id in Run(moves, limits).streams ==> Run(moves, limits).streams[id].Listening?
    ensures Run(moves, limits).kis.local.items.Keys == Run(moves, limits).counts.items.Keys
  {
    hide Next, Run, Balanced, NoneAbandoned;
    var s := Run(moves, limits);
    CoveredExactly(moves, limits, |moves|);
    assert moves[..|moves|] == moves;
    RunBalanced(moves, limits);
    assert Covered(s);
    forall symbol
      ensures symbol in s.kis.local.items <==> symbol in s.counts.items
    {
      NoneOrSome(s, limits, symbol);
      if symbol in s.counts.items {
        var id :| id in s.streams && s.streams[id].symbol == symbol;
        assert CoveredAt(s, symbol);
      }
    }
  }
}
