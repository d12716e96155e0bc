/** The in-process sliding-window limiter (backend/app/core/rate_limit.py). */
module RateLimit {
  import opened Core
  import opened OrderedDicts

  const SWEEP_EVERY := 256

  type Requests = seq<real>
  type Table = Dict<string, Requests>

  /** A call's answer: allowed, calls left, seconds to wait. */
  datatype Decision = Decision(allowed: bool, remaining: int, retryAfter: int)

  /** _prune: requests leave from the front while they are not newer than the cutoff. */
  function Pruned(requests: Requests, cutoff: real): (r: Requests)
    ensures forall t :: t in r ==> t in requests
    ensures r != [] ==> r[0] > cutoff
  {
    if requests != [] && requests[0] <= cutoff then Pruned(requests[1..], cutoff) else requests
  }

  function LiveKeys(keys: seq<string>, items: map<string, Requests>, cutoff: real): (r: seq<string>)
    requires forall k :: k in keys ==> k in items
    ensures forall k :: k in r <==> k in keys && Pruned(items[k], cutoff) != []
    ensures Distinct(keys) ==> Distinct(r)
    ensures |r| <= |keys|
  {
    if keys == [] then []
    else
      var rest := LiveKeys(keys[1..], items, cutoff);
      assert Distinct(keys) ==> keys[0] !in rest by {
        assert forall k :: k in rest ==> k in keys[1..];
      }
      if Pruned(items[keys[0]], cutoff) != [] then [keys[0]] + rest else rest
  }

  /** _sweep: every key is pruned with the caller's cutoff, and emptied keys go. */
  function Swept(table: Table, cutoff: real): (r: Table)
    requires table.Valid()
    ensures r.Valid() && |r.keys| <= |table.keys|
    ensures forall k :: k in r.items <==> k in table.items && Pruned(table.items[k], cutoff) != []
    ensures forall k :: k in r.items ==> r.items[k] == Pruned(table.items[k], cutoff)
  {
    Dict(LiveKeys(table.keys, table.items, cutoff),
         map k | k in table.items && Pruned(table.items[k], cutoff) != [] :: Pruned(table.items[k], cutoff))
  }

  /** int(x): truncation toward zero. */
  function Truncated(x: real): int {
    if x >= 0.0 then x.Floor else -(-x).Floor
  }

  function RetryAfter(window: int, now: real, oldest: real): int {
    Max(1, Truncated(window as real - (now - oldest)) + 1)
  }

  datatype State = State(table: Table, operations: nat)

  function Initial(): State {
    State(Empty(), 0)
  }

  /** The table once the key has its place at the end; a new key may push the oldest one out. */
  function Placed(table: Table, maxKeys: nat, key: string): (r: Table)
    requires table.Valid() && maxKeys >= 1
    ensures r.Valid() && key in r.items
  {
    if key in table.items then table.MoveToEnd(key)
    else (if |table.keys| >= maxKeys then table.Pop(table.keys[0]) else table).Set(key, [])
  }

  function AfterSweep(s: State, window: int, now: real): (r: Table)
    requires s.table.Valid()
    ensures r.Valid() && |r.keys| <= |s.table.keys|
  {
    if (s.operations + 1) % SWEEP_EVERY == 0 then Swept(s.table, now - window as real) else s.table
  }

  function Consumed(s: State, maxKeys: nat, key: string, limit: int, window: int, now: real): (r: (State, Decision))
    requires s.table.Valid() && maxKeys >= 1 && limit >= 1 && window >= 1
    ensures r.0.table.Valid()
  {
    var table := Placed(AfterSweep(s, window, now), maxKeys, key);
    var requests := Pruned(table.items[key], now - window as real);
    if |requests| >= limit then
      (State(table.Set(key, requests), s.operations + 1), Decision(false, 0, RetryAfter(window, now, requests[0])))
    else
      (State(table.Set(key, requests + [now]), s.operations + 1), Decision(true, Max(0, limit - (|requests| + 1)), 0))
  }

  function Peeked(s: State, key: string, limit: int, window: int, now: real): (r: (State, bool))
    requires s.table.Valid()
    ensures r.0.table.Valid()
  {
    if key !in s.table.items then (s, false)
    else
      var requests := Pruned(s.table.items[key], now - window as real);
      if requests == [] then (s.(table := s.table.Pop(key)), false)
      else (s.(table := s.table.Set(key, requests).MoveToEnd(key)), |requests| >= limit)
  }

  // ----- what the methods rely on -----

  datatype LimiterError = NotPositive

  /** The first i keys have been pruned, and those left with something are kept in order. */
  ghost predicate SweptSoFar(before: Table, cutoff: real, i: nat, kept: Table)
    requires before.Valid() && i <= |before.keys|
  {
    && kept.keys == LiveKeys(before.keys[..i], before.items, cutoff)
    && (forall k :: k in kept.items <==> k in kept.keys)
    && forall k :: k in kept.items ==> k in before.items && kept.items[k] == Pruned(before.items[k], cutoff)
  }

  lemma NothingSwept(before: Table, cutoff: real)
    requires before.Valid()
    ensures SweptSoFar(before, cutoff, 0, Empty())
  {
  }

  lemma NoLiveKeys(items: map<string, Requests>, cutoff: real)
    ensures LiveKeys([], items, cutoff) == []
  {
  }

  lemma {:induction false} LiveKeysAppend(init: seq<string>, key: string, items: map<string, Requests>, cutoff: real)
    requires forall k :: k in init + [key] ==> k in items
    ensures LiveKeys(init + [key], items, cutoff) ==
            if Pruned(items[key], cutoff) != [] then LiveKeys(init, items, cutoff) + [key]
              else LiveKeys(init, items, cutoff)
  {
    hide Pruned, Distinct;
    if init == [] {
      assert ([] + [key])[1..] == [];
      NoLiveKeys(items, cutoff);
    } else {
      assert (init + [key])[1..] == init[1..] + [key];
      LiveKeysAppend(init[1..], key, items, cutoff);
    }
  }

  lemma SweptNext(before: Table, cutoff: real, i: nat, kept: Table)
    requires before.Valid() && i < |before.keys| && kept.Valid() && SweptSoFar(before, cutoff, i, kept)
    ensures var key := before.keys[i];
            var pruned := Pruned(before.items[key], cutoff);
            SweptSoFar(before, cutoff, i + 1, if pruned != [] then kept.Set(key, pruned) else kept)
  {
    hide Pruned, LiveKeys;
    var init, key := before.keys[..i], before.keys[i];
    assert before.keys[..i + 1] == init + [key];
    LiveKeysAppend(init, key, before.items, cutoff);
    assert key !in init;
  }

  lemma AllSwept(before: Table, cutoff: real, kept: Table)
    requires before.Valid() && kept.Valid() && SweptSoFar(before, cutoff, |before.keys|, kept)
    ensures kept == Swept(before, cutoff) && |kept.keys| <= |before.keys|
  {
    hide Pruned, LiveKeys;
    assert before.keys[..|before.keys|] == before.keys;
    assert kept.items == Swept(before, cutoff).items;
  }

  lemma PopFits(table: Table, key: string)
    requires table.Valid()
    ensures |table.Pop(key).keys| == if key in table.items then |table.keys| - 1 else |table.keys|
  {
  }

  lemma SetFits(table: Table, key: string, requests: Requests)
    requires table.Valid() && key in table.items
    ensures |table.Set(key, requests).keys| == |table.keys|
  {
  }

  lemma MoveFits(table: Table, key: string)
    requires table.Valid() && key in table.items
    ensures |table.MoveToEnd(key).keys| == |table.keys|
  {
  }

  lemma PlacedFits(table: Table, maxKeys: nat, key: string)
    requires table.Valid() && 1 <= maxKeys && |table.keys| <= maxKeys
    ensures |Placed(table, maxKeys, key).keys| <= maxKeys
  {
    if key in table.items {
      MoveFits(table, key);
    } else if |table.keys| >= maxKeys {
      PopFits(table, table.keys[0]);
    }
  }

  // ----- the object -----

  class SlidingWindowLimiter {
    var requests: Table
    var operations: nat
    const maxKeys: nat

    ghost predicate Valid()
      reads this
    {
      requests.Valid() && maxKeys >= 1 && |requests.keys| <= maxKeys
    }

    ghost function Model(): State
      reads this
    {
      State(requests, operations)
    }

    constructor (maxKeys: nat)
      requires maxKeys >= 1
      ensures Valid() && Model() == Initial() && this.maxKeys == maxKeys
    {
      requests, operations, this.maxKeys := Empty(), 0, maxKeys;
    }

    static method Prune(requests: Requests, cutoff: real) returns (r: Requests)
      ensures r == Pruned(requests, cutoff)
    {
      r := requests;
      while r != [] && r[0] <= cutoff
        invariant Pruned(r, cutoff) == Pruned(requests, cutoff)
        decreases |r|
      {
        r := r[1..];
      }
    }

    method Sweep(cutoff: real)
      requires Valid()
      modifies this`requests
      ensures Valid() && requests == Swept(old(requests), cutoff)
    {
      hide Pruned, Swept, SweptSoFar, Dict.Set;
      var before := requests;
      var kept: Table := Empty();
      NothingSwept(before, cutoff);
      var i := 0;
      while i < |before.keys|
        invariant 0 <= i <= |before.keys| && kept.Valid()
        invariant SweptSoFar(before, cutoff, i, kept)
      {
        var key := before.keys[i];
        assert key in before.keys;
        var pruned := Prune(before.items[key], cutoff);
        SweptNext(before, cutoff, i, kept);
        if pruned != [] {
          kept := kept.Set(key, pruned);
        }
        i := i + 1;
      }
      AllSwept(before, cutoff, kept);
      requests := kept;
    }

    method Consume(key: string, limit: int, window: int, now: real) returns (r: Result<Decision, LimiterError>)
      requires Valid()
      modifies this
      ensures Valid()
      ensures r.Err? <==> limit < 1 || window < 1
      ensures r.Err? ==> Model() == old(Model())
      ensures r.Ok? ==> (Model(), r.value) == Consumed(old(Model()), maxKeys, key, limit, window, now)
    {
      hide Dict.Valid, Dict.Set, Dict.Pop, Dict.MoveToEnd, Pruned, Swept, RetryAfter;
      if limit < 1 || window < 1 {
        return Err(NotPositive);
      }
      operations := operations + 1;
      if operations % SWEEP_EVERY == 0 {
        Sweep(now - window as real);
      }
      assert requests == AfterSweep(old(Model()), window, now);
      ghost var swept := requests;
      if key !in requests.items {
        if |requests.keys| >= maxKeys {
          requests := requests.Pop(requests.keys[0]);
        }
        requests := requests.Set(key, []);
      } else {
        requests := requests.MoveToEnd(key);
      }
      assert requests == Placed(swept, maxKeys, key);
      PlacedFits(swept, maxKeys, key);
      var pruned := Prune(requests.items[key], now - window as real);
      SetFits(requests, key, pruned);
      SetFits(requests, key, pruned + [now]);
      if |pruned| >= limit {
        requests := requests.Set(key, pruned);
        return Ok(Decision(false, 0, RetryAfter(window, now, pruned[0])));
      }
      requests := requests.Set(key, pruned + [now]);
      r := Ok(Decision(true, Max(0, limit - (|pruned| + 1)), 0));
    }

    method IsLimited(key: string, limit: int, window: int, now: real) returns (limited: bool)
      requires Valid()
      modifies this
      ensures Valid()
      ensures (Model(), limited) == Peeked(old(Model()), key, limit, window, now)
    {
      hide Dict.Valid, Dict.Set, Dict.Pop, Dict.MoveToEnd, Pruned;
      if key !in requests.items {
        return false;
      }
      var pruned := Prune(requests.items[key], now - window as real);
      if pruned == [] {
        PopFits(requests, key);
        requests := requests.Pop(key);
        return false;
      }
      SetFits(requests, key, pruned);
      MoveFits(requests.Set(key, pruned), key);
      requests := requests.Set(key, pruned);
      requests := requests.MoveToEnd(key);
      limited := |pruned| >= limit;
    }

    method Clear(key: Option<string>)
      requires Valid()
      modifies this
      ensures Valid() && operations == old(operations)
      ensures requests == if key.None? then Empty() else old(requests).Pop(key.value)
    {
      if key.None? {
        requests := Empty();
      } else {
        PopFits(requests, key.value);
        requests := requests.Pop(key.value);
      }
    }
  }
}
