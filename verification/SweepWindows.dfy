/**
 * The sweep prunes every key with the calling key's window. It is harmless exactly when all keys
 * share one window.
 */
module SweepWindows {
  import opened Core
  import opened OrderedDicts
  import opened RateLimit
  import opened AdmissionLog
  import opened LimiterRuns

  /** On any orderly run that keeps the key, its call is answered from the full log. */
  ghost predicate Faithful(maxKeys: nat, policy: Policy, ops: seq<Op>, key: string, now: real)
    requires maxKeys >= 1 && policy.Valid()
  {
    Timed(ops) && NotAfter(ops, now) && Kept(maxKeys, policy, ops + [Consume(key, now)], key) ==>
      DecisionAfter(maxKeys, policy, ops, key, now) ==
      Answer(LogOf(policy, ops, key), policy.limit(key), policy.window(key), now, RetryAfter)
  }

  // ----- a run in which a shorter window sweeps a longer one's history away -----

  function Repeated(op: Op, count: nat): seq<Op> {
    seq(count, _ => op)
  }

  function Zeros(count: nat): Requests {
    seq(count, _ => 0.0)
  }

  /** Calls of the long key at time zero: enough to fill its window and to leave the sweep to the next call. */
  function Calls(limit: nat): (r: nat)
    ensures r >= limit && (r + 1) % SWEEP_EVERY == 0
  {
    limit + SWEEP_EVERY - 1 - limit % SWEEP_EVERY
  }

  function LosingRun(policy: Policy, short: string, long: string): seq<Op> {
    Repeated(Consume(long, 0.0), Calls(policy.limit(long))) + [Consume(short, policy.window(short) as real)]
  }

  lemma PrunedZeros(count: nat, cutoff: real)
    ensures cutoff < 0.0 ==> Pruned(Zeros(count), cutoff) == Zeros(count)
  {
  }

  lemma {:induction false} PrunedZerosAway(count: nat)
    ensures Pruned(Zeros(count), 0.0) == []
  {
    if count > 0 {
      assert Zeros(count)[1..] == Zeros(count - 1);
      PrunedZerosAway(count - 1);
    }
  }

  lemma RecentZeros(count: nat, cutoff: real)
    requires cutoff < 0.0
    ensures Recent(Zeros(count), cutoff) == Zeros(count)
  {
    forall t | t in Zeros(count)
      ensures t > cutoff
    {
    }
    RecentAll(Zeros(count), cutoff);
  }

  /** A key's own call never throws its history away. */
  lemma OwnCallKeeps(s: State, maxKeys: nat, policy: Policy, key: string, now: real)
    requires s.table.Valid() && maxKeys >= 1 && policy.Valid()
    ensures !Forgets(s, maxKeys, policy, Consume(key, now), key)
  {
    hide AfterSweep;
  }

  /** Calls at time zero fill the key's window in the log, and then add nothing. */
  lemma {:induction false} LogFilled(policy: Policy, key: string, count: nat)
    requires policy.Valid()
    ensures LogOf(policy, Repeated(Consume(key, 0.0), count), key) == Zeros(Min(count, policy.limit(key)))
  {
    hide Recent;
    var ops := Repeated(Consume(key, 0.0), count);
    if count > 0 {
      assert ops[..|ops| - 1] == Repeated(Consume(key, 0.0), count - 1);
      LogFilled(policy, key, count - 1);
      var admitted := Min(count - 1, policy.limit(key));
      RecentZeros(admitted, 0.0 - policy.window(key) as real);
      assert Zeros(admitted) + [0.0] == Zeros(admitted + 1);
    }
  }

  lemma OneMoreCall(s: State, maxKeys: nat, policy: Policy, key: string, now: real)
    requires s.table.Valid() && maxKeys >= 1 && policy.Valid()
    requires forall k :: k in s.table.keys ==> k == key
    ensures var after := Consumed(s, maxKeys, key, policy.limit(key), policy.window(key), now).0;
            after.operations == s.operations + 1 && forall k :: k in after.table.keys ==> k == key
  {
    hide Pruned, RetryAfter, Swept;
    var swept := AfterSweep(s, policy.window(key), now);
    forall k | k in swept.keys
      ensures k == key
    {
      assert k in swept.items && k in s.table.items && k in s.table.keys;
    }
    ConsumedKeys(s, maxKeys, key, policy.limit(key), policy.window(key), now);
  }

  lemma StartsEmpty(maxKeys: nat, policy: Policy, key: string)
    requires maxKeys >= 1 && policy.Valid()
    ensures var s := Run(maxKeys, policy, []);
            s.operations == 0 && s.table.keys == [] && DequeOf(s.table, key) == Zeros(0)
  {
  }

  lemma OneMoreZero(count: nat)
    ensures Zeros(count) + [0.0] == Zeros(count + 1)
  {
  }

  /** The limiter's deque does the same, while every call counts as an operation. */
  lemma {:induction false} Filled(maxKeys: nat, policy: Policy, key: string, count: nat)
    requires maxKeys >= 1 && policy.Valid()
    ensures var s := Run(maxKeys, policy, Repeated(Consume(key, 0.0), count));
            && s.operations == count
            && (forall k :: k in s.table.keys ==> k == key)
            && DequeOf(s.table, key) == Zeros(Min(count, policy.limit(key)))
  {
    hide Consumed, Pruned, Forgets, AfterSweep, RetryAfter, DequeOf;
    var ops := Repeated(Consume(key, 0.0), count);
    if count == 0 {
      StartsEmpty(maxKeys, policy, key);
    } else {
      hide Zeros;
      var init := Repeated(Consume(key, 0.0), count - 1);
      assert ops[..|ops| - 1] == init;
      Filled(maxKeys, policy, key, count - 1);
      var s := Run(maxKeys, policy, init);
      var admitted := Min(count - 1, policy.limit(key));
      PrunedZeros(admitted, 0.0 - policy.window(key) as real);
      SweepDeque(s, policy.window(key), 0.0, key);
      OwnCallKeeps(s, maxKeys, policy, key, 0.0);
      ConsumedDeque(s, maxKeys, policy, key, 0.0, key);
      OneMoreCall(s, maxKeys, policy, key, 0.0);
      OneMoreZero(admitted);
    }
  }

  lemma CountsCall(s: State, maxKeys: nat, policy: Policy, key: string, now: real)
    requires s.table.Valid() && maxKeys >= 1 && policy.Valid()
    ensures Consumed(s, maxKeys, key, policy.limit(key), policy.window(key), now).0.operations == s.operations + 1
  {
  }

  lemma FirstIsMember(keys: seq<string>)
    ensures keys != [] ==> keys[0] in keys
  {
  }

  lemma NothingLeft(s: State, window: int, now: real, key: string)
    requires s.table.Valid() && (forall k :: k in s.table.keys ==> k == key)
    requires (s.operations + 1) % SWEEP_EVERY == 0 && Pruned(DequeOf(s.table, key), now - window as real) == []
    ensures AfterSweep(s, window, now).keys == []
  {
    hide Pruned, Distinct;
    var swept := AfterSweep(s, window, now);
    forall k
      ensures k !in swept.keys
    {
      if k in s.table.items {
        assert k in s.table.keys;
      }
    }
    FirstIsMember(swept.keys);
  }

  /** The short key's one call sweeps with its own window, and the long key's history is gone. */
  lemma Lost(maxKeys: nat, policy: Policy, short: string, long: string)
    requires maxKeys >= 1 && policy.Valid() && short != long
    ensures var first := Repeated(Consume(long, 0.0), Calls(policy.limit(long)));
            && !Forgets(Run(maxKeys, policy, first), maxKeys, policy, Consume(short, policy.window(short) as real),
                        long)
            && DequeOf(Run(maxKeys, policy, LosingRun(policy, short, long)).table, long) == []
            && Run(maxKeys, policy, LosingRun(policy, short, long)).operations == |first| + 1
            && LogOf(policy, LosingRun(policy, short, long), long) == Zeros(policy.limit(long))
  {
    hide Pruned, Recent, RetryAfter, Consumed, AfterSweep;
    var limit, time := policy.limit(long), policy.window(short) as real;
    var first, ops := Repeated(Consume(long, 0.0), Calls(limit)), LosingRun(policy, short, long);
    assert ops[..|ops| - 1] == first && ops[|ops| - 1] == Consume(short, time);
    Filled(maxKeys, policy, long, Calls(limit));
    LogFilled(policy, long, Calls(limit));
    PrunedZerosAway(limit);
    var s := Run(maxKeys, policy, first);
    SweepDeque(s, policy.window(short), time, long);
    NothingLeft(s, policy.window(short), time, long);
    ConsumedDeque(s, maxKeys, policy, short, time, long);
    CountsCall(s, maxKeys, policy, short, time);
  }

  lemma LosingKept(maxKeys: nat, policy: Policy, short: string, long: string)
    requires maxKeys >= 1 && policy.Valid() && short != long
    ensures Kept(maxKeys, policy, LosingRun(policy, short, long) + [Consume(long, policy.window(short) as real)], long)
  {
    hide Forgets, Run, LogOf;
    var time := policy.window(short) as real;
    var ops := LosingRun(policy, short, long) + [Consume(long, time)];
    var n := Calls(policy.limit(long));
    Lost(maxKeys, policy, short, long);
    forall i | 0 <= i < |ops|
      ensures !Forgets(Run(maxKeys, policy, ops[..i]), maxKeys, policy, ops[i], long)
    {
      if i == n {
        assert ops[..n] == Repeated(Consume(long, 0.0), n);
      } else {
        OwnCallKeeps(Run(maxKeys, policy, ops[..i]), maxKeys, policy, long, ops[i].now);
      }
    }
  }

  /** Then the long key is admitted although its window is still full. */
  lemma ShorterWindowLoses(maxKeys: nat, policy: Policy, short: string, long: string)
    requires maxKeys >= 1 && policy.Valid() && policy.window(short) < policy.window(long)
    ensures var ops, now := LosingRun(policy, short, long), policy.window(short) as real;
            && Timed(ops) && NotAfter(ops, now) && Kept(maxKeys, policy, ops + [Consume(long, now)], long)
            && DecisionAfter(maxKeys, policy, ops, long, now).allowed
            && !Answer(LogOf(policy, ops, long), policy.limit(long), policy.window(long), now, RetryAfter).allowed
  {
    hide Consumed, Pruned, Forgets, AfterSweep, Run, LogOf, RetryAfter, Recent;
    var ops, now := LosingRun(policy, short, long), policy.window(short) as real;
    var limit := policy.limit(long);
    var s := Run(maxKeys, policy, ops);
    Lost(maxKeys, policy, short, long);
    LosingKept(maxKeys, policy, short, long);
    OwnCallKeeps(s, maxKeys, policy, long, now);
    SweepDeque(s, policy.window(long), now, long);
    ConsumedDeque(s, maxKeys, policy, long, now, long);
    PrunedNothing(now - policy.window(long) as real);
    RecentZeros(limit, now - policy.window(long) as real);
  }

  /** Every orderly run is answered from the log exactly when all keys have the same window. */
  lemma SweepsHarmlessExactly(maxKeys: nat, policy: Policy)
    requires maxKeys >= 1 && policy.Valid()
    ensures (forall a, b :: policy.window(a) == policy.window(b)) <==>
            (forall ops, key, now :: Faithful(maxKeys, policy, ops, key, now))
  {
    hide DecisionAfter, Answer, LogOf, Kept;
    if forall a, b :: policy.window(a) == policy.window(b) {
      forall ops, key, now
        ensures Faithful(maxKeys, policy, ops, key, now)
      {
        if Timed(ops) && NotAfter(ops, now) && Kept(maxKeys, policy, ops + [Consume(key, now)], key) {
          assert WindowsCover(policy, ops, key);
          AnswersFromLog(maxKeys, policy, ops, key, now);
        }
      }
    } else {
      var a, b :| policy.window(a) != policy.window(b);
      var aFirst := policy.window(a) < policy.window(b);
      var short, long := if aFirst then a else b, if aFirst then b else a;
      ShorterWindowLoses(maxKeys, policy, short, long);
      assert !Faithful(maxKeys, policy, LosingRun(policy, short, long), long, policy.window(short) as real);
    }
  }
}
