/** Whole runs of the in-process limiter against the admission log. */
module LimiterRuns {
  import opened Core
  import opened OrderedDicts
  import opened RateLimit
  import opened AdmissionLog

  /** Each key is always used with the same limit and window. */
  datatype Policy = Policy(limit: string -> nat, window: string -> int) {
    ghost predicate Valid() {
      forall k :: limit(k) >= 1 && window(k) >= 1
    }
  }

  datatype Op = Consume(key: string, now: real) | Peek(key: string, now: real) | Clear(key: string) | ClearAll

  predicate HasTime(op: Op) {
    op.Consume? || op.Peek?
  }

  ghost predicate NotAfter(ops: seq<Op>, now: real) {
    forall i :: 0 <= i < |ops| && HasTime(ops[i]) ==> ops[i].now <= now
  }

  /** The clock never runs backwards. */
  ghost predicate Timed(ops: seq<Op>) {
    forall i, j :: 0 <= i < j < |ops| && HasTime(ops[i]) && HasTime(ops[j]) ==> ops[i].now <= ops[j].now
  }

  function Apply(s: State, maxKeys: nat, policy: Policy, op: Op): (r: State)
    requires s.table.Valid() && maxKeys >= 1 && policy.Valid()
    ensures r.table.Valid()
  {
    match op
    case Consume(key, now) => Consumed(s, maxKeys, key, policy.limit(key), policy.window(key), now).0
    case Peek(key, now) => Peeked(s, key, policy.limit(key), policy.window(key), now).0
    case Clear(key) => s.(table := s.table.Pop(key))
    case ClearAll => s.(table := Empty())
  }

  function Run(maxKeys: nat, policy: Policy, ops: seq<Op>): (r: State)
    requires maxKeys >= 1 && policy.Valid()
    ensures r.table.Valid()
  {
    if ops == [] then Initial()
    else Apply(Run(maxKeys, policy, ops[..|ops| - 1]), maxKeys, policy, ops[|ops| - 1])
  }

  /** The answer to a consume call made after ops. */
  function DecisionAfter(maxKeys: nat, policy: Policy, ops: seq<Op>, key: string, now: real): Decision
    requires maxKeys >= 1 && policy.Valid()
  {
    Consumed(Run(maxKeys, policy, ops), maxKeys, key, policy.limit(key), policy.window(key), now).1
  }

  /** The reference: only the key's own consume calls count, and nothing is ever dropped. */
  function LogOf(policy: Policy, ops: seq<Op>, key: string): Log
    requires policy.Valid()
  {
    if ops == [] then []
    else
      var before := LogOf(policy, ops[..|ops| - 1], key);
      var op := ops[|ops| - 1];
      if op.Consume? && op.key == key then Logged(before, policy.limit(key), policy.window(key), op.now) else before
  }

  /** The times at which the limiter really admitted the key. */
  function AdmittedBy(maxKeys: nat, policy: Policy, ops: seq<Op>, key: string): Log
    requires maxKeys >= 1 && policy.Valid()
  {
    if ops == [] then []
    else
      var init, op := ops[..|ops| - 1], ops[|ops| - 1];
      var before := AdmittedBy(maxKeys, policy, init, key);
      if op.Consume? && op.key == key && DecisionAfter(maxKeys, policy, init, key, op.now).allowed
      then before + [op.now] else before
  }

  // ----- what one step does to one key's deque -----

  function DequeOf(table: Table, key: string): Requests {
    if key in table.items then table.items[key] else []
  }

  /** The step throws the key's history away: eviction by a new key, or a clear. */
  predicate Forgets(s: State, maxKeys: nat, policy: Policy, op: Op, key: string)
    requires s.table.Valid() && maxKeys >= 1 && policy.Valid()
  {
    match op
    case Consume(other, now) =>
      var table := AfterSweep(s, policy.window(other), now);
      other !in table.items && |table.keys| >= maxKeys && table.keys[0] == key
    case Peek(_, _) => false
    case Clear(other) => other == key
    case ClearAll => true
  }

  lemma SweepDeque(s: State, window: int, now: real, key: string)
    requires s.table.Valid()
    ensures DequeOf(AfterSweep(s, window, now), key) ==
            if (s.operations + 1) % SWEEP_EVERY == 0 then Pruned(DequeOf(s.table, key), now - window as real)
            else DequeOf(s.table, key)
  {
  }

  lemma PlacedDeque(table: Table, maxKeys: nat, key: string, other: string)
    requires table.Valid() && maxKeys >= 1
    requires !(key !in table.items && |table.keys| >= maxKeys && table.keys[0] == other)
    ensures DequeOf(Placed(table, maxKeys, key), other) == DequeOf(table, other)
  {
  }

  lemma ConsumedDeque(s: State, maxKeys: nat, policy: Policy, key: string, now: real, other: string)
    requires s.table.Valid() && maxKeys >= 1 && policy.Valid()
    requires !Forgets(s, maxKeys, policy, Consume(key, now), other)
    ensures var swept := AfterSweep(s, policy.window(key), now);
            var after := Consumed(s, maxKeys, key, policy.limit(key), policy.window(key), now);
            if other != key then DequeOf(after.0.table, other) == DequeOf(swept, other)
            else
              var recent := Pruned(DequeOf(swept, key), now - policy.window(key) as real);
              && after.1 == (if |recent| >= policy.limit(key)
                             then Decision(false, 0, RetryAfter(policy.window(key), now, recent[0]))
                             else Decision(true, policy.limit(key) - |recent| - 1, 0))
              && DequeOf(after.0.table, key) == if |recent| >= policy.limit(key) then recent else recent + [now]
  {
    hide RetryAfter, Pruned, AfterSweep, Placed;
    PlacedDeque(AfterSweep(s, policy.window(key), now), maxKeys, key, other);
  }

  // ----- the deque follows the log -----

  /** The deque holds, in order, everything the log has admitted in the window that ends now. */
  ghost predicate Follows(deque: Requests, log: Log, window: int, now: real) {
    && Ordered(deque)
    && (forall t :: t in deque ==> t <= now)
    && Recent(deque, now - window as real) == Recent(log, now - window as real)
  }

  lemma FollowsLater(deque: Requests, log: Log, window: int, now: real, later: real)
    requires Follows(deque, log, window, now) && now <= later
    ensures Follows(deque, log, window, later)
  {
    RecentTwice(deque, now - window as real, later - window as real);
    RecentTwice(log, now - window as real, later - window as real);
  }

  /** Pruning to the key's own window, or to a longer one, loses nothing that still counts. */
  lemma FollowsPruned(deque: Requests, log: Log, window: int, now: real, cutoff: real)
    requires Follows(deque, log, window, now) && cutoff <= now - window as real
    ensures Follows(Pruned(deque, cutoff), log, window, now)
  {
    hide Recent, Pruned, Ordered;
    PrunedIsRecent(deque, cutoff);
    RecentTwice(deque, cutoff, now - window as real);
  }

  lemma FollowsAppend(deque: Requests, log: Log, window: int, now: real)
    requires Follows(deque, log, window, now) && window >= 1
    ensures Follows(deque + [now], log + [now], window, now)
  {
    hide Recent;
    assert forall i :: 0 <= i < |deque| ==> deque[i] in deque;
    RecentAppend(deque, now, now - window as real);
    RecentAppend(log, now, now - window as real);
  }

  lemma FollowsConsume(deque: Requests, log: Log, limit: nat, window: int, now: real)
    requires Follows(deque, log, window, now) && limit >= 1 && window >= 1
    ensures var recent := Pruned(deque, now - window as real);
            && recent == Recent(log, now - window as real)
            && (if |recent| >= limit then Decision(false, 0, RetryAfter(window, now, recent[0]))
                else Decision(true, limit - |recent| - 1, 0)) == Answer(log, limit, window, now, RetryAfter)
            && Follows(if |recent| >= limit then recent else recent + [now],
                       Logged(log, limit, window, now), window, now)
  {
    hide RetryAfter, Recent, Pruned, Ordered;
    PrunedIsRecent(deque, now - window as real);
    FollowsPruned(deque, log, window, now, now - window as real);
    FollowsAppend(Pruned(deque, now - window as real), log, window, now);
  }

  /** Sweeps triggered by these calls never use a window shorter than the key's. */
  ghost predicate WindowsCover(policy: Policy, ops: seq<Op>, key: string) {
    forall i :: 0 <= i < |ops| && ops[i].Consume? ==> policy.window(ops[i].key) >= policy.window(key)
  }

  /** The key is never evicted or cleared. */
  ghost predicate Kept(maxKeys: nat, policy: Policy, ops: seq<Op>, key: string)
    requires maxKeys >= 1 && policy.Valid()
  {
    forall i :: 0 <= i < |ops| ==> !Forgets(Run(maxKeys, policy, ops[..i]), maxKeys, policy, ops[i], key)
  }

  lemma InitialFollows(window: int, now: real, key: string)
    ensures Follows(DequeOf(Initial().table, key), [], window, now)
  {
  }

  lemma PrunedNothing(cutoff: real)
    ensures Pruned([], cutoff) == []
  {
  }

  lemma ConsumeFollows(s: State, log: Log, maxKeys: nat, policy: Policy, other: string, time: real, key: string,
                       now: real)
    requires s.table.Valid() && maxKeys >= 1 && policy.Valid()
    requires Follows(DequeOf(s.table, key), log, policy.window(key), time) && time <= now
    requires !Forgets(s, maxKeys, policy, Consume(other, time), key)
    requires policy.window(other) >= policy.window(key)
    ensures var after := Apply(s, maxKeys, policy, Consume(other, time));
            Follows(DequeOf(after.table, key),
                    if other == key then Logged(log, policy.limit(key), policy.window(key), time) else log,
                    policy.window(key), now)
    ensures other == key ==>
              Consumed(s, maxKeys, key, policy.limit(key), policy.window(key), time).1
              == Answer(log, policy.limit(key), policy.window(key), time, RetryAfter)
  {
    hide Follows, Pruned, RetryAfter, Consumed, AfterSweep, Logged, Answer, Forgets;
    var deque, window := DequeOf(s.table, key), policy.window(key);
    ConsumedDeque(s, maxKeys, policy, other, time, key);
    SweepDeque(s, policy.window(other), time, key);
    FollowsPruned(deque, log, window, time, time - policy.window(other) as real);
    var swept := DequeOf(AfterSweep(s, policy.window(other), time), key);
    FollowsConsume(swept, log, policy.limit(key), window, time);
    var after := DequeOf(Apply(s, maxKeys, policy, Consume(other, time)).table, key);
    FollowsLater(after, if other == key then Logged(log, policy.limit(key), window, time) else log, window, time, now);
  }

  lemma PeekFollows(s: State, log: Log, maxKeys: nat, policy: Policy, other: string, time: real, key: string, now: real)
    requires s.table.Valid() && maxKeys >= 1 && policy.Valid()
    requires Follows(DequeOf(s.table, key), log, policy.window(key), time) && time <= now
    ensures Follows(DequeOf(Apply(s, maxKeys, policy, Peek(other, time)).table, key), log, policy.window(key), now)
    ensures other == key ==>
              Peeked(s, key, policy.limit(key), policy.window(key), time).1
              == !Admits(log, policy.limit(key), policy.window(key), time)
  {
    hide Follows, Pruned, RetryAfter, Logged;
    var deque, window := DequeOf(s.table, key), policy.window(key);
    PrunedNothing(time - window as real);
    FollowsPruned(deque, log, window, time, time - window as real);
    FollowsConsume(deque, log, policy.limit(key), window, time);
    FollowsLater(Pruned(deque, time - window as real), log, window, time, now);
    FollowsLater(deque, log, window, time, now);
  }

  lemma StepFollows(s: State, log: Log, maxKeys: nat, policy: Policy, op: Op, key: string, now: real)
    requires s.table.Valid() && maxKeys >= 1 && policy.Valid()
    requires Follows(DequeOf(s.table, key), log, policy.window(key), if HasTime(op) then op.now else now)
    requires HasTime(op) ==> op.now <= now
    requires !Forgets(s, maxKeys, policy, op, key)
    requires op.Consume? ==> policy.window(op.key) >= policy.window(key)
    ensures var after := Apply(s, maxKeys, policy, op);
            var logged := if op.Consume? && op.key == key
                          then Logged(log, policy.limit(key), policy.window(key), op.now) else log;
            Follows(DequeOf(after.table, key), logged, policy.window(key), now)
    ensures op.Consume? && op.key == key ==>
              Consumed(s, maxKeys, key, policy.limit(key), policy.window(key), op.now).1
              == Answer(log, policy.limit(key), policy.window(key), op.now, RetryAfter)
    ensures op.Peek? && op.key == key ==>
              Peeked(s, key, policy.limit(key), policy.window(key), op.now).1
              == !Admits(log, policy.limit(key), policy.window(key), op.now)
  {
    hide Follows, Consumed, Peeked, Logged, Answer, Admits;
    match op
    case Consume(other, time) => ConsumeFollows(s, log, maxKeys, policy, other, time, key, now);
    case Peek(other, time) => PeekFollows(s, log, maxKeys, policy, other, time, key, now);
    case Clear(other) =>
    case ClearAll =>
  }

  lemma {:induction false} RunFollows(maxKeys: nat, policy: Policy, ops: seq<Op>, key: string, now: real)
    requires maxKeys >= 1 && policy.Valid() && Timed(ops) && NotAfter(ops, now)
    requires Kept(maxKeys, policy, ops, key) && WindowsCover(policy, ops, key)
    ensures Follows(DequeOf(Run(maxKeys, policy, ops).table, key), LogOf(policy, ops, key), policy.window(key), now)
  {
    hide Follows, Apply, Logged, Forgets;
    if ops == [] {
      InitialFollows(policy.window(key), now, key);
    } else {
      var init, op := ops[..|ops| - 1], ops[|ops| - 1];
      forall i | 0 <= i < |init|
        ensures !Forgets(Run(maxKeys, policy, init[..i]), maxKeys, policy, init[i], key)
      {
        assert init[..i] == ops[..i] && init[i] == ops[i];
      }
      assert Kept(maxKeys, policy, init, key);
      RunFollows(maxKeys, policy, init, key, if HasTime(op) then op.now else now);
      StepFollows(Run(maxKeys, policy, init), LogOf(policy, init, key), maxKeys, policy, op, key, now);
    }
  }

  lemma PeekNeverForgets(s: State, maxKeys: nat, policy: Policy, key: string, now: real)
    requires s.table.Valid() && maxKeys >= 1 && policy.Valid()
    ensures !Forgets(s, maxKeys, policy, Peek(key, now), key)
  {
  }

  /**
   * While a key is neither evicted nor cleared, each of its calls is answered from the full log of
   * its admissions: same decision, same remaining count, same waiting time.
   */
  lemma AnswersFromLog(maxKeys: nat, policy: Policy, ops: seq<Op>, key: string, now: real)
    requires maxKeys >= 1 && policy.Valid() && Timed(ops) && NotAfter(ops, now)
    requires Kept(maxKeys, policy, ops + [Consume(key, now)], key) && WindowsCover(policy, ops, key)
    ensures DecisionAfter(maxKeys, policy, ops, key, now) ==
            Answer(LogOf(policy, ops, key), policy.limit(key), policy.window(key), now, RetryAfter)
    ensures Peeked(Run(maxKeys, policy, ops), key, policy.limit(key), policy.window(key), now).1 ==
            !Admits(LogOf(policy, ops, key), policy.limit(key), policy.window(key), now)
  {
    hide Follows, Consumed, Forgets, Peeked, Answer;
    var all := ops + [Consume(key, now)];
    forall i | 0 <= i < |ops|
      ensures !Forgets(Run(maxKeys, policy, ops[..i]), maxKeys, policy, ops[i], key)
    {
      assert all[..i] == ops[..i] && all[i] == ops[i];
    }
    assert all[..|ops|] == ops && all[|ops|] == Consume(key, now);
    assert !Forgets(Run(maxKeys, policy, all[..|ops|]), maxKeys, policy, all[|ops|], key);
    RunFollows(maxKeys, policy, ops, key, now);
    StepFollows(Run(maxKeys, policy, ops), LogOf(policy, ops, key), maxKeys, policy, Consume(key, now), key, now);
    PeekNeverForgets(Run(maxKeys, policy, ops), maxKeys, policy, key, now);
    StepFollows(Run(maxKeys, policy, ops), LogOf(policy, ops, key), maxKeys, policy, Peek(key, now), key, now);
  }

  lemma {:induction false} LogDisciplined(policy: Policy, ops: seq<Op>, key: string)
    requires policy.Valid()
    ensures Disciplined(LogOf(policy, ops, key), policy.limit(key), policy.window(key))
  {
    if ops != [] {
      var init, op := ops[..|ops| - 1], ops[|ops| - 1];
      LogDisciplined(policy, init, key);
      if op.Consume? && op.key == key {
        LoggedDisciplined(LogOf(policy, init, key), policy.limit(key), policy.window(key), op.now);
      }
    }
  }

  lemma {:induction false} AdmittedIsLog(maxKeys: nat, policy: Policy, ops: seq<Op>, key: string)
    requires maxKeys >= 1 && policy.Valid() && Timed(ops)
    requires Kept(maxKeys, policy, ops, key) && WindowsCover(policy, ops, key)
    ensures AdmittedBy(maxKeys, policy, ops, key) == LogOf(policy, ops, key)
  {
    hide DecisionAfter, Forgets, Run;
    if ops != [] {
      var init, op := ops[..|ops| - 1], ops[|ops| - 1];
      forall i | 0 <= i < |init|
        ensures !Forgets(Run(maxKeys, policy, init[..i]), maxKeys, policy, init[i], key)
      {
        assert init[..i] == ops[..i] && init[i] == ops[i];
      }
      AdmittedIsLog(maxKeys, policy, init, key);
      if op.Consume? && op.key == key {
        assert init + [Consume(key, op.now)] == ops;
        AnswersFromLog(maxKeys, policy, init, key, op.now);
      }
    }
  }

  /** In every half-open stretch of one window's length, the limiter admits the key at most limit times. */
  lemma AdmitsAtMostLimit(maxKeys: nat, policy: Policy, ops: seq<Op>, key: string, start: real)
    requires maxKeys >= 1 && policy.Valid() && Timed(ops)
    requires Kept(maxKeys, policy, ops, key) && WindowsCover(policy, ops, key)
    ensures var admitted := AdmittedBy(maxKeys, policy, ops, key);
            |InWindow(admitted, start, start + policy.window(key) as real)| <= policy.limit(key)
  {
    hide AdmittedBy, LogOf, Kept;
    AdmittedIsLog(maxKeys, policy, ops, key);
    LogDisciplined(policy, ops, key);
    AtMostLimit(LogOf(policy, ops, key), policy.limit(key), policy.window(key), start);
  }

  lemma {:induction false} LogInOrder(policy: Policy, ops: seq<Op>, key: string, now: real)
    requires policy.Valid() && Timed(ops) && NotAfter(ops, now)
    ensures Ordered(LogOf(policy, ops, key))
    ensures forall t :: t in LogOf(policy, ops, key) ==> t <= now
  {
    hide Recent;
    if ops != [] {
      var init, op := ops[..|ops| - 1], ops[|ops| - 1];
      var log := LogOf(policy, init, key);
      LogInOrder(policy, init, key, if HasTime(op) then op.now else now);
      assert forall i :: 0 <= i < |log| ==> log[i] in log;
    }
  }

  /** No call about these asks for the key to be admitted. */
  ghost predicate NoneConsumes(ops: seq<Op>, key: string) {
    forall i :: 0 <= i < |ops| ==> !(ops[i].Consume? && ops[i].key == key)
  }

  lemma {:induction false} LogWithoutConsumes(policy: Policy, ops: seq<Op>, others: seq<Op>, key: string)
    requires policy.Valid() && NoneConsumes(others, key)
    ensures LogOf(policy, ops + others, key) == LogOf(policy, ops, key)
  {
    hide Logged;
    if others == [] {
      assert ops + others == ops;
    } else {
      var all := ops + others;
      assert all[..|all| - 1] == ops + others[..|others| - 1];
      LogWithoutConsumes(policy, ops, others[..|others| - 1], key);
    }
  }

  /** A denied call and calls about other keys add nothing to the key's log. */
  lemma LogAfterDenial(policy: Policy, ops: seq<Op>, key: string, now: real, others: seq<Op>)
    requires policy.Valid() && NoneConsumes(others, key)
    requires !Admits(LogOf(policy, ops, key), policy.limit(key), policy.window(key), now)
    ensures LogOf(policy, ops + [Consume(key, now)] + others, key) == LogOf(policy, ops, key)
  {
    hide Admits;
    LogWithoutConsumes(policy, ops + [Consume(key, now)], others, key);
    assert (ops + [Consume(key, now)])[..|ops|] == ops;
  }

  /** What the log answers: the hint of a denial is that of the oldest admission in the window. */
  lemma HintOfLog(log: Log, limit: nat, window: int, now: real, rounding: (int, real, real) -> int)
    requires limit >= 1
    ensures Answer(log, limit, window, now, rounding).allowed == Admits(log, limit, window, now)
    ensures !Admits(log, limit, window, now) ==>
              var recent := Recent(log, now - window as real);
              recent != [] && Answer(log, limit, window, now, rounding).retryAfter == rounding(window, now, recent[0])
  {
    hide Recent;
  }

  /** Either hint is long enough for the log. */
  lemma HintPasses(policy: Policy, ops: seq<Op>, key: string, now: real, later: real,
                   rounding: (int, real, real) -> int)
    requires policy.Valid() && Timed(ops) && NotAfter(ops, now)
    requires rounding == RetryAfter || rounding == RedisRetry
    requires !Admits(LogOf(policy, ops, key), policy.limit(key), policy.window(key), now)
    requires var answer := Answer(LogOf(policy, ops, key), policy.limit(key), policy.window(key), now, rounding);
             later >= now + answer.retryAfter as real
    ensures Admits(LogOf(policy, ops, key), policy.limit(key), policy.window(key), later)
  {
    hide Recent, RetryAfter, RedisRetry, Admits, Answer, LogOf;
    var log, limit, window := LogOf(policy, ops, key), policy.limit(key), policy.window(key);
    LogInOrder(policy, ops, key, now);
    LogDisciplined(policy, ops, key);
    HintOfLog(log, limit, window, now, rounding);
    var oldest := Recent(log, now - window as real)[0];
    assert oldest in Recent(log, now - window as real);
    HintsCover(window, now, oldest);
    RetrySucceeds(log, limit, window, now, later);
  }

  lemma KeptBefore(maxKeys: nat, policy: Policy, ops: seq<Op>, others: seq<Op>, key: string)
    requires maxKeys >= 1 && policy.Valid() && Kept(maxKeys, policy, ops + others, key)
    ensures Kept(maxKeys, policy, ops, key)
  {
    hide Run;
    var all := ops + others;
    forall i | 0 <= i < |ops|
      ensures !Forgets(Run(maxKeys, policy, ops[..i]), maxKeys, policy, ops[i], key)
    {
      assert all[..i] == ops[..i] && all[i] == ops[i];
    }
  }

  /** The key's own call never throws its history away. */
  lemma OwnCallKept(maxKeys: nat, policy: Policy, ops: seq<Op>, key: string, now: real)
    requires maxKeys >= 1 && policy.Valid() && Kept(maxKeys, policy, ops, key)
    ensures Kept(maxKeys, policy, ops + [Consume(key, now)], key)
  {
    hide Run;
    var all := ops + [Consume(key, now)];
    forall i | 0 <= i < |all|
      ensures !Forgets(Run(maxKeys, policy, all[..i]), maxKeys, policy, all[i], key)
    {
      if i < |ops| {
        assert all[..i] == ops[..i] && all[i] == ops[i];
      }
    }
  }

  /** After a denial, and any calls about other keys, a kept key is admitted once its own hint has passed. */
  lemma WaitingIsEnough(maxKeys: nat, policy: Policy, ops: seq<Op>, key: string, now: real, others: seq<Op>,
                        later: real)
    requires maxKeys >= 1 && policy.Valid() && Timed(ops) && NotAfter(ops, now)
    requires !DecisionAfter(maxKeys, policy, ops, key, now).allowed
    requires later >= now + DecisionAfter(maxKeys, policy, ops, key, now).retryAfter as real
    requires NoneConsumes(others, key)
    requires var all := ops + [Consume(key, now)] + others;
             Timed(all) && NotAfter(all, later) && Kept(maxKeys, policy, all, key) && WindowsCover(policy, all, key)
    ensures DecisionAfter(maxKeys, policy, ops + [Consume(key, now)] + others, key, later).allowed
  {
    hide DecisionAfter, Answer, Admits, Kept, RetryAfter, LogOf;
    var log, limit, window := LogOf(policy, ops, key), policy.limit(key), policy.window(key);
    var all := ops + [Consume(key, now)] + others;
    KeptBefore(maxKeys, policy, ops + [Consume(key, now)], others, key);
    assert WindowsCover(policy, ops, key) by {
      assert forall i :: 0 <= i < |ops| ==> all[i] == ops[i];
    }
    AnswersFromLog(maxKeys, policy, ops, key, now);
    HintOfLog(log, limit, window, now, RetryAfter);
    HintPasses(policy, ops, key, now, later, RetryAfter);
    LogAfterDenial(policy, ops, key, now, others);
    OwnCallKept(maxKeys, policy, all, key, later);
    AnswersFromLog(maxKeys, policy, all, key, later);
    HintOfLog(log, limit, window, later, RetryAfter);
  }

  // ----- the table stays within bounds and evicts the least recently used key -----

  lemma {:induction false} TableBounded(maxKeys: nat, policy: Policy, ops: seq<Op>)
    requires maxKeys >= 1 && policy.Valid()
    ensures |Run(maxKeys, policy, ops).table.keys| <= maxKeys
  {
    hide Pruned, Swept, AfterSweep, Placed;
    if ops != [] {
      var init, op := ops[..|ops| - 1], ops[|ops| - 1];
      TableBounded(maxKeys, policy, init);
      var s := Run(maxKeys, policy, init);
      match op
      case Consume(key, now) =>
        var swept := AfterSweep(s, policy.window(key), now);
        PlacedFits(swept, maxKeys, key);
        var placed := Placed(swept, maxKeys, key);
        var requests := Pruned(placed.items[key], now - policy.window(key) as real);
        SetFits(placed, key, requests);
        SetFits(placed, key, requests + [now]);
      case Peek(key, now) =>
        if key in s.table.items {
          var requests := Pruned(s.table.items[key], now - policy.window(key) as real);
          PopFits(s.table, key);
          SetFits(s.table, key, requests);
          MoveFits(s.table.Set(key, requests), key);
        }
      case Clear(key) => PopFits(s.table, key);
      case ClearAll =>
    }
  }

  /** The position of the last call about the key, -1 when there was none. */
  function LastTouch(ops: seq<Op>, key: string): int
    ensures -1 <= LastTouch(ops, key) < |ops|
  {
    if ops == [] then -1
    else if HasTime(ops[|ops| - 1]) && ops[|ops| - 1].key == key then |ops| - 1
    else LastTouch(ops[..|ops| - 1], key)
  }

  ghost predicate ByTouch(keys: seq<string>, ops: seq<Op>) {
    && (forall i :: 0 <= i < |keys| ==> LastTouch(ops, keys[i]) >= 0)
    && (forall i, j :: 0 <= i < j < |keys| ==> LastTouch(ops, keys[i]) < LastTouch(ops, keys[j]))
  }

  /** Keys dropped from the middle leave the rest in order. */
  ghost predicate Subsequence(part: seq<string>, whole: seq<string>)
    decreases |whole|
  {
    if part == [] then true
    else if whole == [] then false
    else if part[0] == whole[0] then Subsequence(part[1..], whole[1..])
    else Subsequence(part, whole[1..])
  }

  lemma {:induction false} SubsequenceMembers(part: seq<string>, whole: seq<string>)
    requires Subsequence(part, whole)
    ensures forall k :: k in part ==> k in whole
    decreases |whole|
  {
    if part != [] {
      if part[0] == whole[0] {
        SubsequenceMembers(part[1..], whole[1..]);
        assert part == [part[0]] + part[1..] && whole == [whole[0]] + whole[1..];
      } else {
        SubsequenceMembers(part, whole[1..]);
      }
    }
  }

  lemma {:induction false} SubsequenceByTouch(part: seq<string>, whole: seq<string>, ops: seq<Op>)
    requires Subsequence(part, whole) && ByTouch(whole, ops)
    ensures ByTouch(part, ops)
    decreases |whole|
  {
    if part != [] {
      assert forall i :: 0 <= i < |whole| - 1 ==> whole[1..][i] == whole[i + 1];
      if part[0] == whole[0] {
        SubsequenceByTouch(part[1..], whole[1..], ops);
        SubsequenceMembers(part[1..], whole[1..]);
        forall j | 1 <= j < |part|
          ensures LastTouch(ops, part[0]) < LastTouch(ops, part[j]) && LastTouch(ops, part[j]) >= 0
        {
          assert part[1..][j - 1] == part[j] && part[j] in whole[1..];
          var k :| 0 <= k < |whole| - 1 && whole[1..][k] == part[j];
          assert whole[k + 1] == part[j];
        }
        forall i, j | 1 <= i < j < |part|
          ensures LastTouch(ops, part[i]) < LastTouch(ops, part[j])
        {
          assert part[1..][i - 1] == part[i] && part[1..][j - 1] == part[j];
        }
      } else {
        SubsequenceByTouch(part, whole[1..], ops);
      }
    }
  }

  lemma {:induction false} SubsequenceSelf(keys: seq<string>)
    ensures Subsequence(keys, keys)
  {
    if keys != [] {
      SubsequenceSelf(keys[1..]);
    }
  }

  /** A subsequence of the tail is one of the whole. */
  lemma {:induction false} SubsequenceDrop(part: seq<string>, whole: seq<string>)
    requires whole != [] && Subsequence(part, whole[1..])
    ensures Subsequence(part, whole)
    decreases |whole|, |part|
  {
    if part != [] && part[0] == whole[0] {
      if part[0] == whole[1..][0] {
        SubsequenceDrop(part[1..], whole[1..]);
      } else {
        SubsequenceTail(part, whole[1..]);
      }
    }
  }

  lemma {:induction false} WithoutIsSubsequence(keys: seq<string>, key: string)
    ensures Subsequence(Without(keys, key), keys)
  {
    if keys != [] {
      WithoutIsSubsequence(keys[1..], key);
      if keys[0] == key {
        SubsequenceDrop(Without(keys, key), keys);
      } else {
        assert Without(keys, key)[1..] == Without(keys[1..], key);
      }
    }
  }

  lemma {:induction false} SubsequenceTail(part: seq<string>, whole: seq<string>)
    requires part != [] && Subsequence(part, whole)
    ensures Subsequence(part[1..], whole)
    decreases |whole|, |part|
  {
    if part[0] == whole[0] {
      SubsequenceDrop(part[1..], whole);
    } else {
      SubsequenceTail(part, whole[1..]);
      SubsequenceDrop(part[1..], whole);
    }
  }

  lemma {:induction false} LiveKeysIsSubsequence(keys: seq<string>, items: map<string, Requests>, cutoff: real)
    requires forall k :: k in keys ==> k in items
    ensures Subsequence(LiveKeys(keys, items, cutoff), keys)
  {
    if keys != [] {
      LiveKeysIsSubsequence(keys[1..], items, cutoff);
      var rest := LiveKeys(keys[1..], items, cutoff);
      if Pruned(items[keys[0]], cutoff) != [] {
        assert ([keys[0]] + rest)[1..] == rest;
      } else {
        SubsequenceDrop(rest, keys);
      }
    }
  }

  lemma TouchKept(keys: seq<string>, ops: seq<Op>, op: Op)
    requires ByTouch(keys, ops) && (HasTime(op) ==> op.key !in keys)
    ensures ByTouch(keys, ops + [op])
  {
    assert (ops + [op])[..|ops|] == ops;
    assert forall i :: 0 <= i < |keys| ==> LastTouch(ops + [op], keys[i]) == LastTouch(ops, keys[i]);
  }

  lemma TouchedLast(keys: seq<string>, ops: seq<Op>, op: Op)
    requires ByTouch(keys, ops) && HasTime(op) && op.key !in keys
    ensures ByTouch(keys + [op.key], ops + [op])
  {
    TouchKept(keys, ops, op);
    assert LastTouch(ops + [op], op.key) == |ops|;
    assert forall i :: 0 <= i < |keys| ==> (keys + [op.key])[i] == keys[i];
  }

  lemma SweepKeys(s: State, window: int, now: real, ops: seq<Op>)
    requires s.table.Valid() && ByTouch(s.table.keys, ops)
    ensures ByTouch(AfterSweep(s, window, now).keys, ops)
  {
    hide Pruned, LiveKeys, ByTouch, Subsequence;
    LiveKeysIsSubsequence(s.table.keys, s.table.items, now - window as real);
    SubsequenceByTouch(Swept(s.table, now - window as real).keys, s.table.keys, ops);
  }

  /** Where the consumed key ends up: last, behind the keys that stay. */
  lemma ConsumedKeys(s: State, maxKeys: nat, key: string, limit: int, window: int, now: real)
    requires s.table.Valid() && maxKeys >= 1 && limit >= 1 && window >= 1
    ensures var swept := AfterSweep(s, window, now);
            var stay := if key in swept.items then Without(swept.keys, key)
                        else if |swept.keys| >= maxKeys then Without(swept.keys, swept.keys[0])
                        else swept.keys;
            Consumed(s, maxKeys, key, limit, window, now).0.table.keys == stay + [key]
  {
    hide Pruned, RetryAfter, AfterSweep;
  }

  lemma PeekedKeys(s: State, key: string, limit: int, window: int, now: real)
    requires s.table.Valid()
    ensures var keys := Peeked(s, key, limit, window, now).0.table.keys;
            if key in s.table.items
            then keys == Without(s.table.keys, key) || keys == Without(s.table.keys, key) + [key]
            else keys == s.table.keys
  {
    hide Pruned;
  }

  lemma NoKeysByTouch()
    ensures ByTouch([], [])
  {
  }

  lemma NoKeys(ops: seq<Op>)
    ensures ByTouch([], ops)
  {
  }

  /** The table's order is the order of last use, so what a new key evicts is the least recently used one. */
  lemma {:induction false} OrderedByTouch(maxKeys: nat, policy: Policy, ops: seq<Op>)
    requires maxKeys >= 1 && policy.Valid()
    ensures ByTouch(Run(maxKeys, policy, ops).table.keys, ops)
  {
    hide Pruned, AfterSweep, Consumed, Peeked, ByTouch;
    if ops == [] {
      NoKeysByTouch();
    } else {
      var init, op := ops[..|ops| - 1], ops[|ops| - 1];
      assert ops == init + [op];
      OrderedByTouch(maxKeys, policy, init);
      var s := Run(maxKeys, policy, init);
      match op
      case Consume(key, now) =>
        var swept := AfterSweep(s, policy.window(key), now);
        SweepKeys(s, policy.window(key), now, init);
        ConsumedKeys(s, maxKeys, key, policy.limit(key), policy.window(key), now);
        var stay := if key in swept.items then Without(swept.keys, key)
                    else if |swept.keys| >= maxKeys then Without(swept.keys, swept.keys[0])
                    else swept.keys;
        WithoutIsSubsequence(swept.keys, key);
        if |swept.keys| > 0 {
          WithoutIsSubsequence(swept.keys, swept.keys[0]);
        }
        SubsequenceSelf(swept.keys);
        SubsequenceByTouch(stay, swept.keys, init);
        TouchedLast(stay, init, op);
      case Peek(key, now) =>
        PeekedKeys(s, key, policy.limit(key), policy.window(key), now);
        if key in s.table.items {
          WithoutIsSubsequence(s.table.keys, key);
          SubsequenceByTouch(Without(s.table.keys, key), s.table.keys, init);
          TouchKept(Without(s.table.keys, key), init, op);
          TouchedLast(Without(s.table.keys, key), init, op);
        } else {
          TouchKept(s.table.keys, init, op);
        }
      case Clear(key) =>
        WithoutIsSubsequence(s.table.keys, key);
        SubsequenceByTouch(Without(s.table.keys, key), s.table.keys, init);
        TouchKept(Without(s.table.keys, key), init, op);
      case ClearAll =>
        NoKeys(ops);
    }
  }

  /** Only the key whose last use lies furthest back is ever evicted, and only from a full table. */
  lemma EvictsLeastRecentlyUsed(maxKeys: nat, policy: Policy, ops: seq<Op>, key: string, now: real, victim: string)
    requires maxKeys >= 1 && policy.Valid()
    requires Forgets(Run(maxKeys, policy, ops), maxKeys, policy, Consume(key, now), victim)
    ensures var table := AfterSweep(Run(maxKeys, policy, ops), policy.window(key), now);
            && victim in table.items && |table.keys| == maxKeys
            && forall other :: other in table.items && other != victim ==>
               LastTouch(ops, victim) < LastTouch(ops, other)
  {
    hide AfterSweep, Run;
    var s := Run(maxKeys, policy, ops);
    TableBounded(maxKeys, policy, ops);
    OrderedByTouch(maxKeys, policy, ops);
    SweepKeys(s, policy.window(key), now, ops);
  }
}
