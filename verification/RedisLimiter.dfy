/** The two Redis scripts, as a second implementation of the admission log (backend/app/core/rate_limit.py). */
module RedisLimiter {
  import opened Core
  import opened RateLimit
  import opened AdmissionLog
  import LimiterRuns

  /** A sorted set's scores, lowest first, and the time at which the key expires. */
  datatype Entry = Entry(scores: seq<real>, expiresAt: real)

  type Store = map<string, Entry>

  /** What a script sees: an expired key is an absent one. */
  function Visible(store: Store, key: string, now: real): seq<real> {
    if key in store && now < store[key].expiresAt then store[key].scores else []
  }

  /** ZREMRANGEBYSCORE key -inf cutoff */
  function WithoutUpTo(scores: seq<real>, cutoff: real): seq<real> {
    Recent(scores, cutoff)
  }

  /** ZADD key now member, for a member that is new: behind every score not above it. */
  function WithScore(scores: seq<real>, now: real): seq<real> {
    if scores != [] && scores[|scores| - 1] > now
    then WithScore(scores[..|scores| - 1], now) + [scores[|scores| - 1]]
    else scores + [now]
  }

  /** PEXPIRE key ceil(window * 1000), in seconds from now. */
  function Expiry(window: int, now: real): real {
    now + Ceiling(window as real * 1000.0) as real / 1000.0
  }

  function ConsumeScript(store: Store, key: string, limit: int, window: int, now: real): (r: (Store, Decision))
    requires limit >= 1 && window >= 1
  {
    var scores := WithoutUpTo(Visible(store, key, now), now - window as real);
    var count := |scores|;
    if count >= limit then
      (store[key := Entry(scores, Expiry(window, now))], Decision(false, 0, RedisRetry(window, now, scores[0])))
    else
      (store[key := Entry(WithScore(scores, now), Expiry(window, now))], Decision(true, limit - count - 1, 0))
  }

  function StatusScript(store: Store, key: string, limit: int, window: int, now: real): (Store, bool)
    requires limit >= 1 && window >= 1
  {
    var scores := WithoutUpTo(Visible(store, key, now), now - window as real);
    if scores == [] then (store - {key}, false)
    else (store[key := Entry(scores, Expiry(window, now))], |scores| >= limit)
  }

  // ----- the object -----

  class RedisSlidingWindowLimiter {
    var store: Store

    constructor ()
      ensures store == map[]
    {
      store := map[];
    }

    method Consume(key: string, limit: int, window: int, now: real) returns (r: Result<Decision, LimiterError>)
      modifies this
      ensures r.Err? <==> limit < 1 || window < 1
      ensures r.Err? ==> store == old(store)
      ensures r.Ok? ==> (store, r.value) == ConsumeScript(old(store), key, limit, window, now)
    {
      if limit < 1 || window < 1 {
        return Err(NotPositive);
      }
      var scores := WithoutUpTo(Visible(store, key, now), now - window as real);
      if |scores| >= limit {
        store := store[key := Entry(scores, Expiry(window, now))];
        return Ok(Decision(false, 0, RedisRetry(window, now, scores[0])));
      }
      r := Ok(Decision(true, limit - |scores| - 1, 0));
      store := store[key := Entry(WithScore(scores, now), Expiry(window, now))];
    }

    method IsLimited(key: string, limit: int, window: int, now: real) returns (r: Result<bool, LimiterError>)
      modifies this
      ensures r.Err? <==> limit < 1 || window < 1
      ensures r.Err? ==> store == old(store)
      ensures r.Ok? ==> (store, r.value) == StatusScript(old(store), key, limit, window, now)
    {
      if limit < 1 || window < 1 {
        return Err(NotPositive);
      }
      var scores := WithoutUpTo(Visible(store, key, now), now - window as real);
      if scores == [] {
        store := store - {key};
        return Ok(false);
      }
      store := store[key := Entry(scores, Expiry(window, now))];
      r := Ok(|scores| >= limit);
    }

    method Clear(key: string)
      modifies this
      ensures store == old(store) - {key}
    {
      store := store - {key};
    }
  }

  // ----- runs -----

  function Apply(store: Store, policy: LimiterRuns.Policy, op: LimiterRuns.Op): Store
    requires policy.Valid()
  {
    match op
    case Consume(key, now) => ConsumeScript(store, key, policy.limit(key), policy.window(key), now).0
    case Peek(key, now) => StatusScript(store, key, policy.limit(key), policy.window(key), now).0
    case Clear(key) => store - {key}
    case ClearAll => map[]
  }

  function Run(policy: LimiterRuns.Policy, ops: seq<LimiterRuns.Op>): Store
    requires policy.Valid()
  {
    if ops == [] then map[] else Apply(Run(policy, ops[..|ops| - 1]), policy, ops[|ops| - 1])
  }

  predicate NeverCleared(ops: seq<LimiterRuns.Op>, key: string) {
    forall i :: 0 <= i < |ops| ==> !ops[i].ClearAll? && !(ops[i].Clear? && ops[i].key == key)
  }

  /** The stored scores follow the log, and by the time they expire none of them counts any more. */
  ghost predicate Holds(store: Store, key: string, log: Log, window: int, now: real) {
    if key in store then
      && LimiterRuns.Follows(store[key].scores, log, window, now)
      && forall t :: t in store[key].scores ==> t + window as real <= store[key].expiresAt
    else LimiterRuns.Follows([], log, window, now)
  }

  lemma {:induction false} AllExpired(scores: seq<real>, cutoff: real)
    requires forall i :: 0 <= i < |scores| ==> scores[i] <= cutoff
    ensures WithoutUpTo(scores, cutoff) == []
  {
    if scores != [] {
      AllExpired(scores[..|scores| - 1], cutoff);
    }
  }

  /** Expiry is unobservable: what has expired had already left the window. */
  lemma ExpiryUnobservable(store: Store, key: string, log: Log, window: int, now: real)
    requires Holds(store, key, log, window, now)
    ensures WithoutUpTo(Visible(store, key, now), now - window as real) == Recent(log, now - window as real)
    ensures key in store ==>
              WithoutUpTo(Visible(store, key, now), now - window as real) ==
                WithoutUpTo(store[key].scores, now - window as real)
  {
    NoneRecent(now - window as real);
    if key in store && now >= store[key].expiresAt {
      var scores := store[key].scores;
      assert forall i :: 0 <= i < |scores| ==> scores[i] in scores;
      AllExpired(scores, now - window as real);
    }
  }

  lemma CeilingOfWhole(n: int)
    ensures Ceiling(n as real) == n
  {
  }

  lemma ExpiryIsWindow(window: int, now: real)
    ensures Expiry(window, now) == now + window as real
  {
    hide Ceiling;
    CeilingOfWhole(window * 1000);
    assert (window * 1000) as real == window as real * 1000.0;
    var ceiling := Ceiling(window as real * 1000.0) as real;
    assert ceiling == window as real * 1000.0;
    assert ceiling / 1000.0 == window as real;
  }

  lemma {:induction false} AppendsInOrder(scores: seq<real>, now: real)
    requires forall t :: t in scores ==> t <= now
    ensures WithScore(scores, now) == scores + [now]
  {
    if scores != [] {
      assert scores[|scores| - 1] in scores;
    }
  }

  lemma RecentFollows(log: Log, window: int, now: real)
    requires Ordered(log) && (forall t :: t in log ==> t <= now)
    ensures LimiterRuns.Follows(Recent(log, now - window as real), log, window, now)
  {
    RecentOrdered(log, now - window as real);
    RecentTwice(log, now - window as real, now - window as real);
  }

  /** One consume script answers from the log and stores what the log then holds. */
  lemma ConsumeHolds(store: Store, key: string, log: Log, limit: nat, window: int, now: real)
    requires Holds(store, key, log, window, now) && limit >= 1 && window >= 1
    requires Ordered(log) && forall t :: t in log ==> t <= now
    ensures var r := ConsumeScript(store, key, limit, window, now);
            && r.1 == Answer(log, limit, window, now, RedisRetry)
            && Holds(r.0, key, Logged(log, limit, window, now), window, now)
  {
    hide RedisRetry, Recent, LimiterRuns.Follows, Expiry, WithScore;
    ExpiryUnobservable(store, key, log, window, now);
    ExpiryIsWindow(window, now);
    var recent := Recent(log, now - window as real);
    RecentFollows(log, window, now);
    AppendsInOrder(recent, now);
    LimiterRuns.FollowsAppend(recent, log, window, now);
  }

  lemma StatusHolds(store: Store, key: string, log: Log, limit: nat, window: int, now: real)
    requires Holds(store, key, log, window, now) && limit >= 1 && window >= 1
    requires Ordered(log) && forall t :: t in log ==> t <= now
    ensures var r := StatusScript(store, key, limit, window, now);
            && r.1 == !Admits(log, limit, window, now)
            && Holds(r.0, key, log, window, now)
  {
    hide Recent, LimiterRuns.Follows, Expiry;
    ExpiryUnobservable(store, key, log, window, now);
    ExpiryIsWindow(window, now);
    RecentFollows(log, window, now);
  }

  lemma HoldsLater(store: Store, key: string, log: Log, window: int, now: real, later: real)
    requires Holds(store, key, log, window, now) && now <= later
    ensures Holds(store, key, log, window, later)
  {
    hide LimiterRuns.Follows;
    LimiterRuns.FollowsLater(if key in store then store[key].scores else [], log, window, now, later);
  }

  lemma NothingHeld(window: int, key: string, now: real)
    ensures Holds(map[], key, [], window, now)
  {
  }

  lemma OtherKeyHolds(store: Store, policy: LimiterRuns.Policy, op: LimiterRuns.Op, key: string, log: Log, now: real)
    requires policy.Valid() && Holds(store, key, log, policy.window(key), now)
    requires !op.ClearAll? && op.key != key
    ensures Holds(Apply(store, policy, op), key, log, policy.window(key), now)
  {
    hide LimiterRuns.Follows, Recent, WithScore, Expiry, RedisRetry;
  }

  lemma {:induction false} RunHolds(policy: LimiterRuns.Policy, ops: seq<LimiterRuns.Op>, key: string, now: real)
    requires policy.Valid() && LimiterRuns.Timed(ops) && LimiterRuns.NotAfter(ops, now) && NeverCleared(ops, key)
    ensures Holds(Run(policy, ops), key, LimiterRuns.LogOf(policy, ops, key), policy.window(key), now)
  {
    hide Holds, Logged;
    if ops == [] {
      NothingHeld(policy.window(key), key, now);
    } else {
      var init, op := ops[..|ops| - 1], ops[|ops| - 1];
      var time := if LimiterRuns.HasTime(op) then op.now else now;
      RunHolds(policy, init, key, time);
      LimiterRuns.LogInOrder(policy, init, key, time);
      var store, log := Run(policy, init), LimiterRuns.LogOf(policy, init, key);
      var limit, window := policy.limit(key), policy.window(key);
      if LimiterRuns.HasTime(op) && op.key == key {
        ConsumeHolds(store, key, log, limit, window, time);
        StatusHolds(store, key, log, limit, window, time);
      } else {
        OtherKeyHolds(store, policy, op, key, log, time);
      }
      HoldsLater(Run(policy, ops), key, LimiterRuns.LogOf(policy, ops, key), window, time, now);
    }
  }

  /**
   * On the same calls and the same clock, Redis and an in-process limiter that has forgotten
   * nothing about the key agree: same decision, same remaining count, hints within a second.
   */
  lemma BothLimitersAgree(maxKeys: nat, policy: LimiterRuns.Policy, ops: seq<LimiterRuns.Op>, key: string, now: real)
    requires maxKeys >= 1 && policy.Valid() && LimiterRuns.Timed(ops) && LimiterRuns.NotAfter(ops, now)
    requires LimiterRuns.Kept(maxKeys, policy, ops + [LimiterRuns.Consume(key, now)], key)
    requires LimiterRuns.WindowsCover(policy, ops, key) && NeverCleared(ops, key)
    ensures var memory := LimiterRuns.DecisionAfter(maxKeys, policy, ops, key, now);
            var redis := ConsumeScript(Run(policy, ops), key, policy.limit(key), policy.window(key), now).1;
            && memory.allowed == redis.allowed && memory.remaining == redis.remaining
            && redis.retryAfter <= memory.retryAfter <= redis.retryAfter + 1
    ensures Peeked(LimiterRuns.Run(maxKeys, policy, ops), key, policy.limit(key), policy.window(key), now).1 ==
            StatusScript(Run(policy, ops), key, policy.limit(key), policy.window(key), now).1
  {
    hide LimiterRuns.DecisionAfter, ConsumeScript, StatusScript, Holds, LimiterRuns.Run, Peeked, RetryAfter, RedisRetry,
         LimiterRuns.Kept, LimiterRuns.WindowsCover, LimiterRuns.Timed, LimiterRuns.NotAfter, LimiterRuns.LogOf,
         NeverCleared, Recent;
    LimiterRuns.AnswersFromLog(maxKeys, policy, ops, key, now);
    RunHolds(policy, ops, key, now);
    LimiterRuns.LogInOrder(policy, ops, key, now);
    var log, window := LimiterRuns.LogOf(policy, ops, key), policy.window(key);
    ConsumeHolds(Run(policy, ops), key, log, policy.limit(key), window, now);
    StatusHolds(Run(policy, ops), key, log, policy.limit(key), window, now);
    var recent := Recent(log, now - window as real);
    if |recent| >= policy.limit(key) {
      assert recent[0] in recent;
      HintsCover(window, now, recent[0]);
    }
  }

  /** After a denial, and any calls about other keys, a call that waits out the script's hint is admitted. */
  lemma WaitingIsEnough(policy: LimiterRuns.Policy, ops: seq<LimiterRuns.Op>, key: string, now: real,
                        others: seq<LimiterRuns.Op>, later: real)
    requires policy.Valid() && LimiterRuns.Timed(ops) && LimiterRuns.NotAfter(ops, now)
    requires !ConsumeScript(Run(policy, ops), key, policy.limit(key), policy.window(key), now).1.allowed
    requires later >= now
             + ConsumeScript(Run(policy, ops), key, policy.limit(key), policy.window(key), now).1.retryAfter as real
    requires LimiterRuns.NoneConsumes(others, key)
    requires var all := ops + [LimiterRuns.Consume(key, now)] + others;
             LimiterRuns.Timed(all) && LimiterRuns.NotAfter(all, later) && NeverCleared(all, key)
    ensures var all := ops + [LimiterRuns.Consume(key, now)] + others;
            ConsumeScript(Run(policy, all), key, policy.limit(key), policy.window(key), later).1.allowed
  {
    hide ConsumeScript, Holds, Run, RetryAfter, RedisRetry, Recent, LimiterRuns.LogOf, Admits, Answer;
    var all := ops + [LimiterRuns.Consume(key, now)] + others;
    var log, limit, window := LimiterRuns.LogOf(policy, ops, key), policy.limit(key), policy.window(key);
    assert NeverCleared(ops, key) by {
      assert forall i :: 0 <= i < |ops| ==> all[i] == ops[i];
    }
    RunHolds(policy, ops, key, now);
    LimiterRuns.LogInOrder(policy, ops, key, now);
    ConsumeHolds(Run(policy, ops), key, log, limit, window, now);
    LimiterRuns.HintOfLog(log, limit, window, now, RedisRetry);
    LimiterRuns.HintPasses(policy, ops, key, now, later, RedisRetry);
    LimiterRuns.LogAfterDenial(policy, ops, key, now, others);
    RunHolds(policy, all, key, later);
    LimiterRuns.LogInOrder(policy, all, key, later);
    ConsumeHolds(Run(policy, all), key, log, limit, window, later);
    LimiterRuns.HintOfLog(log, limit, window, later, RedisRetry);
  }
}
