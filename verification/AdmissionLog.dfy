/** The specification both limiters implement: a log of admitted times, never forgotten. */
module AdmissionLog {
  import opened Core
  import opened RateLimit

  type Log = seq<real>

  /** The admissions after the cutoff. */
  function Recent(log: Log, cutoff: real): (r: Log)
    ensures forall t :: t in r <==> t in log && t > cutoff
    ensures |r| <= |log|
  {
    if log == [] then []
    else
      var rest := Recent(log[..|log| - 1], cutoff);
      assert log == log[..|log| - 1] + [log[|log| - 1]];
      if log[|log| - 1] > cutoff then rest + [log[|log| - 1]] else rest
  }

  predicate Ordered(log: Log) {
    forall i, j :: 0 <= i < j < |log| ==> log[i] <= log[j]
  }

  lemma {:induction false} RecentTwice(log: Log, a: real, b: real)
    requires a <= b
    ensures Recent(Recent(log, a), b) == Recent(log, b)
  {
    if log != [] {
      var init, last := log[..|log| - 1], log[|log| - 1];
      RecentTwice(init, a, b);
      if last > a {
        var rest := Recent(init, a);
        assert (rest + [last])[..|rest|] == rest;
      }
    }
  }

  lemma {:induction false} RecentAll(log: Log, cutoff: real)
    requires forall t :: t in log ==> t > cutoff
    ensures Recent(log, cutoff) == log
  {
    if log != [] {
      var init, last := log[..|log| - 1], log[|log| - 1];
      assert log == init + [last];
      assert last in log;
      forall t | t in init
        ensures t > cutoff
      {
        assert t in log;
      }
      RecentAll(init, cutoff);
    }
  }

  lemma NoneRecent(cutoff: real)
    ensures Recent([], cutoff) == []
  {
  }

  lemma RecentAppend(log: Log, t: real, cutoff: real)
    ensures Recent(log + [t], cutoff) == if t > cutoff then Recent(log, cutoff) + [t] else Recent(log, cutoff)
  {
    assert (log + [t])[..|log|] == log;
  }

  lemma {:induction false} RecentFront(t: real, log: Log, cutoff: real)
    ensures Recent([t] + log, cutoff) == if t > cutoff then [t] + Recent(log, cutoff) else Recent(log, cutoff)
  {
    if log == [] {
      assert [t] + log == [t] && [t][..0] == [];
    } else {
      assert ([t] + log)[..|log|] == [t] + log[..|log| - 1];
      RecentFront(t, log[..|log| - 1], cutoff);
    }
  }

  /** On an ordered deque, dropping from the front until the cutoff keeps exactly the recent ones. */
  lemma {:induction false} PrunedIsRecent(requests: Requests, cutoff: real)
    requires Ordered(requests)
    ensures Pruned(requests, cutoff) == Recent(requests, cutoff)
    ensures Ordered(Pruned(requests, cutoff))
  {
    if requests != [] {
      assert requests == [requests[0]] + requests[1..];
      RecentFront(requests[0], requests[1..], cutoff);
      if requests[0] <= cutoff {
        PrunedIsRecent(requests[1..], cutoff);
      } else {
        forall t | t in requests
          ensures t > cutoff
        {
          var i :| 0 <= i < |requests| && requests[i] == t;
        }
        RecentAll(requests, cutoff);
      }
    }
  }

  /** Admit while fewer than limit admissions lie in the last window; remember every one. */
  function Admits(log: Log, limit: nat, window: int, now: real): bool {
    |Recent(log, now - window as real)| < limit
  }

  function Logged(log: Log, limit: nat, window: int, now: real): Log {
    if Admits(log, limit, window, now) then log + [now] else log
  }

  /** The answer computed from the log, up to how the waiting time is rounded. */
  function Answer(log: Log, limit: nat, window: int, now: real, rounding: (int, real, real) -> int): (r: Decision)
    requires limit >= 1
  {
    var recent := Recent(log, now - window as real);
    if |recent| >= limit then Decision(false, 0, rounding(window, now, recent[0]))
    else Decision(true, limit - |recent| - 1, 0)
  }

  // ----- what the specification guarantees -----

  function InWindow(log: Log, start: real, end: real): Log {
    if log == [] then []
    else
      var rest := InWindow(log[..|log| - 1], start, end);
      var last := log[|log| - 1];
      if start <= last < end then rest + [last] else rest
  }

  lemma {:induction false} WindowWithinRecent(log: Log, start: real, end: real, cutoff: real)
    requires cutoff < start
    ensures |InWindow(log, start, end)| <= |Recent(log, cutoff)|
  {
    if log != [] {
      WindowWithinRecent(log[..|log| - 1], start, end, cutoff);
    }
  }

  /** Every admission in the log was made under the limit. */
  ghost predicate Disciplined(log: Log, limit: nat, window: int) {
    forall i :: 0 <= i < |log| ==> Admits(log[..i], limit, window, log[i])
  }

  lemma LoggedDisciplined(log: Log, limit: nat, window: int, now: real)
    requires Disciplined(log, limit, window)
    ensures Disciplined(Logged(log, limit, window, now), limit, window)
  {
    var after := Logged(log, limit, window, now);
    forall i | 0 <= i < |after|
      ensures Admits(after[..i], limit, window, after[i])
    {
      assert after[..i] == log[..i];
      if i == |log| {
        assert log[..i] == log;
      }
    }
  }

  lemma DisciplinedInit(log: Log, limit: nat, window: int)
    requires Disciplined(log, limit, window) && log != []
    ensures Disciplined(log[..|log| - 1], limit, window)
    ensures Admits(log[..|log| - 1], limit, window, log[|log| - 1])
  {
    hide Admits;
    var init := log[..|log| - 1];
    forall i | 0 <= i < |init|
      ensures Admits(init[..i], limit, window, init[i])
    {
      assert init[i] == log[i] && init[..i] == log[..i];
    }
  }

  /** At most limit admissions fall in any half-open stretch of one window's length. */
  lemma {:induction false} AtMostLimit(log: Log, limit: nat, window: int, start: real)
    requires Disciplined(log, limit, window)
    ensures |InWindow(log, start, start + window as real)| <= limit
  {
    hide Disciplined, Recent;
    if log != [] {
      var init, last := log[..|log| - 1], log[|log| - 1];
      DisciplinedInit(log, limit, window);
      AtMostLimit(init, limit, window, start);
      if start <= last < start + window as real {
        WindowWithinRecent(init, start, start + window as real, last - window as real);
      }
    }
  }

  /** So the recent admissions never outnumber the limit, at any time not before the last one. */
  lemma {:induction false} RecentWithinLimit(log: Log, limit: nat, window: int, now: real)
    requires Disciplined(log, limit, window) && forall t :: t in log ==> t <= now
    ensures |Recent(log, now - window as real)| <= limit
  {
    NoneRecent(now - window as real);
    hide Disciplined, Recent;
    if log != [] {
      var init, last := log[..|log| - 1], log[|log| - 1];
      assert log == init + [last];
      DisciplinedInit(log, limit, window);
      assert last in log;
      forall t | t in init
        ensures t <= now
      {
        assert t in log;
      }
      RecentWithinLimit(init, limit, window, now);
      RecentAppend(init, last, now - window as real);
      RecentTwice(init, last - window as real, now - window as real);
    }
  }

  lemma {:induction false} RecentShrinks(recent: Log, cutoff: real)
    requires recent != [] && Ordered(recent) && recent[0] <= cutoff
    ensures |Recent(recent, cutoff)| < |recent|
  {
    assert recent == [recent[0]] + recent[1..];
    RecentFront(recent[0], recent[1..], cutoff);
  }

  lemma {:induction false} RecentOrdered(log: Log, cutoff: real)
    requires Ordered(log)
    ensures Ordered(Recent(log, cutoff))
  {
    if log != [] {
      var init, last := log[..|log| - 1], log[|log| - 1];
      RecentOrdered(init, cutoff);
      var rest := Recent(init, cutoff);
      forall i | 0 <= i < |rest|
        ensures rest[i] <= last
      {
        assert rest[i] in rest;
        var j :| 0 <= j < |init| && init[j] == rest[i];
      }
    }
  }

  /** After a denial, waiting out any hint no shorter than the oldest admission's remaining time is enough. */
  lemma RetrySucceeds(log: Log, limit: nat, window: int, now: real, later: real)
    requires limit >= 1 && window >= 1
    requires Ordered(log) && Disciplined(log, limit, window) && forall t :: t in log ==> t <= now
    requires !Admits(log, limit, window, now)
    requires later >= now + (window as real - (now - Recent(log, now - window as real)[0]))
    ensures Admits(log, limit, window, later)
  {
    hide Disciplined, Recent, Ordered;
    var recent := Recent(log, now - window as real);
    RecentWithinLimit(log, limit, window, now);
    RecentOrdered(log, now - window as real);
    assert recent[0] in recent;
    RecentShrinks(recent, later - window as real);
    RecentTwice(log, now - window as real, later - window as real);
  }

  /** math.ceil */
  function Ceiling(x: real): int {
    -(-x).Floor
  }

  function RedisRetry(window: int, now: real, oldest: real): int {
    Max(1, Ceiling(window as real - (now - oldest)))
  }

  // ----- what an answer means -----

  function Repeats(log: Log, now: real, count: nat): Log {
    log + seq(count, _ => now)
  }

  lemma {:induction false} RepeatsRecent(log: Log, now: real, cutoff: real, count: nat)
    requires now > cutoff
    ensures |Recent(Repeats(log, now, count), cutoff)| == |Recent(log, cutoff)| + count
  {
    if count == 0 {
      assert Repeats(log, now, 0) == log;
    } else {
      RepeatsRecent(log, now, cutoff, count - 1);
      assert Repeats(log, now, count) == Repeats(log, now, count - 1) + [now];
      RecentAppend(Repeats(log, now, count - 1), now, cutoff);
    }
  }

  /**
   * The remaining count is how many more calls at the same instant get in after an admitted one: with k of them
   * admitted in all, the next is admitted exactly while k is at most the count.
   */
  lemma RemainingIsExact(log: Log, limit: nat, window: int, now: real, rounding: (int, real, real) -> int, k: nat)
    requires limit >= 1 && window >= 1
    ensures var answer := Answer(log, limit, window, now, rounding);
            && (answer.allowed <==> Admits(log, limit, window, now))
            && (answer.allowed ==>
                  answer.retryAfter == 0 &&
                  (Admits(Repeats(log, now, k), limit, window, now) <==> k <= answer.remaining))
            && (!answer.allowed ==> answer.remaining == 0)
  {
    RepeatsRecent(log, now, now - window as real, k);
  }

  /** Both hints cover the remaining time, in whole seconds; on a whole one the in-process limiter adds a second. */
  lemma HintsCover(window: int, now: real, oldest: real)
    requires now - window as real < oldest <= now
    ensures RetryAfter(window, now, oldest) as real > window as real - (now - oldest)
    ensures RedisRetry(window, now, oldest) as real >= window as real - (now - oldest)
    ensures RedisRetry(window, now, oldest) <= RetryAfter(window, now, oldest) <= RedisRetry(window, now, oldest) + 1
    ensures RedisRetry(window, now, oldest) as real < window as real - (now - oldest) + 1.0
    ensures RetryAfter(window, now, oldest) as real <= window as real - (now - oldest) + 1.0
  {
  }
}
