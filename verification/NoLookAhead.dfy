/** What a run has done after some bars does not depend on the bars that follow. */
module NoLookAhead {
  import opened Core
  import opened Market
  import opened Strategies
  import opened EventEngine

  /** An event without the time its order is due, which is the next bar's timestamp. */
  function WithoutDueTime(e: Event): Event {
    match e
    case OrderEvent(timestamp, side, _, reason) => OrderEvent(timestamp, side, 0, reason)
    case _ => e
  }

  /** Equal but for the due time of the order just placed. */
  ghost predicate SameSoFar(a: Sim, b: Sim) {
    && a.book.cash == b.book.cash && a.book.quantity == b.book.quantity
    && a.book.trades == b.book.trades
    && |a.book.events| == |b.book.events|
    && (forall i :: 0 <= i < |a.book.events| ==> WithoutDueTime(a.book.events[i]) == WithoutDueTime(b.book.events[i]))
    && a.previousEquity == b.previousEquity
    && a.equities == b.equities && a.dailyReturns == b.dailyReturns && a.points == b.points
    && a.pending.Some? == b.pending.Some?
    && (a.pending.Some? ==> a.pending.value.side == b.pending.value.side)
  }

  lemma {:induction false} EqualUntil(a: seq<Candle>, b: seq<Candle>, strategy: Strategy, config: Config, count: nat)
    requires Runnable(a, strategy, config) && Runnable(b, strategy, config)
    requires count < |a| && count < |b| && a[..count + 1] == b[..count + 1]
    ensures After(a, strategy, config, count) == After(b, strategy, config, count)
  {
    hide Bar, Strategy.Observed, DesiredAt, Runnable;
    if count > 0 {
      assert a[..count] == a[..count + 1][..count] && b[..count] == b[..count + 1][..count];
      EqualUntil(a, b, strategy, config, count - 1);
      assert a[count] == a[..count + 1][count] && b[count] == b[..count + 1][count];
      assert a[count - 1] == a[..count + 1][count - 1] && b[count - 1] == b[..count + 1][count - 1];
    }
  }

  lemma SignalledAlike(openBook: Book, timestamp: int, desired: int, a: int, b: int)
    ensures var s, t :=
      Signalled(openBook, timestamp, desired, Some(a)), Signalled(openBook, timestamp, desired, Some(b));
            && s.cash == t.cash && s.quantity == t.quantity && s.trades == t.trades
            && |s.events| == |t.events|
            && forall i :: 0 <= i < |s.events| ==> WithoutDueTime(s.events[i]) == WithoutDueTime(t.events[i])
  {
  }

  lemma SameEquity(a: Book, b: Book, price: real)
    requires a.cash == b.cash && a.quantity == b.quantity
    ensures EquityOf(a, price) == EquityOf(b, price)
  {
  }

  lemma BarAlike(before: Sim, bar: Candle, desired: int, a: int, b: int, config: Config)
    requires PositivePrices(bar) && config.Valid()
    ensures SameSoFar(Bar(before, bar, desired, Some(a), config), Bar(before, bar, desired, Some(b), config))
  {
    hide AtOpen, EquityOf, DailyReturn, RoundTo, Signalled, WithoutDueTime;
    var openBook := AtOpen(before.book, before.pending, bar, config);
    SignalledAlike(openBook, bar.timestamp, desired, a, b);
    SameEquity(Signalled(openBook, bar.timestamp, desired, Some(a)),
               Signalled(openBook, bar.timestamp, desired, Some(b)), bar.close);
  }

  lemma SameAsItself(s: Sim)
    ensures SameSoFar(s, s)
  {
  }

  /** The state after a bar that is not the last, from the state before it. */
  lemma LastBar(frame: seq<Candle>, strategy: Strategy, config: Config, count: nat)
    requires Runnable(frame, strategy, config) && 0 < count < |frame|
    ensures var before, observed := After(frame, strategy, config, count - 1), strategy.Observed(frame[..count]);
            After(frame, strategy, config, count) ==
            if before.Err? then before
            else if observed.Err? then Err(observed.error)
            else Ok(Bar(before.value, frame[count - 1], DesiredAt(observed.value, count - 1),
                        Some(frame[count].timestamp), config))
  {
    hide Strategy.Observed, DesiredAt, Bar;
  }

  /**
   * Two frames that agree on their first count bars, and go on after them in any way, have the
   * same cash, shares, trades, equity and points after those bars.
   */
  lemma NoLookAhead(a: seq<Candle>, b: seq<Candle>, strategy: Strategy, config: Config, count: nat)
    requires Runnable(a, strategy, config) && Runnable(b, strategy, config)
    requires count < |a| && count < |b| && a[..count] == b[..count]
    ensures match (After(a, strategy, config, count), After(b, strategy, config, count))
            case (Ok(s), Ok(t)) => SameSoFar(s, t)
            case (Err(e), Err(f)) => e == f
            case _ => false
  {
    hide Strategy.Observed, DesiredAt, Bar, SameSoFar, Runnable;
    if count == 0 {
      SameAsItself(Start(config));
    } else {
      var i := count - 1;
      assert a[..i + 1] == b[..i + 1];
      EqualUntil(a, b, strategy, config, i);
      assert a[i] == a[..count][i] && b[i] == b[..count][i];
      RunnableAt(a, strategy, config, i);
      LastBar(a, strategy, config, count);
      LastBar(b, strategy, config, count);
      hide After;
      var before, observed := After(a, strategy, config, i), strategy.Observed(a[..count]);
      if before.Ok? && observed.Ok? {
        BarAlike(before.value, a[i], DesiredAt(observed.value, i), a[count].timestamp, b[count].timestamp, config);
      }
    }
  }
}
