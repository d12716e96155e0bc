/** Trading strategies, among them the incrementally cached one (backend/app/backtest/strategies.py). */
module Strategies {
  import opened Core
  import opened Market
  import Patterns
  import PatternMeaning

  type Error = Patterns.Error

  /** The six columns a cached row is compared by; the price basis is not among them. */
  function Signature(c: Candle): Candle {
    c.(basis := Unknown)
  }

  function Signatures(candles: seq<Candle>): (r: seq<Candle>)
    ensures |r| == |candles|
    ensures forall i :: 0 <= i < |candles| ==> r[i] == Signature(candles[i])
  {
    seq(|candles|, i requires 0 <= i < |candles| => Signature(candles[i]))
  }

  // ----- the pattern strategy, evaluated from scratch -----

  function Directional(patterns: seq<Patterns.Pattern>, minimum: real): seq<Patterns.Pattern> {
    if patterns == [] then []
    else
      (if patterns[0].direction != Patterns.Neutral && patterns[0].confidence >= minimum
       then [patterns[0]] else [])
      + Directional(patterns[1..], minimum)
  }

  /** The strongest directional pattern decides; without one the position is kept. */
  function Decide(patterns: seq<Patterns.Pattern>, minimum: real, current: int): int {
    var directional := Directional(patterns, minimum);
    if directional == [] then current
    else if directional[0].direction == Patterns.Upward then 1
    else 0
  }

  function LastOrZero(signals: seq<int>): int {
    if signals == [] then 0 else signals[|signals| - 1]
  }

  /** What the analysis of one row's trailing window gives. */
  function RowPatterns(rows: seq<Candle>, index: nat, window: nat): Result<seq<Patterns.Pattern>, Error>
    requires index < |rows|
  {
    Patterns.Analyze(LastN(rows[..index + 1], window))
  }

  /** The signals of the first count rows, each from its own trailing window and nothing else. */
  function Scratch(rows: seq<Candle>, count: nat, minimum: real, window: nat): (r: Result<seq<int>, Error>)
    requires count <= |rows|
    ensures r.Ok? ==> |r.value| == count
  {
    if count == 0 then Ok([])
    else
      var before :- Scratch(rows, count - 1, minimum, window);
      var patterns :- RowPatterns(rows, count - 1, window);
      Ok(before + [Decide(patterns, minimum, LastOrZero(before))])
  }

  // ----- what a signal means -----

  predicate Qualifies(p: Patterns.Pattern, minimum: real) {
    p.direction != Patterns.Neutral && p.confidence >= minimum
  }

  /** p outranks q: more confident, or as confident with the earlier name. */
  predicate Outranks(p: Patterns.Pattern, q: Patterns.Pattern) {
    p.confidence > q.confidence || (p.confidence == q.confidence && Patterns.Rank(p.name) < Patterns.Rank(q.name))
  }

  ghost predicate Strongest(patterns: seq<Patterns.Pattern>, minimum: real, p: Patterns.Pattern) {
    && p in patterns && Qualifies(p, minimum)
    && forall q :: q in patterns && Qualifies(q, minimum) ==> !Outranks(q, p)
  }

  /** A qualifying pattern that no other one outranks sets the position; with none it stays. */
  ghost predicate FollowsStrongest(patterns: seq<Patterns.Pattern>, minimum: real, before: int, signal: int) {
    && (forall p :: Strongest(patterns, minimum, p) ==> signal == if p.direction == Patterns.Upward then 1 else 0)
    && ((forall p :: p in patterns ==> !Qualifies(p, minimum)) ==> signal == before)
  }

  lemma {:induction false} DirectionalMembers(patterns: seq<Patterns.Pattern>, minimum: real)
    ensures forall p :: p in Directional(patterns, minimum) <==> p in patterns && Qualifies(p, minimum)
    ensures Directional(patterns, minimum) != [] ==>
              exists k :: 0 <= k < |patterns| && patterns[k] == Directional(patterns, minimum)[0]
                          && forall j :: 0 <= j < k ==> !Qualifies(patterns[j], minimum)
  {
    if patterns != [] {
      DirectionalMembers(patterns[1..], minimum);
      assert patterns == [patterns[0]] + patterns[1..];
      if !Qualifies(patterns[0], minimum) && Directional(patterns[1..], minimum) != [] {
        var k :| 0 <= k < |patterns| - 1 && patterns[1..][k] == Directional(patterns[1..], minimum)[0]
                 && forall j :: 0 <= j < k ==> !Qualifies(patterns[1..][j], minimum);
        assert patterns[k + 1] == Directional(patterns, minimum)[0];
        forall j | 0 <= j < k + 1
          ensures !Qualifies(patterns[j], minimum)
        {
          assert j > 0 ==> patterns[j] == patterns[1..][j - 1];
        }
      }
    }
  }

  lemma DecideFollows(window: seq<Candle>, minimum: real, before: int)
    requires Patterns.Analyze(window).Ok?
    ensures FollowsStrongest(Patterns.Analyze(window).value, minimum, before,
                             Decide(Patterns.Analyze(window).value, minimum, before))
  {
    hide Patterns.Analyze, Patterns.Rank;
    var patterns := Patterns.Analyze(window).value;
    var directional := Directional(patterns, minimum);
    DirectionalMembers(patterns, minimum);
    if directional != [] {
      var k :| 0 <= k < |patterns| && patterns[k] == directional[0]
               && forall j :: 0 <= j < k ==> !Qualifies(patterns[j], minimum);
      var first := patterns[k];
      assert first in directional;
      forall p | Strongest(patterns, minimum, p)
        ensures p.direction == first.direction
      {
        var i :| 0 <= i < |patterns| && patterns[i] == p;
        if k < i {
          PatternMeaning.ReportInOrder(window, k, i);
          assert !Outranks(first, p);
          PatternMeaning.RankIsUnique(first.name, p.name);
        }
        PatternMeaning.ReportNamed(window, p);
        PatternMeaning.ReportNamed(window, first);
      }
    } else {
      assert forall p :: p in patterns ==> !Qualifies(p, minimum);
    }
  }

  /** Every signal of a frame follows the strongest pattern of its row's window. */
  ghost predicate AllFollow(rows: seq<Candle>, signals: seq<int>, minimum: real, window: nat) {
    && |signals| <= |rows|
    && forall i :: 0 <= i < |signals| ==>
         && RowPatterns(rows, i, window).Ok?
         && FollowsStrongest(RowPatterns(rows, i, window).value, minimum, LastOrZero(signals[..i]), signals[i])
  }

  lemma RowDecided(rows: seq<Candle>, index: nat, minimum: real, window: nat, before: int)
    requires index < |rows| && RowPatterns(rows, index, window).Ok?
    ensures FollowsStrongest(RowPatterns(rows, index, window).value, minimum, before,
                             Decide(RowPatterns(rows, index, window).value, minimum, before))
  {
    hide Decide, FollowsStrongest, Patterns.Analyze;
    DecideFollows(LastN(rows[..index + 1], window), minimum, before);
  }

  lemma OneMoreFollows(rows: seq<Candle>, signals: seq<int>, signal: int, minimum: real, window: nat)
    requires AllFollow(rows, signals, minimum, window) && |signals| < |rows|
    requires RowPatterns(rows, |signals|, window).Ok?
    requires FollowsStrongest(RowPatterns(rows, |signals|, window).value, minimum, LastOrZero(signals), signal)
    ensures AllFollow(rows, signals + [signal], minimum, window)
  {
    hide RowPatterns, FollowsStrongest;
    var all := signals + [signal];
    assert all[..|signals|] == signals;
    assert forall i :: 0 <= i < |signals| ==> all[i] == signals[i] && all[..i] == signals[..i];
  }

  lemma {:induction false} ScratchFollows(rows: seq<Candle>, count: nat, minimum: real, window: nat)
    requires count <= |rows|
    ensures Scratch(rows, count, minimum, window).Ok? ==>
              AllFollow(rows, Scratch(rows, count, minimum, window).value, minimum, window)
  {
    if count > 0 && Scratch(rows, count, minimum, window).Ok? {
      hide Decide, FollowsStrongest, AllFollow, RowPatterns;
      ScratchFollows(rows, count - 1, minimum, window);
      var before := Scratch(rows, count - 1, minimum, window).value;
      RowDecided(rows, count - 1, minimum, window, LastOrZero(before));
      OneMoreFollows(rows, before, Decide(RowPatterns(rows, count - 1, window).value, minimum, LastOrZero(before)),
                     minimum, window);
    }
  }

  /** Rows after the first count do not matter. */
  lemma {:induction false} ScratchPrefix(a: seq<Candle>, b: seq<Candle>, count: nat, minimum: real, window: nat)
    requires count <= |a| && count <= |b| && a[..count] == b[..count]
    ensures Scratch(a, count, minimum, window) == Scratch(b, count, minimum, window)
  {
    hide Patterns.Analyze, Decide;
    if count > 0 {
      assert a[..count - 1] == a[..count][..count - 1];
      assert b[..count - 1] == b[..count][..count - 1];
      ScratchPrefix(a, b, count - 1, minimum, window);
    }
  }

  /** A failed row fails every longer evaluation, and the signals of a shorter one are a prefix. */
  lemma {:induction false} ScratchMonotone(rows: seq<Candle>, low: nat, high: nat, minimum: real, window: nat)
    requires low <= high <= |rows|
    ensures Scratch(rows, low, minimum, window).Err? ==>
              Scratch(rows, high, minimum, window) == Scratch(rows, low, minimum, window)
    ensures Scratch(rows, high, minimum, window).Ok? ==>
              && Scratch(rows, low, minimum, window).Ok?
              && Scratch(rows, low, minimum, window).value == Scratch(rows, high, minimum, window).value[..low]
    decreases high
  {
    hide RowPatterns, Decide;
    if low < high {
      ScratchMonotone(rows, low, high - 1, minimum, window);
    }
  }

  lemma LongWindowMatchesHistory(rows: seq<Candle>, index: nat, window: nat)
    requires window >= 60 && index < |rows|
    requires Ascending(rows) && Patterns.AllValid(rows)
    ensures RowPatterns(rows, index, window) == Patterns.Analyze(rows[..index + 1])
  {
    hide Patterns.Analyze;
    Patterns.WindowSuffices(rows[..index + 1], window);
  }

  /**
   * Any two windows of at least sixty candles give the same signals on a well-formed ascending
   * frame; taking the second as long as the frame, the window loses nothing against the history.
   */
  lemma {:induction false} AnyLongWindow(rows: seq<Candle>, count: nat, minimum: real, a: nat, b: nat)
    requires a >= 60 && b >= 60 && count <= |rows|
    requires Ascending(rows) && Patterns.AllValid(rows)
    ensures Scratch(rows, count, minimum, a) == Scratch(rows, count, minimum, b)
  {
    hide RowPatterns, Decide, Patterns.Analyze, Patterns.AllValid, Ascending;
    if count > 0 {
      AnyLongWindow(rows, count - 1, minimum, a, b);
      LongWindowMatchesHistory(rows, count - 1, a);
      LongWindowMatchesHistory(rows, count - 1, b);
    }
  }

  /** The same claim in the form the documentation makes it: window against full history. */
  lemma WindowMatchesHistory(rows: seq<Candle>, count: nat, minimum: real, window: nat)
    requires window >= 60 && 0 < count <= |rows|
    requires Ascending(rows) && Patterns.AllValid(rows)
    requires Scratch(rows, count, minimum, window).Ok?
    ensures Patterns.Analyze(rows[..count]).Ok?
    ensures Scratch(rows, count, minimum, window).value[count - 1] ==
            Decide(Patterns.Analyze(rows[..count]).value, minimum,
                   LastOrZero(Scratch(rows, count, minimum, window).value[..count - 1]))
  {
    hide Patterns.Analyze, Decide;
    LongWindowMatchesHistory(rows, count - 1, window);
  }

  /** What the cache holds for the rows two frames share is right for both. */
  lemma CommonPrefix(cached: seq<Candle>, rows: seq<Candle>, common: nat, minimum: real, window: nat, signals: seq<int>)
    requires common <= |cached| && common <= |rows| && cached[..common] == rows[..common]
    requires Scratch(cached, |cached|, minimum, window) == Ok(signals)
    ensures |signals| == |cached| && Scratch(rows, common, minimum, window) == Ok(signals[..common])
  {
    hide RowPatterns, Decide;
    ScratchMonotone(cached, common, |cached|, minimum, window);
    ScratchPrefix(rows, cached, common, minimum, window);
  }

  /** One round of the loop: a failed analysis fails the frame, a good one adds the row's signal. */
  lemma NextRow(rows: seq<Candle>, index: nat, signals: seq<int>, minimum: real, window: nat)
    requires index < |rows| && Scratch(rows, index, minimum, window) == Ok(signals)
    ensures var analysis := Patterns.Analyze(rows[Max(0, index - window + 1)..index + 1]);
            match analysis
            case Err(e) => Scratch(rows, |rows|, minimum, window) == Err(e)
            case Ok(patterns) =>
              Scratch(rows, index + 1, minimum, window) ==
                Ok(signals + [Decide(patterns, minimum, LastOrZero(signals))])
  {
    hide Patterns.Analyze, Decide;
    assert rows[Max(0, index - window + 1)..index + 1] == LastN(rows[..index + 1], window);
    ScratchMonotone(rows, index + 1, |rows|, minimum, window);
  }

  class PatternReferenceStrategy {
    const minimumConfidence: real
    const window: nat
    var signatures: seq<Candle>
    var signals: seq<int>

    /** The cache holds what evaluating its own rows from scratch would give. */
    ghost predicate Valid()
      reads this
    {
      Scratch(signatures, |signatures|, minimumConfidence, window) == Ok(signals)
    }

    constructor (minimumConfidence: real, window: nat)
      requires 0.0 <= minimumConfidence <= 1.0 && window >= 21
      ensures Valid() && signatures == [] && signals == []
      ensures this.minimumConfidence == minimumConfidence && this.window == window
    {
      this.minimumConfidence := minimumConfidence;
      this.window := window;
      signatures := [];
      signals := [];
    }

    function FromScratch(candles: seq<Candle>): (r: Result<seq<int>, Error>)
      ensures r.Ok? ==> |r.value| == |candles|
    {
      Scratch(Signatures(candles), |candles|, minimumConfidence, window)
    }

    /**
     * Whatever frames came before, and whether or not this one fails part-way, the answer is that
     * of an empty cache, and the cache stays good for the next frame.
     */
    method Signals(candles: seq<Candle>) returns (r: Result<seq<int>, Error>)
      requires Valid()
      modifies this
      ensures Valid()
      ensures r == FromScratch(candles)
      ensures r.Ok? ==> signatures == Signatures(candles) && signals == r.value
      ensures r.Ok? ==> AllFollow(Signatures(candles), r.value, minimumConfidence, window)
    {
      hide Patterns.Analyze, Decide, Scratch, AllFollow;
      var rows := Signatures(candles);
      var common := 0;
      while common < |rows| && common < |signatures| && rows[common] == signatures[common]
        invariant common <= |rows| && common <= |signatures|
        invariant rows[..common] == signatures[..common]
      {
        common := common + 1;
      }
      CommonPrefix(signatures, rows, common, minimumConfidence, window, signals);
      signatures := signatures[..common];
      signals := signals[..common];
      var desired := LastOrZero(signals);
      var index := common;
      while index < |rows|
        invariant common <= index <= |rows|
        invariant signatures == rows[..index]
        invariant Scratch(rows, index, minimumConfidence, window) == Ok(signals)
        invariant desired == LastOrZero(signals)
      {
        NextRow(rows, index, signals, minimumConfidence, window);
        var start := Max(0, index - window + 1);
        var analysis := Patterns.Analyze(rows[start..index + 1]);
        if analysis.Err? {
          assert Valid() by {
            ScratchPrefix(rows, signatures, index, minimumConfidence, window);
          }
          return Err(analysis.error);
        }
        desired := Decide(analysis.value, minimumConfidence, desired);
        signals := signals + [desired];
        signatures := signatures + [rows[index]];
        index := index + 1;
      }
      assert signatures == rows;
      ScratchFollows(rows, |rows|, minimumConfidence, window);
      r := Ok(signals);
    }
  }

  // ----- all strategies -----

  function ZeroPrefix(signals: seq<int>, count: nat): (r: seq<int>)
    ensures |r| == |signals|
    ensures forall i :: 0 <= i < |signals| ==> r[i] == if i < count then 0 else signals[i]
  {
    seq(|signals|, i requires 0 <= i < |signals| => if i < count then 0 else signals[i])
  }

  function SumOfCloses(candles: seq<Candle>): real {
    if candles == [] then 0.0 else SumOfCloses(candles[..|candles| - 1]) + candles[|candles| - 1].close
  }

  /** 1 when the fast mean is above the slow one; 0 while the slow window is not full. */
  function CrossSignal(candles: seq<Candle>, fast: nat, slow: nat, i: nat): int
    requires 0 < fast < slow && i < |candles|
  {
    if i + 1 < slow then 0
    else if SumOfCloses(candles[i + 1 - fast..i + 1]) / fast as real
            > SumOfCloses(candles[i + 1 - slow..i + 1]) / slow as real then 1
    else 0
  }

  lemma QuotientsCompare(a: real, m: real, b: real, n: real)
    requires m > 0.0 && n > 0.0
    ensures a / m > b / n <==> a * n > b * m
  {
    var x, y := a / m, b / n;
    assert x * m == a && y * n == b;
    assert a * n == x * (m * n) && b * m == y * (m * n);
    if x > y {
      assert x * (m * n) > y * (m * n);
    } else {
      assert x * (m * n) <= y * (m * n);
    }
  }

  /** The signal is 1 exactly when the slow mean has its candles and the fast mean is above it. */
  lemma CrossExactly(candles: seq<Candle>, fast: nat, slow: nat, i: nat)
    requires 0 < fast < slow && i < |candles|
    ensures CrossSignal(candles, fast, slow, i) == 0 || CrossSignal(candles, fast, slow, i) == 1
    ensures CrossSignal(candles, fast, slow, i) == 1 <==>
            && slow <= i + 1
            && SumOfCloses(candles[i + 1 - fast..i + 1]) * slow as real
               > SumOfCloses(candles[i + 1 - slow..i + 1]) * fast as real
  {
    hide SumOfCloses;
    if slow <= i + 1 {
      QuotientsCompare(SumOfCloses(candles[i + 1 - fast..i + 1]), fast as real,
                       SumOfCloses(candles[i + 1 - slow..i + 1]), slow as real);
    }
  }

  /** Every close on one side of a level: above it, or at or below it. */
  predicate AllBeyond(candles: seq<Candle>, level: real, above: bool) {
    forall i :: 0 <= i < |candles| ==> if above then candles[i].close > level else candles[i].close <= level
  }

  lemma {:induction false} SumBeyond(candles: seq<Candle>, level: real, above: bool)
    requires AllBeyond(candles, level, above)
    ensures above ==> SumOfCloses(candles) >= |candles| as real * level
    ensures above && candles != [] ==> SumOfCloses(candles) > |candles| as real * level
    ensures !above ==> SumOfCloses(candles) <= |candles| as real * level
  {
    if candles != [] {
      SumBeyond(candles[..|candles| - 1], level, above);
    }
  }

  lemma {:induction false} SumOfParts(a: seq<Candle>, b: seq<Candle>)
    ensures SumOfCloses(a + b) == SumOfCloses(a) + SumOfCloses(b)
  {
    if b == [] {
      assert a + b == a;
    } else {
      assert (a + b)[..|a + b| - 1] == a + b[..|b| - 1];
      SumOfParts(a, b[..|b| - 1]);
    }
  }

  /** The mean of the later part is above the whole mean exactly when it is above the earlier part's. */
  lemma MeansCompare(earlier: real, later: real, m: real, n: real)
    requires m > 0.0 && n > 0.0
    ensures later / n > (earlier + later) / (m + n) <==> m * later > n * earlier
  {
    var x, y := later / n, (earlier + later) / (m + n);
    assert x * n == later && y * (m + n) == earlier + later;
    assert x * (m + n) == m * x + later;
    if x > y {
      assert x * (m + n) > y * (m + n);
      assert n * (m * x) > n * earlier;
      assert n * (m * x) == m * later;
    } else {
      assert x * (m + n) <= y * (m + n);
      assert n * (m * x) <= n * earlier;
      assert n * (m * x) == m * later;
    }
  }

  lemma LevelSeparates(earlier: real, later: real, m: real, n: real, level: real)
    requires m > 0.0 && n > 0.0
    ensures earlier <= m * level && later > n * level ==> m * later > n * earlier
    ensures earlier > m * level && later <= n * level ==> m * later <= n * earlier
  {
    if earlier <= m * level && later > n * level {
      assert m * later > m * (n * level);
      assert n * earlier <= n * (m * level);
    }
    if earlier > m * level && later <= n * level {
      assert m * later <= m * (n * level);
      assert n * earlier >= n * (m * level);
    }
  }

  /** Once the closes have crossed a level upward the signal is 1, and once downward it is 0. */
  lemma CrossFollowsTrend(candles: seq<Candle>, fast: nat, slow: nat, i: nat, level: real, up: bool)
    requires 0 < fast < slow <= i + 1 <= |candles|
    requires AllBeyond(candles[i + 1 - slow..i + 1 - fast], level, !up)
    requires AllBeyond(candles[i + 1 - fast..i + 1], level, up)
    ensures CrossSignal(candles, fast, slow, i) == if up then 1 else 0
  {
    hide SumOfCloses, AllBeyond;
    var earlier, later := candles[i + 1 - slow..i + 1 - fast], candles[i + 1 - fast..i + 1];
    SumBeyond(earlier, level, !up);
    SumBeyond(later, level, up);
    SumOfParts(earlier, later);
    assert earlier + later == candles[i + 1 - slow..i + 1];
    var m, n := (slow - fast) as real, fast as real;
    MeansCompare(SumOfCloses(earlier), SumOfCloses(later), m, n);
    LevelSeparates(SumOfCloses(earlier), SumOfCloses(later), m, n, level);
  }

  /** The strategies an engine can be given. HistoryFunction stands for any other one that is a
      function of the history it receives. */
  datatype Strategy =
    | BuyAndHold
    | MovingAverageCross(fast: nat, slow: nat)
    | PatternReference(cached: PatternReferenceStrategy)
    | HistoryFunction(observe: seq<Candle> -> Result<seq<int>, Error>)
    | Activation(delegate: Strategy, activationIndex: nat)
  {
    predicate WellFormed() {
      match this
      case MovingAverageCross(fast, slow) => 0 < fast < slow
      case Activation(delegate, _) => delegate.WellFormed()
      case _ => true
    }

    ghost function Repr(): set<object> {
      match this
      case PatternReference(cached) => {cached}
      case Activation(delegate, _) => delegate.Repr()
      case _ => {}
    }

    ghost predicate Valid()
      reads Repr()
    {
      && WellFormed()
      && match this
         case PatternReference(cached) => cached.Valid()
         case Activation(delegate, _) => delegate.Valid()
         case _ => true
    }

    /** The signals as a function of the frame alone. */
    function Observed(candles: seq<Candle>): Result<seq<int>, Error>
      requires WellFormed()
    {
      match this
      case BuyAndHold => Ok(seq(|candles|, _ => 1))
      case MovingAverageCross(fast, slow) =>
        Ok(seq(|candles|, i requires 0 <= i < |candles| => CrossSignal(candles, fast, slow, i)))
      case PatternReference(cached) => cached.FromScratch(candles)
      case HistoryFunction(observe) => observe(candles)
      case Activation(delegate, activationIndex) =>
        var signals :- delegate.Observed(candles);
        Ok(ZeroPrefix(signals, activationIndex))
    }

    /** strategy.signals(candles), run on the object with whatever its cache holds. */
    method Signals(candles: seq<Candle>) returns (r: Result<seq<int>, Error>)
      requires Valid()
      modifies Repr()
      ensures Valid()
      ensures r == Observed(candles)
      decreases this
    {
      match this
      case BuyAndHold => r := Ok(seq(|candles|, _ => 1));
      case MovingAverageCross(fast, slow) =>
        r := Ok(seq(|candles|, i requires 0 <= i < |candles| => CrossSignal(candles, fast, slow, i)));
      case PatternReference(cached) => r := cached.Signals(candles);
      case HistoryFunction(observe) => r := observe(candles);
      case Activation(delegate, activationIndex) =>
        var signals :- delegate.Signals(candles);
        r := Ok(ZeroPrefix(signals, activationIndex));
    }
  }

  lemma {:induction false} ReprAllocated(strategy: Strategy)
    ensures forall o :: o in strategy.Repr() ==> allocated(o)
    decreases strategy
  {
    if strategy.Activation? {
      ReprAllocated(strategy.delegate);
    }
  }

  /** reindex, fillna(0) and clip(0, 1) at one row. */
  function DesiredAt(signals: seq<int>, i: nat): (position: int)
    ensures position == 0 || position == 1
    ensures position == 1 <==> i < |signals| && signals[i] >= 1
  {
    if i < |signals| then Max(0, Min(1, signals[i])) else 0
  }

  /** Row k's signal needs only the rows up to k, which fail only if the whole frame does. */
  ghost predicate CausalAt(strategy: Strategy, candles: seq<Candle>, k: nat)
    requires strategy.WellFormed() && k < |candles|
  {
    var whole, prefix := strategy.Observed(candles), strategy.Observed(candles[..k + 1]);
    whole.Ok? ==> prefix.Ok? && DesiredAt(whole.value, k) == DesiredAt(prefix.value, k)
  }

  ghost predicate Causal(strategy: Strategy)
    requires strategy.WellFormed()
  {
    forall candles: seq<Candle>, k: nat | k < |candles| :: CausalAt(strategy, candles, k)
  }

  lemma MovingAverageCausal(fast: nat, slow: nat)
    requires 0 < fast < slow
    ensures Causal(MovingAverageCross(fast, slow))
  {
    forall candles: seq<Candle>, k: nat | k < |candles|
      ensures CausalAt(MovingAverageCross(fast, slow), candles, k)
    {
      var short := candles[..k + 1];
      if k + 1 >= slow {
        assert short[k + 1 - fast..k + 1] == candles[k + 1 - fast..k + 1];
        assert short[k + 1 - slow..k + 1] == candles[k + 1 - slow..k + 1];
      }
      assert CrossSignal(candles, fast, slow, k) == CrossSignal(short, fast, slow, k);
    }
  }

  /** The cached strategy is causal too, because it equals its evaluation from scratch. */
  lemma PatternReferenceCausal(cached: PatternReferenceStrategy)
    ensures Causal(PatternReference(cached))
  {
    hide Patterns.Analyze, Decide;
    var strategy := PatternReference(cached);
    forall candles: seq<Candle>, k: nat | k < |candles|
      ensures CausalAt(strategy, candles, k)
    {
      var rows, short := Signatures(candles), Signatures(candles[..k + 1]);
      assert rows[..k + 1] == short[..k + 1];
      ScratchMonotone(rows, k + 1, |rows|, cached.minimumConfidence, cached.window);
      ScratchPrefix(rows, short, k + 1, cached.minimumConfidence, cached.window);
      assert strategy.Observed(candles) == Scratch(rows, |rows|, cached.minimumConfidence, cached.window);
      assert strategy.Observed(candles[..k + 1]) == Scratch(short, k + 1, cached.minimumConfidence, cached.window);
    }
  }

  lemma ActivationCausal(delegate: Strategy, activationIndex: nat)
    requires delegate.WellFormed() && Causal(delegate)
    ensures Causal(Activation(delegate, activationIndex))
  {
    var strategy := Activation(delegate, activationIndex);
    forall candles: seq<Candle>, k: nat | k < |candles|
      ensures CausalAt(strategy, candles, k)
    {
      assert CausalAt(delegate, candles, k);
    }
  }
}
