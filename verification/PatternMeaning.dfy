/** What the detector's patterns say about the candles (backend/app/patterns/engine.py). */
module PatternMeaning {
  import opened Core
  import opened Market
  import opened Patterns
  import opened Sorting

  // ----- the order of the report -----

  lemma StrongerFirstOrders()
    ensures TotalPreorder(StrongerFirst)
  {
  }

  /** The report lists higher confidences first and breaks ties by name. */
  lemma ReportInOrder(candles: seq<Candle>, i: nat, j: nat)
    requires Analyze(candles).Ok? && i < j < |Analyze(candles).value|
    ensures var a, b := Analyze(candles).value[i], Analyze(candles).value[j];
            a.confidence > b.confidence || (a.confidence == b.confidence && Rank(a.name) <= Rank(b.name))
  {
    hide LatestCandlestick, Breakout, Reversal, Sort, SortByTime, Rank;
    var ordered := SortByTime(candles);
    StrongerFirstOrders();
    if ordered != [] {
      SortSorts(StrongerFirst, LatestCandlestick(ordered) + Breakout(ordered).value + Reversal(LastN(ordered, 60)));
    }
  }

  lemma RankIsUnique(a: Name, b: Name)
    ensures Rank(a) == Rank(b) ==> a == b
  {
  }

  /** The name a pattern is reported under. */
  function Text(name: Name): string {
    match name
    case BearishEngulfing => "bearish_engulfing"
    case BullishEngulfing => "bullish_engulfing"
    case Doji => "doji"
    case DoubleBottomConfirmed => "double_bottom_confirmed"
    case DoubleTopConfirmed => "double_top_confirmed"
    case Hammer => "hammer"
    case RangeBreakoutDown => "range_breakout_down"
    case RangeBreakoutUp => "range_breakout_up"
    case ShootingStar => "shooting_star"
  }

  /** Two texts that first differ at a place are ordered by what stands there. */
  lemma {:induction false} DifferAt(a: string, b: string, at: nat)
    requires at < |a| && at < |b| && a[at] < b[at] && forall j :: 0 <= j < at ==> a[j] == b[j]
    ensures TextLeq(a, b) && !TextLeq(b, a)
    decreases at
  {
    if at > 0 {
      DifferAt(a[1..], b[1..], at - 1);
    }
  }

  lemma NextName(a: Name, b: Name)
    requires Rank(b) == Rank(a) + 1
    ensures TextLeq(Text(a), Text(b)) && !TextLeq(Text(b), Text(a))
  {
    hide TextLeq;
    DifferAt(Text(a), Text(b),
             match a
             case BearishEngulfing => 1
             case Doji => 2
             case DoubleBottomConfirmed => 7
             case RangeBreakoutDown => 15
             case _ => 0);
  }

  /** The rank of a name is its place in string order. */
  lemma {:induction false} RankIsAlphabetical(a: Name, b: Name)
    ensures TextLeq(Text(a), Text(b)) <==> Rank(a) <= Rank(b)
    decreases if Rank(a) <= Rank(b) then Rank(b) - Rank(a) else Rank(a) - Rank(b)
  {
    hide Text, TextLeq;
    if Rank(a) == Rank(b) {
      RankIsUnique(a, b);
      TextTotal(Text(a), Text(a));
    } else {
      var low, high := if Rank(a) < Rank(b) then a else b, if Rank(a) < Rank(b) then b else a;
      var next :| Rank(next) == Rank(low) + 1;
      NextName(low, next);
      RankIsAlphabetical(next, high);
      TextTransitive(Text(low), Text(next), Text(high));
      if TextLeq(Text(high), Text(low)) {
        TextTransitive(Text(next), Text(high), Text(low));
      }
    }
  }

  /** What is reported: the three searches' findings and nothing else. */
  lemma ReportedFrom(candles: seq<Candle>, p: Pattern)
    requires Analyze(candles).Ok? && candles != []
    ensures var ordered := SortByTime(candles);
            && ordered != [] && AllValid(ordered) && Breakout(ordered).Ok?
            && (p in Analyze(candles).value <==>
                p in LatestCandlestick(ordered) || p in Breakout(ordered).value || p in Reversal(LastN(ordered, 60)))
  {
    hide LatestCandlestick, Breakout, Reversal, Sort, SortByTime, StrongerFirst, AllValid;
    var ordered := SortByTime(candles);
    SortMembers(StrongerFirst, LatestCandlestick(ordered) + Breakout(ordered).value + Reversal(LastN(ordered, 60)));
  }

  // ----- directions -----

  function DirectionOf(name: Name): Direction {
    match name
    case BullishEngulfing | DoubleBottomConfirmed | Hammer | RangeBreakoutUp => Upward
    case BearishEngulfing | DoubleTopConfirmed | RangeBreakoutDown | ShootingStar => Downward
    case Doji => Neutral
  }

  /** The direction its name has, and the confidence its name allows. */
  ghost predicate Named(p: Pattern) {
    && p.direction == DirectionOf(p.name)
    && match p.name
       case Doji => p.confidence == 0.68
       case Hammer | ShootingStar => p.confidence == 0.72
       case BullishEngulfing | BearishEngulfing => p.confidence == 0.78
       case RangeBreakoutUp | RangeBreakoutDown => 0.68 <= p.confidence <= 0.90
       case DoubleTopConfirmed | DoubleBottomConfirmed => 0.76 <= p.confidence <= 0.85
  }

  lemma RoundedExactly(n: int, x: real)
    requires x * 10000.0 == n as real
    ensures RoundTo(x, 10000.0) == x
  {
  }

  lemma RoundedWithin(x: real)
    requires 0.68 <= x <= 0.90
    ensures 0.68 <= RoundTo(x, 10000.0) <= 0.90
    ensures 0.76 <= x <= 0.85 ==> 0.76 <= RoundTo(x, 10000.0) <= 0.85
  {
  }

  lemma BreakoutConfidence(excess: real, span: real)
    requires excess > 0.0 && span > 0.0
    ensures 0.68 <= MinReal(0.90, 0.68 + (excess / span) * 2.0) <= 0.90
  {
    assert excess / span >= 0.0;
  }

  lemma SingleNamed(latest: Candle, p: Pattern)
    requires p in SingleCandle(latest)
    ensures Named(p)
  {
    hide RoundTo, MaxReal, MinReal, Abs;
    RoundedExactly(6800, 0.68);
    RoundedExactly(7200, 0.72);
  }

  lemma EngulfingNamed(previous: Candle, latest: Candle, p: Pattern)
    requires p in Engulfing(previous, latest)
    ensures Named(p)
  {
    hide RoundTo;
    RoundedExactly(7800, 0.78);
  }

  lemma LatestNamed(candles: seq<Candle>, p: Pattern)
    requires candles != [] && p in LatestCandlestick(candles)
    ensures Named(p)
  {
    hide SingleCandle, Engulfing, Named;
    var latest := candles[|candles| - 1];
    if p in SingleCandle(latest) {
      SingleNamed(latest, p);
    } else {
      EngulfingNamed(candles[|candles| - 2], latest, p);
    }
  }

  lemma BreakoutNamed(candles: seq<Candle>, p: Pattern)
    requires Breakout(candles).Ok? && p in Breakout(candles).value
    ensures Named(p)
  {
    hide RoundTo, MinReal, HighestHigh, LowestLow;
    var previous, latest := candles[|candles| - 21..|candles| - 1], candles[|candles| - 1];
    var upper, lower := HighestHigh(previous), LowestLow(previous);
    var span := MaxReal(upper - lower, Abs(latest.close) * 0.001);
    assert span > 0.0;
    var excess := if latest.close > upper then latest.close - upper else lower - latest.close;
    BreakoutConfidence(excess, span);
    RoundedWithin(MinReal(0.90, 0.68 + (excess / span) * 2.0));
  }

  lemma SimilarityNotNegative(candles: seq<Candle>, top: bool, left: int, right: int)
    requires 0 <= left < |candles| && 0 <= right < |candles|
    requires ExtremePrice(candles[left], top) + ExtremePrice(candles[right], top) > 0.0
    ensures Similarity(candles, top, left, right) >= 0.0
  {
  }

  lemma DoubleNamed(candles: seq<Candle>, top: bool, p: Pattern)
    requires p in DoublePattern(candles, top)
    ensures Named(p)
  {
    hide RoundTo, FindDouble, IsExtremum;
    FindDoubleIsLatest(candles, top);
    var pair := FindDouble(candles, top).value;
    SimilarityNotNegative(candles, top, pair.0, pair.1);
    RoundedWithin(MinReal(0.90, 0.76 + (0.03 - Similarity(candles, top, pair.0, pair.1)) * 3.0));
  }

  lemma NothingInNothing(candles: seq<Candle>)
    ensures candles == [] ==> Analyze(candles) == Ok([])
  {
  }

  /** A pattern's name fixes its direction, and its confidence or the range of it. */
  lemma ReportNamed(candles: seq<Candle>, p: Pattern)
    requires Analyze(candles).Ok? && p in Analyze(candles).value
    ensures Named(p)
  {
    hide LatestCandlestick, Breakout, DoublePattern, SortByTime, Analyze;
    NothingInNothing(candles);
    var ordered := SortByTime(candles);
    ReportedFrom(candles, p);
    if p in LatestCandlestick(ordered) {
      LatestNamed(ordered, p);
    } else if p in Breakout(ordered).value {
      BreakoutNamed(ordered, p);
    } else {
      var tail := LastN(ordered, 60);
      assert p in DoublePattern(tail, true) || p in DoublePattern(tail, false);
      if p in DoublePattern(tail, true) {
        DoubleNamed(tail, true, p);
      } else {
        DoubleNamed(tail, false, p);
      }
    }
  }

  // ----- when a direction is reported -----

  ghost predicate Reports(candles: seq<Candle>, name: Name)
    requires Analyze(candles).Ok?
  {
    exists p :: p in Analyze(candles).value && p.name == name
  }

  /** The last close stands above every high, or below every low, of the twenty candles before it. */
  ghost predicate BreaksOut(candles: seq<Candle>, up: bool) {
    && |candles| >= 21
    && forall i :: |candles| - 21 <= i < |candles| - 1 ==>
         if up then candles[i].high < candles[|candles| - 1].close
         else candles[|candles| - 1].close < candles[i].low
  }

  lemma BeyondAll(candles: seq<Candle>, previous: seq<Candle>)
    requires |candles| >= 21 && previous == candles[|candles| - 21..|candles| - 1]
    ensures BreaksOut(candles, true) <==> HighestHigh(previous) < candles[|candles| - 1].close
    ensures BreaksOut(candles, false) <==> candles[|candles| - 1].close < LowestLow(previous)
  {
    hide HighestHigh, LowestLow;
    var high, low := HighestHigh(previous), LowestLow(previous);
    forall i | |candles| - 21 <= i < |candles| - 1
      ensures candles[i].high <= high && low <= candles[i].low
    {
      assert candles[i] == previous[i - (|candles| - 21)] && previous[i - (|candles| - 21)] in previous;
    }
    var top :| top in previous && top.high == high;
    var bottom :| bottom in previous && bottom.low == low;
    var a :| 0 <= a < |previous| && previous[a] == top;
    var b :| 0 <= b < |previous| && previous[b] == bottom;
    assert candles[a + |candles| - 21] == top && candles[b + |candles| - 21] == bottom;
  }

  lemma BreakoutSide(candles: seq<Candle>)
    requires Breakout(candles).Ok?
    ensures BreaksOut(candles, true) <==> exists p :: p in Breakout(candles).value && p.name == RangeBreakoutUp
    ensures BreaksOut(candles, false) && !BreaksOut(candles, true) <==>
            exists p :: p in Breakout(candles).value && p.name == RangeBreakoutDown
    ensures forall p :: p in Breakout(candles).value ==> p.name == RangeBreakoutUp || p.name == RangeBreakoutDown
  {
    hide HighestHigh, LowestLow, RoundTo, MinReal;
    if |candles| >= 21 {
      var previous, latest := candles[|candles| - 21..|candles| - 1], candles[|candles| - 1];
      BeyondAll(candles, previous);
      var found := Breakout(candles).value;
      if found != [] {
        assert found[0] in found;
      }
    }
  }

  /** The last candle's body reverses and covers the body before it. */
  predicate Engulfs(previous: Candle, latest: Candle, up: bool) {
    if up then latest.open <= previous.close < previous.open <= latest.close
    else latest.close <= previous.open < previous.close <= latest.open
  }

  lemma SingleNames(latest: Candle)
    ensures forall p :: p in SingleCandle(latest) ==> p.name == Doji || p.name == Hammer || p.name == ShootingStar
  {
    hide RoundTo;
  }

  lemma EngulfingSide(candles: seq<Candle>)
    requires |candles| >= 2 && AllValid(candles)
    ensures Engulfs(candles[|candles| - 2], candles[|candles| - 1], true) <==>
            exists p :: p in LatestCandlestick(candles) && p.name == BullishEngulfing
    ensures Engulfs(candles[|candles| - 2], candles[|candles| - 1], false) <==>
            exists p :: p in LatestCandlestick(candles) && p.name == BearishEngulfing
  {
    hide RoundTo;
    var previous, latest := candles[|candles| - 2], candles[|candles| - 1];
    assert ValidOhlc(latest);
    SingleNames(latest);
    var all := SingleCandle(latest) + Engulfing(previous, latest);
    if Engulfs(previous, latest, true) {
      assert NewPattern(BullishEngulfing, Upward, 0.78, previous, latest) in all;
    }
    if Engulfs(previous, latest, false) {
      assert NewPattern(BearishEngulfing, Downward, 0.78, previous, latest) in all;
    }
  }

  /** A candle whose high no neighbour within two tops, or whose low none undercuts. */
  ghost predicate Peak(candles: seq<Candle>, top: bool, at: int) {
    && 2 <= at < |candles| - 2
    && forall j :: at - 2 <= j <= at + 2 ==>
         if top then candles[j].high <= candles[at].high else candles[at].low <= candles[j].low
  }

  ghost predicate Alike(a: real, b: real) {
    a + b > 0.0 && -0.015 * (a + b) <= a - b <= 0.015 * (a + b)
  }

  ghost predicate Beyond(candles: seq<Candle>, top: bool, left: int, right: int, close: real)
    requires 0 <= left && right <= |candles|
  {
    forall j :: left < j < right ==> if top then close < candles[j].low else candles[j].high < close
  }

  /**
   * Two peaks 5 to 35 candles apart, as high as each other within 3% of their mean, and a last close beyond
   * everything between them.
   */
  ghost predicate Shoulders(candles: seq<Candle>, top: bool, left: int, right: int) {
    && Peak(candles, top, left) && Peak(candles, top, right) && 5 <= right - left <= 35
    && Alike(if top then candles[left].high else candles[left].low,
             if top then candles[right].high else candles[right].low)
    && Beyond(candles, top, left, right, candles[|candles| - 1].close)
  }

  lemma QuotientAtMost(x: real, y: real, bound: real)
    requires y > 0.0
    ensures x / y <= bound <==> x <= bound * y
  {
    var q := x / y;
    assert q * y == x;
    if q <= bound {
      assert q * y <= bound * y;
    } else {
      assert q * y > bound * y;
    }
  }

  lemma SimilarExactly(candles: seq<Candle>, top: bool, left: int, right: int)
    requires 0 <= left < |candles| && 0 <= right < |candles|
    requires ExtremePrice(candles[left], top) + ExtremePrice(candles[right], top) > 0.0
    ensures Similarity(candles, top, left, right) <= 0.03 <==>
            Alike(ExtremePrice(candles[left], top), ExtremePrice(candles[right], top))
  {
    var a, b := ExtremePrice(candles[left], top), ExtremePrice(candles[right], top);
    QuotientAtMost(Abs(a - b), (a + b) / 2.0, 0.03);
  }

  lemma NecklineExactly(candles: seq<Candle>, left: int, right: int, middle: seq<Candle>, close: real)
    requires 0 <= left && left + 1 < right <= |candles| && middle == candles[left + 1..right]
    ensures close < LowestLow(middle) <==> Beyond(candles, true, left, right, close)
    ensures close > HighestHigh(middle) <==> Beyond(candles, false, left, right, close)
  {
    hide LowestLow, HighestHigh;
    forall j | left < j < right
      ensures LowestLow(middle) <= candles[j].low && candles[j].high <= HighestHigh(middle)
    {
      assert candles[j] == middle[j - left - 1] && middle[j - left - 1] in middle;
    }
    var high, low := HighestHigh(middle), LowestLow(middle);
    var bottom :| bottom in middle && bottom.low == low;
    var top :| top in middle && top.high == high;
    var a :| 0 <= a < |middle| && middle[a] == bottom;
    var b :| 0 <= b < |middle| && middle[b] == top;
    assert candles[a + left + 1] == bottom && candles[b + left + 1] == top;
  }

  lemma CandidateExactly(candles: seq<Candle>, top: bool, left: int, right: int)
    ensures Candidate(candles, top, left, right) <==> Shoulders(candles, top, left, right)
  {
    hide LowestLow, HighestHigh, Similarity, Beyond;
    assert Peak(candles, top, left) <==> IsExtremum(candles, top, left);
    assert Peak(candles, top, right) <==> IsExtremum(candles, top, right);
    if Peak(candles, top, left) && Peak(candles, top, right) && 5 <= right - left {
      NecklineExactly(candles, left, right, candles[left + 1..right], candles[|candles| - 1].close);
      if ExtremePrice(candles[left], top) + ExtremePrice(candles[right], top) > 0.0 {
        SimilarExactly(candles, top, left, right);
      }
    }
  }

  /** The confirmed pair of tops or bottoms among the last sixty candles. */
  ghost predicate HasDouble(candles: seq<Candle>, top: bool) {
    var tail := LastN(candles, 60);
    |tail| >= 12 && exists left, right :: Shoulders(tail, top, left, right)
  }

  lemma DoubleFound(candles: seq<Candle>, top: bool)
    ensures DoublePattern(candles, top) != [] <==> exists left, right :: Shoulders(candles, top, left, right)
    ensures DoublePattern(candles, top) != [] ==> DoublePattern(candles, top)[0] in DoublePattern(candles, top)
    ensures forall p :: p in DoublePattern(candles, top) ==>
              p.name == if top then DoubleTopConfirmed else DoubleBottomConfirmed
  {
    hide FindDouble, Candidate, Shoulders, RoundTo;
    FindDoubleIsLatest(candles, top);
    forall left, right
      ensures Candidate(candles, top, left, right) <==> Shoulders(candles, top, left, right)
    {
      CandidateExactly(candles, top, left, right);
    }
  }

  lemma DoubleSide(candles: seq<Candle>)
    ensures var found := Reversal(LastN(candles, 60));
            && (HasDouble(candles, true) <==> exists p :: p in found && p.name == DoubleTopConfirmed)
            && (HasDouble(candles, false) <==> exists p :: p in found && p.name == DoubleBottomConfirmed)
            && forall p :: p in found ==> p.name == DoubleTopConfirmed || p.name == DoubleBottomConfirmed
  {
    hide DoublePattern, Shoulders;
    var tail := LastN(candles, 60);
    DoubleFound(tail, true);
    DoubleFound(tail, false);
  }

  lemma LatestNames(candles: seq<Candle>)
    requires candles != []
    ensures forall p :: p in LatestCandlestick(candles) ==>
              p.name != RangeBreakoutUp && p.name != RangeBreakoutDown
              && p.name != DoubleTopConfirmed && p.name != DoubleBottomConfirmed
    ensures |candles| < 2 ==>
              forall p :: p in LatestCandlestick(candles) ==> p.name != BullishEngulfing && p.name != BearishEngulfing
  {
    hide RoundTo, SingleCandle;
    SingleNames(candles[|candles| - 1]);
  }

  /**
   * What the directional multi-candle patterns of a history mean: each is reported, with the
   * direction its name has, exactly when the candles show it.
   */
  lemma ReportedExactly(candles: seq<Candle>)
    requires Analyze(candles).Ok? && candles != []
    ensures var ordered := SortByTime(candles);
            && (Reports(candles, RangeBreakoutUp) <==> BreaksOut(ordered, true))
            && (Reports(candles, RangeBreakoutDown) <==> BreaksOut(ordered, false) && !BreaksOut(ordered, true))
            && (Reports(candles, DoubleTopConfirmed) <==> HasDouble(ordered, true))
            && (Reports(candles, DoubleBottomConfirmed) <==> HasDouble(ordered, false))
            && (Reports(candles, BullishEngulfing) <==>
                |ordered| >= 2 && Engulfs(ordered[|ordered| - 2], ordered[|ordered| - 1], true))
            && (Reports(candles, BearishEngulfing) <==>
                |ordered| >= 2 && Engulfs(ordered[|ordered| - 2], ordered[|ordered| - 1], false))
  {
    hide LatestCandlestick, Breakout, Reversal, SortByTime, Analyze, HasDouble, BreaksOut, Engulfs, AllValid;
    var ordered := SortByTime(candles);
    ReportedFrom(candles, Pattern(Doji, Neutral, 0.0, 0, 0));
    forall p
      ensures p in Analyze(candles).value <==>
              p in LatestCandlestick(ordered) || p in Breakout(ordered).value || p in Reversal(LastN(ordered, 60))
    {
      ReportedFrom(candles, p);
    }
    BreakoutSide(ordered);
    DoubleSide(ordered);
    LatestNames(ordered);
    if |ordered| >= 2 {
      EngulfingSide(ordered);
    }
  }

  // ----- how confident -----

  lemma RoundedNear(x: real)
    ensures -0.00005 <= RoundTo(x, 10000.0) - x <= 0.00005
  {
  }

  /** A breakout's confidence, from how far the close stands beyond the range of the twenty candles before it. */
  lemma BreakoutStrength(candles: seq<Candle>, p: Pattern)
    requires Breakout(candles).Ok? && p in Breakout(candles).value
    ensures |candles| >= 21
    ensures var previous, close := candles[|candles| - 21..|candles| - 1], candles[|candles| - 1].close;
            var upper, lower := HighestHigh(previous), LowestLow(previous);
            var excess := if p.direction == Upward then close - upper else lower - close;
            var span := MaxReal(upper - lower, Abs(close) * 0.001);
            && span > 0.0 && excess > 0.0
            && -0.00005 <= p.confidence - MinReal(0.90, 0.68 + (excess / span) * 2.0) <= 0.00005
  {
    hide RoundTo, MinReal, HighestHigh, LowestLow;
    var previous, latest := candles[|candles| - 21..|candles| - 1], candles[|candles| - 1];
    var upper, lower := HighestHigh(previous), LowestLow(previous);
    var span := MaxReal(upper - lower, Abs(latest.close) * 0.001);
    assert span > 0.0;
    var excess := if latest.close > upper then latest.close - upper else lower - latest.close;
    RoundedNear(MinReal(0.90, 0.68 + (excess / span) * 2.0));
  }

  /** A double's confidence, from the shoulders it names: three times what their difference leaves of the 3%. */
  lemma DoubleStrength(candles: seq<Candle>, top: bool, p: Pattern)
    requires p in DoublePattern(candles, top)
    ensures exists left, right ::
              && Shoulders(candles, top, left, right)
              && p.startedAt == candles[left].timestamp && p.endedAt == candles[|candles| - 1].timestamp
              && var a, b := ExtremePrice(candles[left], top), ExtremePrice(candles[right], top);
                 -0.00005 <= p.confidence - (0.85 - 3.0 * (Abs(a - b) / ((a + b) / 2.0))) <= 0.00005
  {
    hide RoundTo, FindDouble, IsExtremum, Shoulders;
    FindDoubleIsLatest(candles, top);
    var pair := FindDouble(candles, top).value;
    CandidateExactly(candles, top, pair.0, pair.1);
    SimilarityNotNegative(candles, top, pair.0, pair.1);
    var difference := Similarity(candles, top, pair.0, pair.1);
    RoundedNear(0.76 + (0.03 - difference) * 3.0);
    assert p.startedAt == candles[pair.0].timestamp;
  }

  // ----- the one-candle patterns -----

  ghost predicate Shows(c: Candle, name: Name) {
    exists p :: p in SingleCandle(c) && p.name == name
  }

  /** The candle upside down. */
  function Mirror(c: Candle): Candle {
    c.(open := -c.open, high := -c.low, low := -c.high, close := -c.close)
  }

  lemma ShowsExactly(c: Candle)
    ensures var range := c.high - c.low;
            var body := Abs(c.close - c.open);
            var upper, lower := c.high - MaxReal(c.open, c.close), MinReal(c.open, c.close) - c.low;
            var effective := MaxReal(body, range * 0.02);
            && (Shows(c, Doji) <==> range > 0.0 && body / range <= 0.10)
            && (Shows(c, Hammer) <==>
                && range > 0.0 && 0.05 <= body / range <= 0.35 && lower >= effective * 2.0 && upper <= effective
                && MaxReal(c.open, c.close) >= c.low + range * 0.60)
            && (Shows(c, ShootingStar) <==>
                && range > 0.0 && 0.05 <= body / range <= 0.35 && upper >= effective * 2.0 && lower <= effective
                && MinReal(c.open, c.close) <= c.low + range * 0.40)
  {
    hide RoundTo, MaxReal, MinReal, Abs;
    var doji := NewPattern(Doji, Neutral, 0.68, c, c);
    var hammer := NewPattern(Hammer, Upward, 0.72, c, c);
    var star := NewPattern(ShootingStar, Downward, 0.72, c, c);
    assert doji in SingleCandle(c) || hammer in SingleCandle(c) || star in SingleCandle(c) || SingleCandle(c) == [];
  }

  /** Upside down, a hammer is a shooting star and a doji is a doji. */
  lemma MirrorSwapsShapes(c: Candle)
    ensures Shows(Mirror(c), ShootingStar) <==> Shows(c, Hammer)
    ensures Shows(Mirror(c), Hammer) <==> Shows(c, ShootingStar)
    ensures Shows(Mirror(c), Doji) <==> Shows(c, Doji)
  {
    hide Shows;
    ShowsExactly(c);
    ShowsExactly(Mirror(c));
  }

  /** A hammer hangs on a lower shadow at least twice as long as its body and as its upper shadow. */
  lemma HammerShape(c: Candle)
    requires Shows(c, Hammer)
    ensures MinReal(c.open, c.close) - c.low >= 2.0 * Abs(c.close - c.open)
    ensures MinReal(c.open, c.close) - c.low >= 2.0 * (c.high - MaxReal(c.open, c.close))
  {
    hide Shows;
    ShowsExactly(c);
  }
}
