/** The deterministic chart-pattern detector (backend/app/patterns/engine.py). */
module Patterns {
  import opened Core
  import opened Sorting
  import opened Market

  datatype Error = InvalidOhlc | DivisionByZero

  datatype Direction = Upward | Downward | Neutral

  /** Declared in the alphabetical order of the source's names, the tie-break of its sort. */
  datatype Name =
    | BearishEngulfing
    | BullishEngulfing
    | Doji
    | DoubleBottomConfirmed
    | DoubleTopConfirmed
    | Hammer
    | RangeBreakoutDown
    | RangeBreakoutUp
    | ShootingStar

  function Rank(name: Name): nat {
    match name
    case BearishEngulfing => 0
    case BullishEngulfing => 1
    case Doji => 2
    case DoubleBottomConfirmed => 3
    case DoubleTopConfirmed => 4
    case Hammer => 5
    case RangeBreakoutDown => 6
    case RangeBreakoutUp => 7
    case ShootingStar => 8
  }

  datatype Pattern = Pattern(name: Name, direction: Direction, confidence: real,
                             startedAt: int, endedAt: int)

  function NewPattern(name: Name, direction: Direction, confidence: real,
                      first: Candle, last: Candle): Pattern {
    Pattern(name, direction, RoundTo(confidence, 10000.0), first.timestamp, last.timestamp)
  }

  predicate ValidOhlc(c: Candle) {
    c.low <= c.high && c.low <= c.open <= c.high && c.low <= c.close <= c.high
  }

  predicate AllValid(candles: seq<Candle>) {
    forall i :: 0 <= i < |candles| ==> ValidOhlc(candles[i])
  }

  // ----- candlestick patterns -----

  function SingleCandle(latest: Candle): seq<Pattern> {
    var priceRange := latest.high - latest.low;
    if priceRange <= 0.0 then []
    else
      var body := Abs(latest.close - latest.open);
      var upperShadow := latest.high - MaxReal(latest.open, latest.close);
      var lowerShadow := MinReal(latest.open, latest.close) - latest.low;
      var ratio := body / priceRange;
      var effective := MaxReal(body, priceRange * 0.02);
      var doji := if ratio <= 0.10 then [NewPattern(Doji, Neutral, 0.68, latest, latest)] else [];
      var hammer :=
        if 0.05 <= ratio <= 0.35
           && lowerShadow >= effective * 2.0
           && upperShadow <= effective
           && MaxReal(latest.open, latest.close) >= latest.low + priceRange * 0.60
        then [NewPattern(Hammer, Upward, 0.72, latest, latest)] else [];
      var star :=
        if 0.05 <= ratio <= 0.35
           && upperShadow >= effective * 2.0
           && lowerShadow <= effective
           && MinReal(latest.open, latest.close) <= latest.low + priceRange * 0.40
        then [NewPattern(ShootingStar, Downward, 0.72, latest, latest)] else [];
      doji + hammer + star
  }

  function Engulfing(previous: Candle, latest: Candle): seq<Pattern> {
    var bullish :=
      if previous.close < previous.open && latest.close > latest.open
         && latest.open <= previous.close && latest.close >= previous.open
      then [NewPattern(BullishEngulfing, Upward, 0.78, previous, latest)] else [];
    var bearish :=
      if previous.close > previous.open && latest.close < latest.open
         && latest.open >= previous.close && latest.close <= previous.open
      then [NewPattern(BearishEngulfing, Downward, 0.78, previous, latest)] else [];
    bullish + bearish
  }

  /** A flat latest candle ends the search before the two-candle patterns are tried. */
  function LatestCandlestick(candles: seq<Candle>): seq<Pattern>
    requires candles != []
  {
    var latest := candles[|candles| - 1];
    if latest.high - latest.low <= 0.0 then []
    else
      SingleCandle(latest) +
      if |candles| >= 2 then Engulfing(candles[|candles| - 2], latest) else []
  }

  // ----- breakout of the prior 20 candles -----

  function Breakout(candles: seq<Candle>): Result<seq<Pattern>, Error> {
    if |candles| < 21 then Ok([])
    else
      var previous := candles[|candles| - 21..|candles| - 1];
      var latest := candles[|candles| - 1];
      var upper := HighestHigh(previous);
      var lower := LowestLow(previous);
      var span := MaxReal(upper - lower, Abs(latest.close) * 0.001);
      if latest.close > upper then
        if span == 0.0 then Err(DivisionByZero)
        else
          var confidence := MinReal(0.90, 0.68 + ((latest.close - upper) / span) * 2.0);
          Ok([NewPattern(RangeBreakoutUp, Upward, confidence, previous[0], latest)])
      else if latest.close < lower then
        if span == 0.0 then Err(DivisionByZero)
        else
          var confidence := MinReal(0.90, 0.68 + ((lower - latest.close) / span) * 2.0);
          Ok([NewPattern(RangeBreakoutDown, Downward, confidence, previous[0], latest)])
      else Ok([])
  }

  // ----- confirmed double tops and bottoms -----

  function ExtremePrice(c: Candle, top: bool): real {
    if top then c.high else c.low
  }

  /** No neighbour within two candles on either side is more extreme. */
  predicate IsExtremum(candles: seq<Candle>, top: bool, i: int) {
    && 2 <= i < |candles| - 2
    && forall j :: i - 2 <= j <= i + 2 ==>
         if top then ExtremePrice(candles[i], top) >= ExtremePrice(candles[j], top)
         else ExtremePrice(candles[i], top) <= ExtremePrice(candles[j], top)
  }

  function Extrema(candles: seq<Candle>, top: bool, limit: nat): (r: seq<int>)
    ensures forall i :: i in r <==> i < limit && IsExtremum(candles, top, i)
    ensures forall a, b :: 0 <= a < b < |r| ==> r[a] < r[b]
  {
    if limit == 0 then []
    else
      var before := Extrema(candles, top, limit - 1);
      assert forall a :: 0 <= a < |before| ==> before[a] in before;
      if IsExtremum(candles, top, limit - 1) then before + [limit - 1] else before
  }

  function LocalExtrema(candles: seq<Candle>, top: bool): (r: seq<int>)
    ensures forall i :: i in r <==> IsExtremum(candles, top, i)
    ensures forall a, b :: 0 <= a < b < |r| ==> r[a] < r[b]
  {
    Extrema(candles, top, |candles|)
  }

  /** What the scan compares decides about the five candles. */
  lemma BeatsNeighbours(candles: seq<Candle>, top: bool, i: nat)
    requires 2 <= i < |candles| - 2
    ensures var price := ExtremePrice(candles[i], top);
            var a, b := ExtremePrice(candles[i - 2], top), ExtremePrice(candles[i - 1], top);
            var c, d := ExtremePrice(candles[i + 1], top), ExtremePrice(candles[i + 2], top);
            IsExtremum(candles, top, i) <==>
            if top then price >= MaxReal(MaxReal(a, b), MaxReal(c, d))
              else price <= MinReal(MinReal(a, b), MinReal(c, d))
  {
    hide ExtremePrice;
    if IsExtremum(candles, top, i) {
      assert i - 2 <= i - 1 && i + 1 <= i + 2;
    } else {
      var j :| i - 2 <= j <= i + 2 &&
               !(if top then ExtremePrice(candles[i], top) >= ExtremePrice(candles[j], top)
                 else ExtremePrice(candles[i], top) <= ExtremePrice(candles[j], top));
      assert j == i - 2 || j == i - 1 || j == i || j == i + 1 || j == i + 2;
    }
  }

  lemma {:induction false} ExtremaTail(candles: seq<Candle>, top: bool, low: nat, high: nat)
    requires |candles| - 2 <= low <= high
    ensures Extrema(candles, top, low) == Extrema(candles, top, high)
    decreases high
  {
    if low < high {
      ExtremaTail(candles, top, low, high - 1);
    }
  }

  /** The scan of _local_extrema, which looks at the four neighbours of each candle. */
  method FindLocalExtrema(candles: seq<Candle>, top: bool) returns (extrema: seq<int>)
    ensures forall i :: i in extrema <==> IsExtremum(candles, top, i)
    ensures forall a, b :: 0 <= a < b < |extrema| ==> extrema[a] < extrema[b]
    ensures extrema == LocalExtrema(candles, top)
  {
    extrema := [];
    var index := 2;
    assert Extrema(candles, top, 0) == Extrema(candles, top, 1) == Extrema(candles, top, 2) == [];
    hide IsExtremum, ExtremePrice, MaxReal, MinReal;
    while index < |candles| - 2
      invariant 2 <= index && (index <= |candles| - 2 || extrema == [])
      invariant extrema == Extrema(candles, top, index)
    {
      var price := ExtremePrice(candles[index], top);
      var a := ExtremePrice(candles[index - 2], top);
      var b := ExtremePrice(candles[index - 1], top);
      var c := ExtremePrice(candles[index + 1], top);
      var d := ExtremePrice(candles[index + 2], top);
      BeatsNeighbours(candles, top, index);
      if (top && price >= MaxReal(MaxReal(a, b), MaxReal(c, d)))
         || (!top && price <= MinReal(MinReal(a, b), MinReal(c, d)))
      {
        extrema := extrema + [index];
      }
      index := index + 1;
    }
    ExtremaTail(candles, top, index, Max(index, |candles|));
    ExtremaTail(candles, top, |candles|, Max(index, |candles|));
  }

  function Similarity(candles: seq<Candle>, top: bool, left: int, right: int): (difference: real)
    requires 0 <= left < |candles| && 0 <= right < |candles|
    requires ExtremePrice(candles[left], top) + ExtremePrice(candles[right], top) > 0.0
  {
    var l := ExtremePrice(candles[left], top);
    var r := ExtremePrice(candles[right], top);
    Abs(l - r) / ((l + r) / 2.0)
  }

  /** Two extremes 5 to 35 candles apart, within 3 percent, whose neckline the last close crossed. */
  predicate Confirms(candles: seq<Candle>, top: bool, left: int, right: int) {
    && 0 <= left && right < |candles| - 1
    && 5 <= right - left <= 35
    && ExtremePrice(candles[left], top) + ExtremePrice(candles[right], top) > 0.0
    && Similarity(candles, top, left, right) <= 0.03
    && (if top
        then candles[|candles| - 1].close < LowestLow(candles[left + 1..right])
        else candles[|candles| - 1].close > HighestHigh(candles[left + 1..right]))
  }

  /** Latest right shoulder first, then latest left shoulder. */
  predicate LaterPair(a: (int, int), b: (int, int)) {
    a.1 > b.1 || (a.1 == b.1 && a.0 > b.0)
  }

  ghost predicate Candidate(candles: seq<Candle>, top: bool, left: int, right: int) {
    && IsExtremum(candles, top, left) && IsExtremum(candles, top, right)
    && Confirms(candles, top, left, right)
  }

  /** The pair that _confirmed_double settles on, if it finds one. */
  ghost predicate LatestCandidate(candles: seq<Candle>, top: bool, pair: Option<(int, int)>) {
    match pair
    case None => forall l, r :: !Candidate(candles, top, l, r)
    case Some(p) =>
      && Candidate(candles, top, p.0, p.1)
      && forall l, r :: Candidate(candles, top, l, r) ==> !LaterPair((l, r), p)
  }

  function SearchLeft(candles: seq<Candle>, extrema: seq<int>, top: bool, r: nat, l: nat): (found: Option<(int, int)>)
    requires l <= r < |extrema|
    ensures found.Some? ==> exists a :: 0 <= a < l && found.value == (extrema[a], extrema[r])
                              && Confirms(candles, top, extrema[a], extrema[r])
                              && forall b :: a < b < l ==> !Confirms(candles, top, extrema[b], extrema[r])
    ensures found.None? ==> forall b :: 0 <= b < l ==> !Confirms(candles, top, extrema[b], extrema[r])
  {
    if l == 0 then None
    else if Confirms(candles, top, extrema[l - 1], extrema[r]) then Some((extrema[l - 1], extrema[r]))
    else SearchLeft(candles, extrema, top, r, l - 1)
  }

  function SearchRight(candles: seq<Candle>, extrema: seq<int>, top: bool, count: nat): Option<(int, int)>
    requires count <= |extrema|
  {
    if count == 0 then None
    else
      var found := SearchLeft(candles, extrema, top, count - 1, count - 1);
      if found.Some? then found else SearchRight(candles, extrema, top, count - 1)
  }

  function FindDouble(candles: seq<Candle>, top: bool): Option<(int, int)> {
    SearchRight(candles, LocalExtrema(candles, top), top, |LocalExtrema(candles, top)|)
  }

  ghost predicate LatestAmong(candles: seq<Candle>, top: bool, extrema: seq<int>, count: nat, pair: Option<(int, int)>)
    requires count <= |extrema|
  {
    match pair
    case None => forall a, b :: 0 <= a < b < count ==> !Confirms(candles, top, extrema[a], extrema[b])
    case Some(p) =>
      && (exists a, b ::
            0 <= a < b < count && p == (extrema[a], extrema[b]) && Confirms(candles, top, extrema[a], extrema[b]))
      && forall a, b :: 0 <= a < b < count && Confirms(candles, top, extrema[a], extrema[b]) ==>
           !LaterPair((extrema[a], extrema[b]), p)
  }

  lemma RightmostIsLatest(candles: seq<Candle>, extrema: seq<int>, top: bool, count: nat)
    requires 0 < count <= |extrema|
    requires forall a, b :: 0 <= a < b < |extrema| ==> extrema[a] < extrema[b]
    requires SearchLeft(candles, extrema, top, count - 1, count - 1).Some?
    ensures LatestAmong(candles, top, extrema, count, SearchLeft(candles, extrema, top, count - 1, count - 1))
  {
    hide Confirms, SearchLeft;
    var found := SearchLeft(candles, extrema, top, count - 1, count - 1);
    var a :| 0 <= a < count - 1 && found.value == (extrema[a], extrema[count - 1])
             && Confirms(candles, top, extrema[a], extrema[count - 1])
             && forall b :: a < b < count - 1 ==> !Confirms(candles, top, extrema[b], extrema[count - 1]);
    forall x, y | 0 <= x < y < count && Confirms(candles, top, extrema[x], extrema[y])
      ensures !LaterPair((extrema[x], extrema[y]), found.value)
    {
      if y == count - 1 && x != a {
        assert x < a;
      }
    }
  }

  lemma NoneWithThisRight(candles: seq<Candle>, extrema: seq<int>, top: bool, count: nat, pair: Option<(int, int)>)
    requires 0 < count <= |extrema|
    requires SearchLeft(candles, extrema, top, count - 1, count - 1).None?
    requires LatestAmong(candles, top, extrema, count - 1, pair)
    ensures LatestAmong(candles, top, extrema, count, pair)
  {
    hide Confirms, SearchLeft, LaterPair;
    forall x, y | 0 <= x < y < count && Confirms(candles, top, extrema[x], extrema[y])
      ensures y < count - 1
    {
    }
  }

  lemma {:induction false} SearchRightLatest(candles: seq<Candle>, extrema: seq<int>, top: bool, count: nat)
    requires count <= |extrema|
    requires forall a, b :: 0 <= a < b < |extrema| ==> extrema[a] < extrema[b]
    ensures LatestAmong(candles, top, extrema, count, SearchRight(candles, extrema, top, count))
  {
    if count == 0 {
    } else {
      hide LatestAmong, Confirms;
      SearchRightLatest(candles, extrema, top, count - 1);
      if SearchLeft(candles, extrema, top, count - 1, count - 1).Some? {
        RightmostIsLatest(candles, extrema, top, count);
      } else {
        NoneWithThisRight(candles, extrema, top, count, SearchRight(candles, extrema, top, count - 1));
      }
    }
  }

  lemma ConfirmedInOrder(candles: seq<Candle>, top: bool, left: int, right: int)
    requires Confirms(candles, top, left, right)
    ensures left < right
  {
  }

  /** The double-pattern search returns the latest confirmed pair, and none only when there is none. */
  lemma FindDoubleIsLatest(candles: seq<Candle>, top: bool)
    ensures LatestCandidate(candles, top, FindDouble(candles, top))
  {
    hide Extrema, SearchRight, IsExtremum, Confirms, LaterPair, LocalExtrema;
    var extrema := LocalExtrema(candles, top);
    SearchRightLatest(candles, extrema, top, |extrema|);
    var pair := FindDouble(candles, top);
    forall l, r | Candidate(candles, top, l, r)
      ensures pair.Some? && !LaterPair((l, r), pair.value)
    {
      ConfirmedInOrder(candles, top, l, r);
      assert l in extrema && r in extrema;
      var a :| 0 <= a < |extrema| && extrema[a] == l;
      var b :| 0 <= b < |extrema| && extrema[b] == r;
      assert a < b;
    }
  }

  /** The nested scan of _confirmed_double, right shoulder outermost, both from the end. */
  method ConfirmedDouble(candles: seq<Candle>, top: bool) returns (pair: Option<(int, int)>)
    ensures LatestCandidate(candles, top, pair)
    ensures pair == FindDouble(candles, top)
  {
    hide Confirms, Extrema, IsExtremum, LatestCandidate, LocalExtrema;
    FindDoubleIsLatest(candles, top);
    var extrema := FindLocalExtrema(candles, top);
    var right := |extrema| - 1;
    while right > 0
      invariant -1 <= right < |extrema|
      invariant FindDouble(candles, top) == SearchRight(candles, extrema, top, right + 1)
    {
      var left := right - 1;
      while left >= 0
        invariant -1 <= left < right
        invariant SearchLeft(candles, extrema, top, right, right) == SearchLeft(candles, extrema, top, right, left + 1)
      {
        if Confirms(candles, top, extrema[left], extrema[right]) {
          return Some((extrema[left], extrema[right]));
        }
        left := left - 1;
      }
      right := right - 1;
    }
    pair := None;
  }

  function DoublePattern(candles: seq<Candle>, top: bool): seq<Pattern> {
    match FindDouble(candles, top)
    case None => []
    case Some(p) =>
      FindDoubleIsLatest(candles, top);
      var difference := Similarity(candles, top, p.0, p.1);
      var confidence := MinReal(0.90, 0.76 + (0.03 - difference) * 3.0);
      [NewPattern(if top then DoubleTopConfirmed else DoubleBottomConfirmed,
                  if top then Downward else Upward,
                  confidence, candles[p.0], candles[|candles| - 1])]
  }

  function Reversal(candles: seq<Candle>): seq<Pattern> {
    if |candles| < 12 then []
    else DoublePattern(candles, true) + DoublePattern(candles, false)
  }

  // ----- the whole analysis -----

  predicate StrongerFirst(a: Pattern, b: Pattern) {
    a.confidence > b.confidence || (a.confidence == b.confidence && Rank(a.name) <= Rank(b.name))
  }

  /** The "patterns" of PatternEngine.analyze. */
  function Analyze(candles: seq<Candle>): Result<seq<Pattern>, Error> {
    var ordered := SortByTime(candles);
    if ordered == [] then Ok([])
    else if !AllValid(ordered) then Err(InvalidOhlc)
    else
      var breakouts :- Breakout(ordered);
      Ok(Sort(StrongerFirst, LatestCandlestick(ordered) + breakouts + Reversal(LastN(ordered, 60))))
  }

  lemma LastNOfLastN<T>(xs: seq<T>, outer: nat, inner: nat)
    requires inner <= outer
    ensures LastN(LastN(xs, outer), inner) == LastN(xs, inner)
  {
  }

  lemma BreakoutOfTail(candles: seq<Candle>, window: nat)
    requires window >= 21
    ensures Breakout(LastN(candles, window)) == Breakout(candles)
  {
    hide HighestHigh, LowestLow, NewPattern, MinReal, MaxReal, Abs;
    var tail := LastN(candles, window);
    if |tail| >= 21 {
      assert tail[|tail| - 21..|tail| - 1] == candles[|candles| - 21..|candles| - 1];
    }
  }

  lemma LatestOfTail(candles: seq<Candle>, window: nat)
    requires window >= 2 && candles != []
    ensures LatestCandlestick(LastN(candles, window)) == LatestCandlestick(candles)
  {
    hide SingleCandle, Engulfing;
  }

  /**
   * Sixty trailing candles carry every pattern of the whole history. The only thing the window
   * can miss is a malformed candle that has already left it.
   */
  lemma WindowSuffices(candles: seq<Candle>, window: nat)
    requires window >= 60 && Ascending(candles)
    ensures Analyze(candles) ==
            if AllValid(candles) then Analyze(LastN(candles, window)) else Err(InvalidOhlc)
  {
    hide LatestCandlestick, Breakout, Reversal, Sort, StrongerFirst, SortByTime, ValidOhlc;
    var tail := LastN(candles, window);
    SortByTimeLaws(candles);
    SortByTimeLaws(tail);
    if AllValid(candles) && candles != [] {
      LastNOfLastN(candles, window, 60);
      BreakoutOfTail(candles, window);
      LatestOfTail(candles, window);
    }
  }

  /** The only malformed-candle error is that of a malformed candle. */
  lemma InvalidExactly(candles: seq<Candle>)
    requires Ascending(candles)
    ensures Analyze(candles) == Err(InvalidOhlc) <==> !AllValid(candles)
  {
    hide LatestCandlestick, Reversal, Sort, StrongerFirst, SortByTime, ValidOhlc, HighestHigh, LowestLow, NewPattern;
    SortByTimeLaws(candles);
  }

  /** The window agrees with the history exactly when it still shows a malformed candle, or there is none. */
  lemma WindowAgreesExactly(candles: seq<Candle>, window: nat)
    requires window >= 60 && Ascending(candles)
    ensures Analyze(LastN(candles, window)) == Analyze(candles) <==>
            (AllValid(LastN(candles, window)) ==> AllValid(candles))
  {
    hide LatestCandlestick, Breakout, Reversal, Sort, StrongerFirst, SortByTime, ValidOhlc;
    var tail := LastN(candles, window);
    assert Ascending(tail);
    WindowSuffices(candles, window);
    InvalidExactly(tail);
    if AllValid(candles) {
      assert forall i :: 0 <= i < |tail| ==> tail[i] in candles;
    }
  }

  /** A first candle whose low lies above its high, and as many flat ones as the window holds. */
  function MalformedStart(window: nat): (r: seq<Candle>)
    ensures |r| == window + 1
  {
    seq(window + 1, i => Candle(i, 1.0, 1.0, if i == 0 then 2.0 else 1.0, 1.0, 0, Unknown))
  }

  /** The history raises, and its window does not. */
  lemma WindowMissesMalformed(window: nat)
    requires window >= 60
    ensures Ascending(MalformedStart(window))
    ensures Analyze(MalformedStart(window)) == Err(InvalidOhlc)
    ensures Analyze(LastN(MalformedStart(window), window)) != Err(InvalidOhlc)
  {
    hide Analyze;
    var candles := MalformedStart(window);
    var tail := LastN(candles, window);
    assert !ValidOhlc(candles[0]);
    assert forall i :: 0 <= i < |tail| ==> tail[i] == candles[i + 1] && ValidOhlc(tail[i]);
    InvalidExactly(candles);
    assert Ascending(tail);
    InvalidExactly(tail);
  }
}
