/** Candles, the table of OHLCV rows every component works on. */
module Market {
  import opened Sorting

  datatype PriceBasis = Unknown | Unadjusted | ProviderAdjusted | PointInTimeAdjusted

  /** A timestamp is an instant on one time line; prices are exact. */
  datatype Candle = Candle(timestamp: int, open: real, high: real, low: real, close: real,
                           volume: int, basis: PriceBasis)

  predicate ByTime(a: Candle, b: Candle) {
    a.timestamp <= b.timestamp
  }

  predicate Ascending(candles: seq<Candle>) {
    forall i, j :: 0 <= i < j < |candles| ==> candles[i].timestamp < candles[j].timestamp
  }

  /** sorted(candles, key=timestamp) */
  function SortByTime(candles: seq<Candle>): (r: seq<Candle>)
    ensures |r| == |candles|
  {
    Sort(ByTime, candles)
  }

  lemma SortByTimeLaws(candles: seq<Candle>)
    ensures SortedBy(ByTime, SortByTime(candles))
    ensures forall c :: c in SortByTime(candles) <==> c in candles
    ensures SortedBy(ByTime, candles) ==> SortByTime(candles) == candles
    ensures Ascending(candles) ==> SortByTime(candles) == candles
  {
    SortSorts(ByTime, candles);
    SortMembers(ByTime, candles);
    if SortedBy(ByTime, candles) {
      SortIdentity(ByTime, candles);
    }
    assert Ascending(candles) ==> SortedBy(ByTime, candles);
  }

  function HighestHigh(candles: seq<Candle>): (r: real)
    requires candles != []
    ensures forall c :: c in candles ==> c.high <= r
    ensures exists c :: c in candles && c.high == r
  {
    if |candles| == 1 then
      assert candles[0] in candles;
      candles[0].high
    else
      var rest := HighestHigh(candles[1..]);
      assert candles == [candles[0]] + candles[1..];
      assert candles[0] in candles;
      if candles[0].high >= rest then candles[0].high else rest
  }

  function LowestLow(candles: seq<Candle>): (r: real)
    requires candles != []
    ensures forall c :: c in candles ==> r <= c.low
    ensures exists c :: c in candles && c.low == r
  {
    if |candles| == 1 then
      assert candles[0] in candles;
      candles[0].low
    else
      var rest := LowestLow(candles[1..]);
      assert candles == [candles[0]] + candles[1..];
      assert candles[0] in candles;
      if candles[0].low <= rest then candles[0].low else rest
  }
}
