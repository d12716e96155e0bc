/** Weekly and monthly bars, and the whole pipeline (backend/app/pipeline/candles.py). */
module CandleAggregation {
  import opened Core
  import opened CandlePipeline
  import opened DataQuality
  import opened Market
  import opened OrderedDicts
  import opened Sorting

  datatype Interval = Day | Week | Month

  datatype PipelineError = MixedBases

  /** The calendar: which date, which week and which month a timestamp falls into. */
  datatype Calendar = Calendar(date: int -> int, week: int -> int, month: int -> int) {
    function Period(interval: Interval): int -> int {
      if interval.Week? then week else month
    }
  }

  ghost predicate Monotone(period: int -> int) {
    forall a, b :: a <= b ==> period(a) <= period(b)
  }

  // ----- the reference: periods in order of first appearance, each with its candles -----

  function Members(candles: seq<Candle>, period: int -> int, key: int): (r: seq<Candle>)
    ensures forall c :: c in r <==> c in candles && period(c.timestamp) == key
  {
    if candles == [] then []
    else
      var init, last := candles[..|candles| - 1], candles[|candles| - 1];
      var rest := Members(init, period, key);
      assert candles == init + [last];
      if period(last.timestamp) == key then rest + [last] else rest
  }

  function Keys(candles: seq<Candle>, period: int -> int): (r: seq<int>)
    ensures Distinct(r)
    ensures forall k :: k in r <==> exists c :: c in candles && period(c.timestamp) == k
  {
    if candles == [] then []
    else
      var init, last := candles[..|candles| - 1], candles[|candles| - 1];
      var rest := Keys(init, period);
      assert candles == init + [last];
      var key := period(last.timestamp);
      if key in rest then rest else rest + [key]
  }

  function TotalVolume(candles: seq<Candle>): int {
    if candles == [] then 0
    else TotalVolume(candles[..|candles| - 1]) + candles[|candles| - 1].volume
  }

  function Bar(group: seq<Candle>): Candle
    requires group != []
  {
    var ordered := SortByTime(group);
    Candle(ordered[0].timestamp, ordered[0].open, HighestHigh(ordered), LowestLow(ordered),
           ordered[|ordered| - 1].close, TotalVolume(ordered), ordered[0].basis)
  }

  lemma SomeMember(candles: seq<Candle>, period: int -> int, key: int)
    requires key in Keys(candles, period)
    ensures Members(candles, period, key) != []
  {
    var c :| c in candles && period(c.timestamp) == key;
    assert c in Members(candles, period, key);
  }

  function Bars(candles: seq<Candle>, period: int -> int, keys: seq<int>): (r: seq<Candle>)
    requires forall k :: k in keys ==> k in Keys(candles, period)
    ensures |r| == |keys|
    ensures forall i :: 0 <= i < |keys| ==>
              && Members(candles, period, keys[i]) != []
              && r[i] == Bar(Members(candles, period, keys[i]))
  {
    if keys == [] then []
    else
      var init, last := keys[..|keys| - 1], keys[|keys| - 1];
      assert keys == init + [last];
      SomeMember(candles, period, last);
      Bars(candles, period, init) + [Bar(Members(candles, period, last))]
  }

  function Aggregated(candles: seq<Candle>, period: int -> int): seq<Candle> {
    Bars(candles, period, Keys(candles, period))
  }

  lemma BarAt(candles: seq<Candle>, period: int -> int, i: nat)
    requires i < |Keys(candles, period)|
    ensures |Aggregated(candles, period)| == |Keys(candles, period)|
    ensures Members(candles, period, Keys(candles, period)[i]) != []
    ensures Aggregated(candles, period)[i] == Bar(Members(candles, period, Keys(candles, period)[i]))
  {
    hide Bar, Members, Keys;
  }

  lemma BarCount(candles: seq<Candle>, period: int -> int)
    ensures |Aggregated(candles, period)| == |Keys(candles, period)|
  {
    hide Bar, Members, Keys;
  }

  // ----- the loops -----

  lemma NotYetGrouped(candles: seq<Candle>, period: int -> int, key: int)
    ensures key in Keys(candles, period) <==> Members(candles, period, key) != []
  {
    if Members(candles, period, key) != [] {
      assert Members(candles, period, key)[0] in Members(candles, period, key);
    }
    if key in Keys(candles, period) {
      SomeMember(candles, period, key);
    }
  }

  method GroupByPeriod(candles: seq<Candle>, period: int -> int) returns (groups: Dict<int, seq<Candle>>)
    ensures groups.Valid() && groups.keys == Keys(candles, period)
    ensures forall k :: k in groups.items ==> groups.items[k] == Members(candles, period, k)
  {
    groups := Empty();
    var i := 0;
    while i < |candles|
      invariant 0 <= i <= |candles|
      invariant groups.Valid() && groups.keys == Keys(candles[..i], period)
      invariant forall k :: k in groups.items ==> groups.items[k] == Members(candles[..i], period, k)
    {
      var key := period(candles[i].timestamp);
      assert candles[..i + 1][..i] == candles[..i];
      NotYetGrouped(candles[..i], period, key);
      groups := groups.Set(key, (if key in groups.items then groups.items[key] else []) + [candles[i]]);
      i := i + 1;
    }
    assert candles[..i] == candles;
  }

  method AggregateCandles(candles: seq<Candle>, interval: Interval, calendar: Calendar)
    returns (r: Result<seq<Candle>, PipelineError>)
    ensures r.Err? <==> !interval.Day? && Mixed(candles)
    ensures r.Ok? ==> r.value == if interval.Day? then candles else Aggregated(candles, calendar.Period(interval))
  {
    hide Aggregated, Members, Keys, SortByTime, HighestHigh, LowestLow, TotalVolume, Bases;
    if interval.Day? {
      return Ok(candles);
    }
    if |Bases(candles)| > 1 {
      return Err(MixedBases);
    }
    var period := calendar.Period(interval);
    var groups := GroupByPeriod(candles, period);
    BarCount(candles, period);
    var aggregated := [];
    var i := 0;
    while i < |groups.keys|
      invariant 0 <= i <= |groups.keys|
      invariant aggregated == Aggregated(candles, period)[..i]
    {
      BarAt(candles, period, i);
      var group := groups.items[groups.keys[i]];
      var ordered := SortByTime(group);
      aggregated := aggregated + [
        Candle(ordered[0].timestamp, ordered[0].open, HighestHigh(ordered), LowestLow(ordered),
               ordered[|ordered| - 1].close, TotalVolume(ordered), ordered[0].basis)];
      i := i + 1;
    }
    r := Ok(aggregated);
  }

  // ----- volume is conserved -----

  lemma {:induction false} TotalVolumePrepend(c: Candle, candles: seq<Candle>)
    ensures TotalVolume([c] + candles) == c.volume + TotalVolume(candles)
  {
    if candles != [] {
      assert ([c] + candles)[..|candles|] == [c] + candles[..|candles| - 1];
      TotalVolumePrepend(c, candles[..|candles| - 1]);
    }
  }

  lemma {:induction false} InsertVolume(c: Candle, candles: seq<Candle>)
    ensures TotalVolume(Insert(ByTime, c, candles)) == c.volume + TotalVolume(candles)
  {
    TotalVolumePrepend(c, candles);
    if candles != [] && !ByTime(c, candles[0]) {
      InsertVolume(c, candles[1..]);
      TotalVolumePrepend(candles[0], Insert(ByTime, c, candles[1..]));
      TotalVolumePrepend(candles[0], candles[1..]);
      assert [candles[0]] + candles[1..] == candles;
    }
  }

  lemma {:induction false} SortVolume(candles: seq<Candle>)
    ensures TotalVolume(SortByTime(candles)) == TotalVolume(candles)
  {
    if candles != [] {
      SortVolume(candles[1..]);
      InsertVolume(candles[0], SortByTime(candles[1..]));
      TotalVolumePrepend(candles[0], candles[1..]);
      assert [candles[0]] + candles[1..] == candles;
    }
  }

  function VolumeOver(candles: seq<Candle>, period: int -> int, keys: seq<int>): int {
    if keys == [] then 0
    else VolumeOver(candles, period, keys[..|keys| - 1]) + TotalVolume(Members(candles, period, keys[|keys| - 1]))
  }

  /** One more candle raises the volume of its own period only. */
  lemma {:induction false} VolumeOverNext(candles: seq<Candle>, c: Candle, period: int -> int, keys: seq<int>)
    requires Distinct(keys)
    ensures VolumeOver(candles + [c], period, keys) ==
            VolumeOver(candles, period, keys) + if period(c.timestamp) in keys then c.volume else 0
  {
    if keys != [] {
      var init, last := keys[..|keys| - 1], keys[|keys| - 1];
      assert keys == init + [last];
      VolumeOverNext(candles, c, period, init);
      assert (candles + [c])[..|candles|] == candles;
      var members := Members(candles, period, last);
      assert (members + [c])[..|members|] == members;
    }
  }

  lemma KeysNext(candles: seq<Candle>, c: Candle, period: int -> int)
    ensures Keys(candles + [c], period) ==
            if period(c.timestamp) in Keys(candles, period) then Keys(candles, period)
            else Keys(candles, period) + [period(c.timestamp)]
  {
    assert (candles + [c])[..|candles|] == candles;
  }

  lemma VolumeOverNewKey(candles: seq<Candle>, period: int -> int, keys: seq<int>, key: int)
    requires Members(candles, period, key) == []
    ensures VolumeOver(candles, period, keys + [key]) == VolumeOver(candles, period, keys)
  {
    assert (keys + [key])[..|keys|] == keys;
  }

  lemma {:induction false} VolumeOverAll(candles: seq<Candle>, period: int -> int)
    ensures VolumeOver(candles, period, Keys(candles, period)) == TotalVolume(candles)
  {
    if candles != [] {
      hide Keys, Members, VolumeOver;
      var init, last := candles[..|candles| - 1], candles[|candles| - 1];
      assert candles == init + [last];
      var keys, key := Keys(init, period), period(last.timestamp);
      VolumeOverAll(init, period);
      KeysNext(init, last, period);
      VolumeOverNext(init, last, period, Keys(candles, period));
      NotYetGrouped(init, period, key);
      if key !in keys {
        VolumeOverNewKey(init, period, keys, key);
      }
    }
  }

  lemma {:induction false} BarsVolume(candles: seq<Candle>, period: int -> int, keys: seq<int>)
    requires forall k :: k in keys ==> k in Keys(candles, period)
    ensures TotalVolume(Bars(candles, period, keys)) == VolumeOver(candles, period, keys)
  {
    if keys != [] {
      var init, last := keys[..|keys| - 1], keys[|keys| - 1];
      assert keys == init + [last];
      BarsVolume(candles, period, init);
      SomeMember(candles, period, last);
      SortVolume(Members(candles, period, last));
      var bars := Bars(candles, period, init);
      assert (bars + [Bar(Members(candles, period, last))])[..|bars|] == bars;
    }
  }

  /** Aggregating neither loses nor invents volume, whatever the list and the calendar. */
  lemma VolumeConserved(candles: seq<Candle>, period: int -> int)
    ensures TotalVolume(Aggregated(candles, period)) == TotalVolume(candles)
  {
    BarsVolume(candles, period, Keys(candles, period));
    VolumeOverAll(candles, period);
  }

  // ----- what a bar says about its candles -----

  lemma {:induction false} VolumeNotNegative(candles: seq<Candle>)
    requires forall i :: 0 <= i < |candles| ==> candles[i].volume >= 0
    ensures TotalVolume(candles) >= 0
  {
    if candles != [] {
      VolumeNotNegative(candles[..|candles| - 1]);
    }
  }

  /** The bar opens with first and closes with last, and no candle of the group lies outside them. */
  ghost predicate Spans(bar: Candle, group: seq<Candle>, first: Candle, last: Candle) {
    && first in group && last in group
    && (forall c :: c in group ==> first.timestamp <= c.timestamp <= last.timestamp)
    && bar.timestamp == first.timestamp && bar.open == first.open && bar.basis == first.basis
    && bar.close == last.close
  }

  lemma OrderedSpans(ordered: seq<Candle>)
    requires ordered != [] && SortedBy(ByTime, ordered)
    ensures forall c :: c in ordered ==> ordered[0].timestamp <= c.timestamp <= ordered[|ordered| - 1].timestamp
  {
    forall k | 0 <= k < |ordered|
      ensures ordered[0].timestamp <= ordered[k].timestamp <= ordered[|ordered| - 1].timestamp
    {
      assert k == 0 || ByTime(ordered[0], ordered[k]);
      assert k == |ordered| - 1 || ByTime(ordered[k], ordered[|ordered| - 1]);
    }
  }

  /** A bar opens with the earliest candle of its group and closes with the latest one. */
  lemma BarSpans(group: seq<Candle>)
    requires group != []
    ensures exists first, last :: Spans(Bar(group), group, first, last)
  {
    hide SortByTime, HighestHigh, LowestLow, TotalVolume, SortedBy;
    SortByTimeLaws(group);
    var ordered := SortByTime(group);
    OrderedSpans(ordered);
    assert ordered[0] in ordered && ordered[|ordered| - 1] in ordered;
    assert Spans(Bar(group), group, ordered[0], ordered[|ordered| - 1]);
  }

  ghost predicate Envelops(bar: Candle, group: seq<Candle>) {
    && (forall c :: c in group ==> bar.low <= c.low && c.high <= bar.high)
    && (exists c :: c in group && c.high == bar.high)
    && (exists c :: c in group && c.low == bar.low)
  }

  /** A bar's extremes are those of its group. */
  lemma BarExtremes(group: seq<Candle>)
    requires group != []
    ensures Envelops(Bar(group), group)
  {
    hide SortByTime, HighestHigh, LowestLow, TotalVolume, SortedBy;
    SortByTimeLaws(group);
    var ordered := SortByTime(group);
    var high, low := HighestHigh(ordered), LowestLow(ordered);
    assert exists c :: c in ordered && c.high == high;
    assert exists c :: c in ordered && c.low == low;
  }

  lemma GroupVolume(group: seq<Candle>)
    requires forall c :: c in group ==> Sound(c)
    ensures TotalVolume(SortByTime(group)) >= 0
  {
    hide SortByTime, SortedBy;
    SortByTimeLaws(group);
    var ordered := SortByTime(group);
    assert forall i :: 0 <= i < |ordered| ==> ordered[i] in ordered;
    VolumeNotNegative(ordered);
  }

  lemma BarSound(group: seq<Candle>)
    requires group != [] && forall c :: c in group ==> Sound(c)
    ensures Sound(Bar(group))
  {
    BarSpans(group);
    BarExtremes(group);
    GroupVolume(group);
    var bar := Bar(group);
    assert bar.volume >= 0;
    hide Bar;
    var first, last :| Spans(bar, group, first, last);
  }

  /** Sound candles aggregate into sound bars. */
  lemma AggregatedSound(candles: seq<Candle>, period: int -> int)
    requires forall c :: c in candles ==> Sound(c)
    ensures forall b :: b in Aggregated(candles, period) ==> Sound(b)
  {
    hide Bar, Sound, Keys, Aggregated;
    var keys := Keys(candles, period);
    BarCount(candles, period);
    forall i | 0 <= i < |keys|
      ensures Sound(Aggregated(candles, period)[i])
    {
      BarAt(candles, period, i);
      BarSound(Members(candles, period, keys[i]));
    }
  }

  /** A bar carries a timestamp of its own period. */
  lemma BarInPeriod(candles: seq<Candle>, period: int -> int, i: nat)
    requires i < |Keys(candles, period)|
    ensures |Aggregated(candles, period)| == |Keys(candles, period)|
    ensures period(Aggregated(candles, period)[i].timestamp) == Keys(candles, period)[i]
  {
    hide Bar, Keys, Aggregated;
    BarAt(candles, period, i);
    BarSpans(Members(candles, period, Keys(candles, period)[i]));
  }

  lemma CandleInBar(candles: seq<Candle>, period: int -> int, c: Candle)
    requires c in candles
    ensures exists b :: b in Aggregated(candles, period) && b.low <= c.low && c.high <= b.high
  {
    hide Bar, Aggregated;
    var keys, bars := Keys(candles, period), Aggregated(candles, period);
    assert period(c.timestamp) in keys;
    var i :| 0 <= i < |keys| && keys[i] == period(c.timestamp);
    BarAt(candles, period, i);
    BarExtremes(Members(candles, period, keys[i]));
    assert bars[i] in bars;
  }

  lemma BarFromCandles(candles: seq<Candle>, period: int -> int, b: Candle)
    requires b in Aggregated(candles, period)
    ensures exists c :: c in candles && c.high == b.high
    ensures exists c :: c in candles && c.low == b.low
  {
    hide Bar, Aggregated, Keys;
    BarCount(candles, period);
    var i :| 0 <= i < |Aggregated(candles, period)| && Aggregated(candles, period)[i] == b;
    BarAt(candles, period, i);
    BarExtremes(Members(candles, period, Keys(candles, period)[i]));
  }

  /** The bars' highest high and lowest low are those of the whole list. */
  lemma EnvelopeKept(candles: seq<Candle>, period: int -> int)
    requires candles != []
    ensures Aggregated(candles, period) != []
    ensures HighestHigh(Aggregated(candles, period)) == HighestHigh(candles)
    ensures LowestLow(Aggregated(candles, period)) == LowestLow(candles)
  {
    hide HighestHigh, LowestLow, Aggregated;
    var bars := Aggregated(candles, period);
    CandleInBar(candles, period, candles[0]);
    var top :| top in candles && top.high == HighestHigh(candles);
    var bottom :| bottom in candles && bottom.low == LowestLow(candles);
    CandleInBar(candles, period, top);
    CandleInBar(candles, period, bottom);
    var topBar :| topBar in bars && topBar.high == HighestHigh(bars);
    var bottomBar :| bottomBar in bars && bottomBar.low == LowestLow(bars);
    BarFromCandles(candles, period, topBar);
    BarFromCandles(candles, period, bottomBar);
  }

  // ----- order, and aggregating again -----

  /** In an ascending list the periods come up in ascending order. */
  lemma {:induction false} KeysAscending(candles: seq<Candle>, period: int -> int)
    requires Ascending(candles) && Monotone(period)
    ensures forall i, j :: 0 <= i < j < |Keys(candles, period)| ==> Keys(candles, period)[i] < Keys(candles, period)[j]
  {
    if candles != [] {
      var init, last := candles[..|candles| - 1], candles[|candles| - 1];
      KeysAscending(init, period);
      var keys := Keys(init, period);
      forall i | 0 <= i < |keys|
        ensures keys[i] <= period(last.timestamp)
      {
        assert keys[i] in keys;
        var c :| c in init && period(c.timestamp) == keys[i];
        var k :| 0 <= k < |init| && init[k] == c;
        assert candles[k].timestamp < candles[|candles| - 1].timestamp;
      }
    }
  }

  /** Ascending candles aggregate into ascending bars. */
  lemma AggregatedAscending(candles: seq<Candle>, period: int -> int)
    requires Ascending(candles) && Monotone(period)
    ensures Ascending(Aggregated(candles, period))
  {
    hide Aggregated, Keys;
    KeysAscending(candles, period);
    BarCount(candles, period);
    var bars := Aggregated(candles, period);
    forall i, j | 0 <= i < j < |bars|
      ensures bars[i].timestamp < bars[j].timestamp
    {
      BarInPeriod(candles, period, i);
      BarInPeriod(candles, period, j);
    }
  }

  lemma BarOfOne(c: Candle)
    ensures Bar([c]) == c
  {
    assert TotalVolume([c]) == TotalVolume([]) + c.volume;
    SortByTimeLaws([c]);
  }

  lemma {:induction false} OneEach(candles: seq<Candle>, period: int -> int)
    requires forall i, j :: 0 <= i < j < |candles| ==> period(candles[i].timestamp) != period(candles[j].timestamp)
    ensures |Keys(candles, period)| == |candles|
    ensures forall i :: 0 <= i < |candles| ==> Keys(candles, period)[i] == period(candles[i].timestamp)
    ensures forall i :: 0 <= i < |candles| ==> Members(candles, period, period(candles[i].timestamp)) == [candles[i]]
  {
    if candles != [] {
      var init, last := candles[..|candles| - 1], candles[|candles| - 1];
      assert forall i :: 0 <= i < |init| ==> init[i] == candles[i];
      OneEach(init, period);
      var key := period(last.timestamp);
      assert key !in Keys(init, period);
      NotYetGrouped(init, period, key);
    }
  }

  /** Aggregating bars again at the same interval changes nothing. */
  lemma AggregatingTwice(candles: seq<Candle>, period: int -> int)
    ensures Aggregated(Aggregated(candles, period), period) == Aggregated(candles, period)
  {
    hide Bar, Aggregated, Keys, Members;
    var keys, bars := Keys(candles, period), Aggregated(candles, period);
    BarCount(candles, period);
    forall i | 0 <= i < |bars|
      ensures period(bars[i].timestamp) == keys[i]
    {
      BarInPeriod(candles, period, i);
    }
    OneEach(bars, period);
    BarCount(bars, period);
    forall i | 0 <= i < |bars|
      ensures Aggregated(bars, period)[i] == bars[i]
    {
      BarAt(bars, period, i);
      BarOfOne(bars[i]);
    }
  }

  // ----- the pipeline -----

  datatype PipelineResult = PipelineResult(rawCount: nat, candles: seq<Candle>, logs: seq<QualityLog>)

  lemma CleanedNotMixed(candles: seq<Candle>)
    requires !Mixed(candles)
    ensures !Mixed(Cleaned(candles))
  {
    CleanedIsClean(candles);
    SubsetSize(Bases(Cleaned(candles)), Bases(candles));
  }

  lemma MixedReported(candles: seq<Candle>, date: int -> int)
    ensures Mixed(candles) <==>
            exists i :: 0 <= i < |Logs(candles, date)| && Logs(candles, date)[i].rule == MixedPriceBasis
  {
    hide Gaps, RowErrors;
    OnlyErrors(candles);
    OnlyWarnings(candles, date);
    if Mixed(candles) {
      assert Logs(candles, date)[0].rule == MixedPriceBasis;
    } else {
      forall i | 0 <= i < |Logs(candles, date)|
        ensures Logs(candles, date)[i].rule != MixedPriceBasis
      {
        var log := Logs(candles, date)[i];
        assert log in RowErrors(candles) + Gaps(candles, date);
      }
    }
  }

  lemma NothingMixed()
    ensures !Mixed([])
  {
    assert Bases([]) == {};
  }

  lemma NothingAggregated(period: int -> int)
    ensures Aggregated([], period) == []
  {
  }

  /** CandlePipeline.process never meets the aggregation error: mixed lists have been emptied by then. */
  method Process(raw: seq<Candle>, interval: Interval, calendar: Calendar) returns (r: PipelineResult)
    ensures r.rawCount == |raw| && r.logs == Logs(raw, calendar.date)
    ensures Mixed(raw) ==> r.candles == []
    ensures !Mixed(raw) ==>
              r.candles == if interval.Day? then Cleaned(raw) else Aggregated(Cleaned(raw), calendar.Period(interval))
  {
    hide Logs, Aggregated, Cleaned;
    var logs := ValidateCandles(raw, calendar.date);
    var cleaned := [];
    MixedReported(raw, calendar.date);
    if !exists i :: 0 <= i < |logs| && logs[i].rule == MixedPriceBasis {
      cleaned := CleanCandles(raw);
      CleanedNotMixed(raw);
    } else {
      NothingMixed();
    }
    var aggregated := AggregateCandles(cleaned, interval, calendar);
    NothingAggregated(calendar.Period(interval));
    r := PipelineResult(|raw|, aggregated.value, logs);
  }

  /** What the pipeline hands on is sound, in strict time order, and has the volume of the cleaned list. */
  lemma PipelineDelivers(raw: seq<Candle>, interval: Interval, calendar: Calendar)
    requires Monotone(calendar.week) && Monotone(calendar.month)
    ensures var cleaned := Cleaned(raw);
            var bars := if interval.Day? then cleaned else Aggregated(cleaned, calendar.Period(interval));
            && Ascending(bars)
            && (forall b :: b in bars ==> Sound(b))
            && TotalVolume(bars) == TotalVolume(cleaned)
            && (!interval.Day? ==> Aggregated(bars, calendar.Period(interval)) == bars)
            && (!Mixed(bars) ==> Errors(bars) == [])
  {
    hide Aggregated, Cleaned, Sound, Errors, TotalVolume;
    var cleaned := Cleaned(raw);
    var period := calendar.Period(interval);
    CleanedIsClean(raw);
    AggregatedAscending(cleaned, period);
    AggregatedSound(cleaned, period);
    VolumeConserved(cleaned, period);
    AggregatingTwice(cleaned, period);
    var bars := if interval.Day? then cleaned else Aggregated(cleaned, period);
    CleanedIdentity(bars);
    ValidExactlyWhenUntouched(bars);
  }
}
