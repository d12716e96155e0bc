/** Quality logs, and the warning about missing business days (backend/app/pipeline/candles.py). */
module DataQuality {
  import opened Core
  import opened Market
  import opened Sorting

  datatype Rule =
    | MixedPriceBasis | DuplicateTimestamp | InvalidOhlc | NegativeVolume | OutOfOrder
    | MissingDailyCandles

  datatype QualityLog = QualityLog(rule: Rule, timestamp: Option<int>) {
    /** The gap warning is the one rule that is not an error. */
    predicate IsError() {
      !rule.MissingDailyCandles?
    }
  }

  const MIN_MISSING_DAYS := 5

  // ----- business days; a date is its proleptic ordinal, of which 1 is a Monday -----

  /** 0 is a Monday. */
  function Weekday(date: int): int {
    (date + 6) % 7
  }

  predicate IsBusinessDay(date: int) {
    Weekday(date) < 5
  }

  lemma NextWeekday(date: int)
    ensures 0 <= Weekday(date) < 7
    ensures Weekday(date + 1) == if Weekday(date) == 6 then 0 else Weekday(date) + 1
  {
  }

  function BusinessDays(start: int, end: int): set<int> {
    set date | start < date < end && IsBusinessDay(date)
  }

  lemma OneMoreDay(start: int, current: int)
    requires start < current
    ensures BusinessDays(start, current + 1) ==
            if IsBusinessDay(current) then BusinessDays(start, current) + {current} else BusinessDays(start, current)
  {
    hide IsBusinessDay;
  }

  method BusinessDaysBetween(start: int, end: int) returns (count: nat)
    ensures count == |BusinessDays(start, end)|
  {
    var current := start + 1;
    count := 0;
    assert BusinessDays(start, current) == {};
    while current < end
      invariant start < current && (current <= end || current == start + 1)
      invariant count == |BusinessDays(start, current)|
    {
      OneMoreDay(start, current);
      if IsBusinessDay(current) {
        count := count + 1;
      }
      current := current + 1;
    }
    assert current > end ==> BusinessDays(start, end) == {};
  }

  function One(business: bool): nat {
    if business then 1 else 0
  }

  lemma OneMoreDayCounts(start: int, current: int)
    requires start < current
    ensures |BusinessDays(start, current + 1)| == |BusinessDays(start, current)| + One(IsBusinessDay(current))
  {
    hide IsBusinessDay;
    OneMoreDay(start, current);
  }

  lemma FiveInSeven(date: int)
    ensures One(IsBusinessDay(date)) + One(IsBusinessDay(date + 1)) + One(IsBusinessDay(date + 2))
            + One(IsBusinessDay(date + 3)) + One(IsBusinessDay(date + 4)) + One(IsBusinessDay(date + 5))
            + One(IsBusinessDay(date + 6)) == 5
  {
    hide Weekday;
    NextWeekday(date);
    NextWeekday(date + 1);
    NextWeekday(date + 2);
    NextWeekday(date + 3);
    NextWeekday(date + 4);
    NextWeekday(date + 5);
  }

  /** The first week: ordinals 1 to 5 are Monday to Friday. */
  lemma FirstWeek()
    ensures BusinessDays(0, 8) == {1, 2, 3, 4, 5}
  {
    forall date
      ensures date in BusinessDays(0, 8) <==> date in {1, 2, 3, 4, 5}
    {
      if 0 < date < 8 {
        assert Weekday(date) == date - 1;
      }
    }
  }

  /** Any seven days in a row hold five business days. */
  lemma WeekHasFive(start: int, end: int)
    requires start < end
    ensures |BusinessDays(start, end + 7)| == |BusinessDays(start, end)| + 5
  {
    hide IsBusinessDay, BusinessDays;
    FiveInSeven(end);
    OneMoreDayCounts(start, end);
    OneMoreDayCounts(start, end + 1);
    OneMoreDayCounts(start, end + 2);
    OneMoreDayCounts(start, end + 3);
    OneMoreDayCounts(start, end + 4);
    OneMoreDayCounts(start, end + 5);
    OneMoreDayCounts(start, end + 6);
  }

  // ----- gaps -----

  /** sorted({candle.timestamp}): each timestamp of a sorted list once. */
  function DistinctTimes(sorted: seq<Candle>): (r: seq<int>)
    ensures forall t :: t in r <==> exists c :: c in sorted && c.timestamp == t
  {
    if sorted == [] then []
    else
      var init, last := sorted[..|sorted| - 1], sorted[|sorted| - 1];
      var rest := DistinctTimes(init);
      assert sorted == init + [last];
      if last.timestamp in rest then rest else rest + [last.timestamp]
  }

  predicate Increasing(times: seq<int>) {
    forall i, j :: 0 <= i < j < |times| ==> times[i] < times[j]
  }

  lemma {:induction false} DistinctTimesIncrease(sorted: seq<Candle>)
    requires SortedBy(ByTime, sorted)
    ensures Increasing(DistinctTimes(sorted))
  {
    if sorted != [] {
      var init, last := sorted[..|sorted| - 1], sorted[|sorted| - 1];
      DistinctTimesIncrease(init);
      var rest := DistinctTimes(init);
      forall i | 0 <= i < |rest|
        ensures rest[i] <= last.timestamp
      {
        assert rest[i] in rest;
        var c :| c in init && c.timestamp == rest[i];
        var k :| 0 <= k < |init| && init[k] == c;
        assert ByTime(sorted[k], sorted[|sorted| - 1]);
      }
    }
  }

  predicate IsGap(previous: int, current: int, date: int -> int) {
    |BusinessDays(date(previous), date(current))| >= MIN_MISSING_DAYS
  }

  /** The warnings among the first count timestamps. */
  function GapLogs(times: seq<int>, date: int -> int, count: nat): seq<QualityLog>
    requires count <= |times|
  {
    if count <= 1 then []
    else
      var before := GapLogs(times, date, count - 1);
      if IsGap(times[count - 2], times[count - 1], date)
      then before + [QualityLog(MissingDailyCandles, Some(times[count - 1]))] else before
  }

  function Gaps(candles: seq<Candle>, date: int -> int): seq<QualityLog> {
    var times := DistinctTimes(SortByTime(candles));
    GapLogs(times, date, |times|)
  }

  method DetectGaps(candles: seq<Candle>, date: int -> int) returns (logs: seq<QualityLog>)
    ensures logs == Gaps(candles, date)
  {
    hide BusinessDays, DistinctTimes, SortByTime;
    var timestamps := DistinctTimes(SortByTime(candles));
    logs := [];
    var i := 1;
    while i < |timestamps|
      invariant 1 <= i && (i <= |timestamps| || timestamps == [])
      invariant logs == GapLogs(timestamps, date, Min(i, |timestamps|))
    {
      var missing := BusinessDaysBetween(date(timestamps[i - 1]), date(timestamps[i]));
      if missing >= MIN_MISSING_DAYS {
        logs := logs + [QualityLog(MissingDailyCandles, Some(timestamps[i]))];
      }
      i := i + 1;
    }
  }

  /** Two candles' timestamps with no other candle's between them. */
  ghost predicate Adjacent(candles: seq<Candle>, previous: int, current: int) {
    && previous < current
    && (exists c :: c in candles && c.timestamp == previous)
    && (exists c :: c in candles && c.timestamp == current)
    && forall c :: c in candles ==> c.timestamp <= previous || c.timestamp >= current
  }

  lemma {:induction false} GapLogsExactly(times: seq<int>, date: int -> int, count: nat, log: QualityLog)
    requires count <= |times|
    ensures log in GapLogs(times, date, count) <==>
            exists i :: 1 <= i < count && IsGap(times[i - 1], times[i], date)
                        && log == QualityLog(MissingDailyCandles, Some(times[i]))
  {
    hide IsGap;
    if count > 1 {
      GapLogsExactly(times, date, count - 1, log);
      var before := GapLogs(times, date, count - 1);
      if IsGap(times[count - 2], times[count - 1], date) {
        var last := QualityLog(MissingDailyCandles, Some(times[count - 1]));
        assert log in before + [last] <==> log in before || log == last;
      }
    }
  }

  lemma NeighboursAreAdjacent(candles: seq<Candle>, i: nat)
    requires 1 <= i < |DistinctTimes(SortByTime(candles))|
    ensures var times := DistinctTimes(SortByTime(candles)); Adjacent(candles, times[i - 1], times[i])
  {
    hide SortByTime, DistinctTimes;
    var times := DistinctTimes(SortByTime(candles));
    SortByTimeLaws(candles);
    DistinctTimesIncrease(SortByTime(candles));
    assert times[i - 1] in times && times[i] in times;
    forall c | c in candles
      ensures c.timestamp <= times[i - 1] || c.timestamp >= times[i]
    {
      assert c.timestamp in times;
      var k :| 0 <= k < |times| && times[k] == c.timestamp;
    }
  }

  lemma AdjacentAreNeighbours(candles: seq<Candle>, previous: int, current: int) returns (at: nat)
    requires Adjacent(candles, previous, current)
    ensures var times := DistinctTimes(SortByTime(candles));
            1 <= at < |times| && times[at - 1] == previous && times[at] == current
  {
    hide SortByTime, DistinctTimes;
    var times := DistinctTimes(SortByTime(candles));
    SortByTimeLaws(candles);
    DistinctTimesIncrease(SortByTime(candles));
    assert previous in times && current in times;
    var i :| 0 <= i < |times| && times[i] == previous;
    var j :| 0 <= j < |times| && times[j] == current;
    assert i < j;
    assert times[i + 1] in times;
    assert j == i + 1;
    at := j;
  }

  /** A gap is reported exactly between adjacent candles with five or more business days missing, at the later one. */
  lemma GapsExactly(candles: seq<Candle>, date: int -> int, log: QualityLog)
    ensures log in Gaps(candles, date) <==>
            exists previous, current :: Adjacent(candles, previous, current)
                                        && |BusinessDays(date(previous), date(current))| >= 5
                                        && log == QualityLog(MissingDailyCandles, Some(current))
  {
    hide Adjacent, BusinessDays, SortByTime, DistinctTimes, GapLogs;
    var times := DistinctTimes(SortByTime(candles));
    GapLogsExactly(times, date, |times|, log);
    forall i | 1 <= i < |times|
      ensures Adjacent(candles, times[i - 1], times[i])
    {
      NeighboursAreAdjacent(candles, i);
    }
    if previous, current :|
         Adjacent(candles, previous, current) && |BusinessDays(date(previous), date(current))| >= 5
         && log == QualityLog(MissingDailyCandles, Some(current))
    {
      var at := AdjacentAreNeighbours(candles, previous, current);
      assert IsGap(times[at - 1], times[at], date);
    }
  }
}
