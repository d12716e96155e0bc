/** Validation, cleaning and aggregation of raw candles (backend/app/pipeline/candles.py). */
module CandlePipeline {
  import opened Core
  import opened DataQuality
  import opened Market
  import opened OrderedDicts
  import opened Sorting

  // ----- validation -----

  predicate InRange(c: Candle) {
    c.low <= MinReal(c.open, c.close) && c.high >= MaxReal(c.open, c.close)
  }

  predicate Sound(c: Candle) {
    InRange(c) && c.volume >= 0
  }

  function Bases(candles: seq<Candle>): set<PriceBasis> {
    set c | c in candles :: c.basis
  }

  predicate Mixed(candles: seq<Candle>) {
    |Bases(candles)| > 1
  }

  function Timestamps(candles: seq<Candle>): set<int> {
    set c | c in candles :: c.timestamp
  }

  /** What one candle is reported for, given the candles ahead of it. */
  function ErrorsOf(c: Candle, before: seq<Candle>): seq<QualityLog> {
    var at := Some(c.timestamp);
    (if c.timestamp in Timestamps(before) then [QualityLog(DuplicateTimestamp, at)] else [])
    + (if !InRange(c) then [QualityLog(InvalidOhlc, at)] else [])
    + (if c.volume < 0 then [QualityLog(NegativeVolume, at)] else [])
    + (if before != [] && c.timestamp <= before[|before| - 1].timestamp then [QualityLog(OutOfOrder, at)] else [])
  }

  /** Reporting one finding at a time adds up to reporting them together. */
  lemma ReportedTogether(reported: seq<QualityLog>, c: Candle, before: seq<Candle>)
    ensures var at := Some(c.timestamp);
            var s1 := if c.timestamp in Timestamps(before) then reported + [QualityLog(DuplicateTimestamp, at)]
                      else reported;
            var s2 := if !InRange(c) then s1 + [QualityLog(InvalidOhlc, at)] else s1;
            var s3 := if c.volume < 0 then s2 + [QualityLog(NegativeVolume, at)] else s2;
            var s4 := if before != [] && c.timestamp <= before[|before| - 1].timestamp
                      then s3 + [QualityLog(OutOfOrder, at)] else s3;
            s4 == reported + ErrorsOf(c, before)
  {
    hide Timestamps, InRange;
  }

  function RowErrors(candles: seq<Candle>): seq<QualityLog> {
    if candles == [] then []
    else
      var init, last := candles[..|candles| - 1], candles[|candles| - 1];
      RowErrors(init) + ErrorsOf(last, init)
  }

  lemma NoRows()
    ensures RowErrors([]) == [] && Timestamps([]) == {}
  {
  }

  lemma RowErrorsNext(head: seq<QualityLog>, candles: seq<Candle>, i: nat)
    requires i < |candles|
    ensures head + RowErrors(candles[..i + 1]) == head + RowErrors(candles[..i]) + ErrorsOf(candles[i], candles[..i])
    ensures Timestamps(candles[..i + 1]) == Timestamps(candles[..i]) + {candles[i].timestamp}
  {
    hide ErrorsOf;
    assert candles[..i + 1][..i] == candles[..i];
    assert candles[..i + 1] == candles[..i] + [candles[i]];
  }

  function Errors(candles: seq<Candle>): seq<QualityLog> {
    (if Mixed(candles) then [QualityLog(MixedPriceBasis, None)] else []) + RowErrors(candles)
  }

  function Logs(candles: seq<Candle>, date: int -> int): seq<QualityLog> {
    Errors(candles) + Gaps(candles, date)
  }

  /** Every error in the order of the candles, then the gap warnings; date is the calendar's. */
  method ValidateCandles(candles: seq<Candle>, date: int -> int) returns (logs: seq<QualityLog>)
    ensures logs == Logs(candles, date)
  {
    hide RowErrors, ErrorsOf, Bases, Timestamps, MinReal, MaxReal, Gaps;
    logs := [];
    if |Bases(candles)| > 1 {
      logs := [QualityLog(MixedPriceBasis, None)];
    }
    ghost var basisErrors := logs;
    NoRows();
    var timestamps: set<int> := {};
    var previous: Option<int> := None;
    var i := 0;
    while i < |candles|
      invariant 0 <= i <= |candles|
      invariant timestamps == Timestamps(candles[..i])
      invariant previous == if i == 0 then None else Some(candles[i - 1].timestamp)
      invariant logs == basisErrors + RowErrors(candles[..i])
    {
      var candle := candles[i];
      ReportedTogether(logs, candle, candles[..i]);
      if candle.timestamp in timestamps {
        logs := logs + [QualityLog(DuplicateTimestamp, Some(candle.timestamp))];
      }
      timestamps := timestamps + {candle.timestamp};
      if candle.low > MinReal(candle.open, candle.close) || candle.high < MaxReal(candle.open, candle.close) {
        logs := logs + [QualityLog(InvalidOhlc, Some(candle.timestamp))];
      }
      if candle.volume < 0 {
        logs := logs + [QualityLog(NegativeVolume, Some(candle.timestamp))];
      }
      if previous.Some? && candle.timestamp <= previous.value {
        logs := logs + [QualityLog(OutOfOrder, Some(candle.timestamp))];
      }
      previous := Some(candle.timestamp);
      RowErrorsNext(basisErrors, candles, i);
      i := i + 1;
    }
    assert candles[..i] == candles;
    var gaps := DetectGaps(candles, date);
    logs := logs + gaps;
  }

  // ----- cleaning -----

  /** The sound candles whose timestamp no kept candle ahead of them has. */
  function Kept(candles: seq<Candle>): (r: seq<Candle>)
    ensures forall c :: c in r ==> c in candles && Sound(c)
  {
    if candles == [] then []
    else
      var init, last := candles[..|candles| - 1], candles[|candles| - 1];
      var rest := Kept(init);
      assert candles == init + [last];
      if last.timestamp !in Timestamps(rest) && Sound(last) then rest + [last] else rest
  }

  function Cleaned(candles: seq<Candle>): seq<Candle> {
    Kept(SortByTime(candles))
  }

  lemma NothingKept()
    ensures Kept([]) == [] && Timestamps([]) == {}
  {
  }

  lemma KeptNext(candles: seq<Candle>, i: nat)
    requires i < |candles|
    ensures var before, c := Kept(candles[..i]), candles[i];
            && Kept(candles[..i + 1]) ==
               (if c.timestamp !in Timestamps(before) && Sound(c) then before + [c] else before)
            && Timestamps(before + [c]) == Timestamps(before) + {c.timestamp}
  {
    hide Sound;
    assert candles[..i + 1][..i] == candles[..i];
    assert forall c :: c in Kept(candles[..i]) + [candles[i]] <==> c in Kept(candles[..i]) || c == candles[i];
  }

  method CleanCandles(candles: seq<Candle>) returns (cleaned: seq<Candle>)
    ensures cleaned == Cleaned(candles)
  {
    hide Kept, Sound, SortByTime, Timestamps;
    cleaned := [];
    var seen: set<int> := {};
    var sorted := SortByTime(candles);
    NothingKept();
    var i := 0;
    while i < |sorted|
      invariant 0 <= i <= |sorted|
      invariant cleaned == Kept(sorted[..i]) && seen == Timestamps(cleaned)
    {
      var candle := sorted[i];
      KeptNext(sorted, i);
      if candle.timestamp !in seen && Sound(candle) {
        cleaned := cleaned + [candle];
        seen := seen + {candle.timestamp};
      }
      i := i + 1;
    }
    assert sorted[..i] == sorted;
  }

  /** The first sound candle of a timestamp, in the order given. */
  function FirstSound(candles: seq<Candle>, timestamp: int): Option<Candle> {
    if candles == [] then None
    else if candles[0].timestamp == timestamp && Sound(candles[0]) then Some(candles[0])
    else FirstSound(candles[1..], timestamp)
  }

  lemma {:induction false} FirstSoundAppend(candles: seq<Candle>, c: Candle, timestamp: int)
    ensures FirstSound(candles + [c], timestamp) ==
            if FirstSound(candles, timestamp).Some? then FirstSound(candles, timestamp)
            else if c.timestamp == timestamp && Sound(c) then Some(c)
            else None
  {
    if candles != [] {
      assert (candles + [c])[1..] == candles[1..] + [c];
      FirstSoundAppend(candles[1..], c, timestamp);
    }
  }

  /** Inserting moves a candle only past strictly earlier ones, so no timestamp sees a new first. */
  lemma {:induction false} InsertKeepsFirst(c: Candle, candles: seq<Candle>, timestamp: int)
    ensures FirstSound(Insert(ByTime, c, candles), timestamp) == FirstSound([c] + candles, timestamp)
  {
    if candles != [] && !ByTime(c, candles[0]) {
      InsertKeepsFirst(c, candles[1..], timestamp);
      assert ([c] + candles[1..])[1..] == candles[1..] && ([c] + candles)[1..] == candles;
      assert ([candles[0]] + Insert(ByTime, c, candles[1..]))[1..] == Insert(ByTime, c, candles[1..]);
    }
  }

  lemma {:induction false} SortKeepsFirst(candles: seq<Candle>, timestamp: int)
    ensures FirstSound(SortByTime(candles), timestamp) == FirstSound(candles, timestamp)
  {
    if candles != [] {
      SortKeepsFirst(candles[1..], timestamp);
      InsertKeepsFirst(candles[0], SortByTime(candles[1..]), timestamp);
      assert ([candles[0]] + SortByTime(candles[1..]))[1..] == SortByTime(candles[1..]);
    }
  }

  lemma {:induction false} FirstSoundFinds(candles: seq<Candle>, timestamp: int)
    requires forall c :: c in candles ==> Sound(c)
    ensures FirstSound(candles, timestamp).None? <==> timestamp !in Timestamps(candles)
  {
    if candles != [] {
      assert candles == [candles[0]] + candles[1..];
      assert Timestamps(candles) == {candles[0].timestamp} + Timestamps(candles[1..]);
      FirstSoundFinds(candles[1..], timestamp);
    }
  }

  lemma {:induction false} KeptFirst(candles: seq<Candle>, timestamp: int)
    ensures FirstSound(Kept(candles), timestamp) == FirstSound(candles, timestamp)
  {
    if candles != [] {
      var init, last := candles[..|candles| - 1], candles[|candles| - 1];
      assert candles == init + [last];
      KeptFirst(init, timestamp);
      FirstSoundAppend(init, last, timestamp);
      FirstSoundAppend(Kept(init), last, timestamp);
      FirstSoundFinds(Kept(init), timestamp);
    }
  }

  /** Cleaning keeps, for every timestamp, the first sound candle the raw list has for it. */
  lemma CleanedKeepsFirst(candles: seq<Candle>, timestamp: int)
    ensures FirstSound(Cleaned(candles), timestamp) == FirstSound(candles, timestamp)
  {
    KeptFirst(SortByTime(candles), timestamp);
    SortKeepsFirst(candles, timestamp);
  }

  lemma {:induction false} KeptAscending(candles: seq<Candle>)
    requires SortedBy(ByTime, candles)
    ensures Ascending(Kept(candles))
  {
    if candles != [] {
      var init, last := candles[..|candles| - 1], candles[|candles| - 1];
      KeptAscending(init);
      var rest := Kept(init);
      forall i | 0 <= i < |rest|
        ensures rest[i].timestamp <= last.timestamp && rest[i].timestamp in Timestamps(rest)
      {
        assert rest[i] in rest && rest[i] in init;
        var k :| 0 <= k < |init| && init[k] == rest[i];
        assert ByTime(candles[k], candles[|candles| - 1]);
      }
    }
  }

  /** The cleaned list is strictly ascending and sound, and takes every candle from the raw list. */
  lemma CleanedIsClean(candles: seq<Candle>)
    ensures Ascending(Cleaned(candles))
    ensures forall c :: c in Cleaned(candles) ==> c in candles && Sound(c)
  {
    SortByTimeLaws(candles);
    KeptAscending(SortByTime(candles));
  }

  lemma {:induction false} KeptIdentity(candles: seq<Candle>)
    requires Ascending(candles) && forall i :: 0 <= i < |candles| ==> Sound(candles[i])
    ensures Kept(candles) == candles
  {
    if candles != [] {
      KeptIdentity(candles[..|candles| - 1]);
      assert candles == candles[..|candles| - 1] + [candles[|candles| - 1]];
    }
  }

  lemma CleanedIdentity(candles: seq<Candle>)
    requires Ascending(candles) && forall c :: c in candles ==> Sound(c)
    ensures Cleaned(candles) == candles
  {
    SortByTimeLaws(candles);
    assert forall i :: 0 <= i < |candles| ==> candles[i] in candles;
    KeptIdentity(candles);
  }

  lemma CleaningTwice(candles: seq<Candle>)
    ensures Cleaned(Cleaned(candles)) == Cleaned(candles)
  {
    CleanedIsClean(candles);
    CleanedIdentity(Cleaned(candles));
  }

  lemma AscendingAppend(init: seq<Candle>, last: Candle)
    ensures Ascending(init + [last]) <==> Ascending(init) && forall b :: b in init ==> b.timestamp < last.timestamp
    ensures (forall c :: c in init + [last] ==> Sound(c)) <==> (forall c :: c in init ==> Sound(c)) && Sound(last)
  {
    var whole := init + [last];
    if Ascending(whole) {
      assert forall i, j :: 0 <= i < j < |init| ==> whole[i] == init[i] && whole[j] == init[j];
      assert forall i :: 0 <= i < |init| ==> whole[i].timestamp < whole[|init|].timestamp;
    }
    if Ascending(init) && forall b :: b in init ==> b.timestamp < last.timestamp {
      assert forall i :: 0 <= i < |init| ==> init[i] in init;
    }
    if forall c :: c in whole ==> Sound(c) {
      assert last in whole;
      assert forall c :: c in init ==> c in whole;
    }
  }

  lemma NoErrorsOf(c: Candle, before: seq<Candle>)
    requires Ascending(before)
    ensures ErrorsOf(c, before) == [] <==> Sound(c) && forall b :: b in before ==> b.timestamp < c.timestamp
  {
    if before != [] {
      var newest := before[|before| - 1];
      assert newest in before && newest.timestamp in Timestamps(before);
      assert forall b :: b in before ==> b.timestamp <= newest.timestamp;
    }
    assert forall b :: b in before ==> b.timestamp in Timestamps(before);
  }

  lemma {:induction false} NoRowErrors(candles: seq<Candle>)
    ensures RowErrors(candles) == [] <==> Ascending(candles) && forall c :: c in candles ==> Sound(c)
  {
    if candles != [] {
      hide ErrorsOf, Ascending, Sound;
      var init, last := candles[..|candles| - 1], candles[|candles| - 1];
      assert candles == init + [last];
      NoRowErrors(init);
      AscendingAppend(init, last);
      if Ascending(init) {
        NoErrorsOf(last, init);
      }
    }
  }

  /** The validator is silent exactly on the lists of one price basis that cleaning leaves as they are. */
  lemma ValidExactlyWhenUntouched(candles: seq<Candle>)
    ensures Errors(candles) == [] <==> !Mixed(candles) && Cleaned(candles) == candles
  {
    NoRowErrors(candles);
    CleanedIsClean(candles);
    if Ascending(candles) && (forall c :: c in candles ==> Sound(c)) {
      CleanedIdentity(candles);
    }
  }

  /** Sound: the low and the high enclose the open and the close, and the volume is not negative. */
  lemma SoundExactly(c: Candle)
    ensures Sound(c) <==> c.low <= c.open <= c.high && c.low <= c.close <= c.high && c.volume >= 0
  {
  }

  /** What candle i is at fault for under a rule, read off the list. */
  ghost predicate AtFault(candles: seq<Candle>, i: int, rule: Rule) {
    && 0 <= i < |candles|
    && var c := candles[i];
       match rule
       case DuplicateTimestamp => exists j :: 0 <= j < i && candles[j].timestamp == c.timestamp
       case InvalidOhlc => c.low > c.open || c.low > c.close || c.high < c.open || c.high < c.close
       case NegativeVolume => c.volume < 0
       case OutOfOrder => i > 0 && c.timestamp <= candles[i - 1].timestamp
       case _ => false
  }

  lemma ErrorsOfExactly(candles: seq<Candle>, i: nat, log: QualityLog)
    requires i < |candles|
    ensures log in ErrorsOf(candles[i], candles[..i]) <==>
            log.timestamp == Some(candles[i].timestamp) && AtFault(candles, i, log.rule)
  {
    var before := candles[..i];
    assert candles[i].timestamp in Timestamps(before) <==>
           exists j :: 0 <= j < i && candles[j].timestamp == candles[i].timestamp by {
      if candles[i].timestamp in Timestamps(before) {
        var c :| c in before && c.timestamp == candles[i].timestamp;
        var j :| 0 <= j < i && before[j] == c;
        assert candles[j].timestamp == candles[i].timestamp;
      }
      if j :| 0 <= j < i && candles[j].timestamp == candles[i].timestamp {
        assert before[j] in before;
      }
    }
    assert i > 0 ==> before[|before| - 1] == candles[i - 1];
  }

  lemma AtFaultInFront(candles: seq<Candle>, count: nat, i: int, rule: Rule)
    requires count <= |candles|
    ensures AtFault(candles[..count], i, rule) <==> i < count && AtFault(candles, i, rule)
    ensures AtFault(candles, i, rule) ==> 0 <= i < |candles|
  {
  }

  lemma NoFaultInNothing(rule: Rule)
    ensures forall i :: !AtFault([], i, rule)
  {
  }

  /** A row error is logged exactly when some candle of that time is at fault under that rule. */
  lemma {:induction false} RowErrorsExactly(candles: seq<Candle>, log: QualityLog)
    ensures log in RowErrors(candles) <==>
            exists i :: AtFault(candles, i, log.rule) && log.timestamp == Some(candles[i].timestamp)
  {
    hide AtFault, ErrorsOf;
    if candles == [] {
      NoFaultInNothing(log.rule);
    } else {
      var last := |candles| - 1;
      var init := candles[..last];
      RowErrorsExactly(init, log);
      ErrorsOfExactly(candles, last, log);
      forall i
        ensures AtFault(init, i, log.rule) <==> i < last && AtFault(candles, i, log.rule)
        ensures AtFault(candles, i, log.rule) ==> 0 <= i < |candles|
      {
        AtFaultInFront(candles, last, i, log.rule);
      }
    }
  }

  /** Bases are mixed exactly when two candles differ in theirs. */
  lemma MixedExactly(candles: seq<Candle>)
    ensures Mixed(candles) <==> exists i, j :: 0 <= i < |candles| && 0 <= j < |candles|
                                              && candles[i].basis != candles[j].basis
  {
    var bases := Bases(candles);
    if i, j :| 0 <= i < |candles| && 0 <= j < |candles| && candles[i].basis != candles[j].basis {
      SubsetSize({candles[i].basis, candles[j].basis}, bases);
    } else if candles == [] {
      assert bases == {};
    } else {
      forall basis | basis in bases
        ensures basis == candles[0].basis
      {
        var c :| c in candles && c.basis == basis;
        var k :| 0 <= k < |candles| && candles[k] == c;
      }
      assert candles[0] in candles;
      assert bases == {candles[0].basis};
    }
  }

  lemma {:induction false} OnlyErrors(candles: seq<Candle>)
    ensures forall e :: e in RowErrors(candles) ==> e.IsError() && e.rule != MixedPriceBasis
  {
    if candles != [] {
      OnlyErrors(candles[..|candles| - 1]);
    }
  }

  lemma OnlyWarnings(candles: seq<Candle>, date: int -> int)
    ensures forall log :: log in Gaps(candles, date) ==> !log.IsError()
  {
    hide Gaps;
    forall log | log in Gaps(candles, date)
      ensures !log.IsError()
    {
      GapsExactly(candles, date, log);
    }
  }

  /** Said of the logs themselves: none of them is an error exactly on those lists. */
  lemma NoErrorLoggedExactly(candles: seq<Candle>, date: int -> int)
    ensures (forall log :: log in Logs(candles, date) ==> !log.IsError()) <==>
            !Mixed(candles) && Cleaned(candles) == candles
  {
    hide Gaps, RowErrors, Mixed, Cleaned;
    ValidExactlyWhenUntouched(candles);
    OnlyErrors(candles);
    OnlyWarnings(candles, date);
    var errors := Errors(candles);
    if errors != [] {
      assert errors[0] in Logs(candles, date);
      assert errors[0].IsError() by {
        assert errors[0] in errors;
      }
    }
  }

  lemma HeadIsEarliest(candles: seq<Candle>, timestamp: int)
    requires candles != [] && Ascending(candles) && forall c :: c in candles ==> Sound(c)
    ensures FirstSound(candles, candles[0].timestamp) == Some(candles[0])
    ensures FirstSound(candles, timestamp).Some? ==> candles[0].timestamp <= timestamp
    ensures FirstSound(candles[1..], timestamp).Some? ==> candles[0].timestamp < timestamp
  {
    assert candles[0] in candles;
    FirstSoundFinds(candles, timestamp);
    assert forall c :: c in candles[1..] ==> c in candles;
    FirstSoundFinds(candles[1..], timestamp);
  }

  /** Strictly ascending sound lists with the same first candles are the same list. */
  lemma {:induction false} DeterminedByFirst(left: seq<Candle>, right: seq<Candle>)
    requires Ascending(left) && Ascending(right)
    requires forall c :: c in left ==> Sound(c)
    requires forall c :: c in right ==> Sound(c)
    requires forall t :: FirstSound(left, t) == FirstSound(right, t)
    ensures left == right
  {
    if left == [] || right == [] {
      var longer := if left == [] then right else left;
      if longer != [] {
        HeadIsEarliest(longer, longer[0].timestamp);
      }
    } else {
      HeadIsEarliest(left, right[0].timestamp);
      HeadIsEarliest(right, left[0].timestamp);
      assert FirstSound(left, left[0].timestamp) == FirstSound(right, left[0].timestamp);
      assert FirstSound(left, right[0].timestamp) == FirstSound(right, right[0].timestamp);
      forall t
        ensures FirstSound(left[1..], t) == FirstSound(right[1..], t)
      {
        assert FirstSound(left, t) == FirstSound(right, t);
        HeadIsEarliest(left, t);
        HeadIsEarliest(right, t);
      }
      DeterminedByFirst(left[1..], right[1..]);
      assert left == [left[0]] + left[1..] && right == [right[0]] + right[1..];
    }
  }

  /** Those laws leave one list only: the cleaned one. */
  lemma CleanedIsTheOnlyOne(candles: seq<Candle>, other: seq<Candle>)
    requires Ascending(other) && forall c :: c in other ==> Sound(c)
    requires forall t :: FirstSound(other, t) == FirstSound(candles, t)
    ensures other == Cleaned(candles)
  {
    CleanedIsClean(candles);
    forall t
      ensures FirstSound(other, t) == FirstSound(Cleaned(candles), t)
    {
      CleanedKeepsFirst(candles, t);
    }
    DeterminedByFirst(other, Cleaned(candles));
  }
}
