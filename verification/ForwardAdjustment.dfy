/** The look-ahead-safe engine: history before an event is never rewritten. */
module ForwardAdjustment {
  import opened Core
  import opened Sorting
  import opened OrderedDicts
  import opened Market
  import opened CorporateActions

  datatype Adjustment = Adjustment(candles: seq<Candle>, applied: seq<Action>)

  type Groups = Dict<EventKey, seq<Action>>

  function GroupAt(groups: Groups, key: EventKey): seq<Action> {
    if key in groups.items then groups.items[key] else []
  }

  /** grouped.setdefault(key, []).append(action) over the eligible actions. */
  function GroupsOf(actions: seq<Action>, asOf: int): (r: Groups)
    ensures r.Valid()
  {
    if actions == [] then Empty()
    else
      var before := GroupsOf(actions[..|actions| - 1], asOf);
      var a := actions[|actions| - 1];
      if Eligible(a, asOf) then before.Set(KeyOf(a), GroupAt(before, KeyOf(a)) + [a]) else before
  }

  /** The loop over the groups: each must hold one action, known no later than it takes effect. */
  function Select(groups: seq<seq<Action>>): (r: Result<seq<Action>, Error>)
    ensures r.Err? ==> r.error == CorrectedHistory || r.error == KnownTooLate
  {
    if groups == [] then Ok([])
    else
      var before :- Select(groups[..|groups| - 1]);
      var revisions := groups[|groups| - 1];
      if |revisions| != 1 then Err(CorrectedHistory)
      else if revisions[0].knownAt > revisions[0].effectiveAt then Err(KnownTooLate)
      else Ok(if revisions[0].status == "confirmed" then before + [revisions[0]] else before)
  }

  function Selected(actions: seq<Action>, asOf: int): Result<seq<Action>, Error> {
    if FirstFault(actions).Some? then Err(FirstFault(actions).value)
    else Select(GroupsOf(actions, asOf).Values())
  }

  // ----- which actions are selected, and when selection succeeds -----

  ghost predicate SameEventTwice(actions: seq<Action>) {
    exists i, j :: 0 <= i < j < |actions| && KeyOf(actions[i]) == KeyOf(actions[j])
  }

  /** One revision per event, none of them learnt after it took effect. */
  ghost predicate Clean(actions: seq<Action>, asOf: int) {
    var eligible := EligibleOnly(actions, asOf);
    !SameEventTwice(eligible) && forall a :: a in eligible ==> a.knownAt <= a.effectiveAt
  }

  function WithKey(actions: seq<Action>, key: EventKey): seq<Action> {
    if actions == [] then []
    else
      var rest := WithKey(actions[..|actions| - 1], key);
      if KeyOf(actions[|actions| - 1]) == key then rest + [actions[|actions| - 1]] else rest
  }

  lemma {:induction false} OneInGroup(actions: seq<Action>, i: nat)
    requires i < |actions|
    ensures |WithKey(actions, KeyOf(actions[i]))| >= 1
  {
    if i < |actions| - 1 {
      OneInGroup(actions[..|actions| - 1], i);
    }
  }

  lemma {:induction false} TwoInGroup(actions: seq<Action>, i: nat, j: nat)
    requires i < j < |actions| && KeyOf(actions[i]) == KeyOf(actions[j])
    ensures |WithKey(actions, KeyOf(actions[i]))| >= 2
  {
    var init := actions[..|actions| - 1];
    if j == |actions| - 1 {
      OneInGroup(init, i);
    } else {
      TwoInGroup(init, i, j);
    }
  }

  lemma {:induction false} GroupMembers(actions: seq<Action>, key: EventKey)
    ensures forall a :: a in WithKey(actions, key) <==> a in actions && KeyOf(a) == key
  {
    if actions != [] {
      GroupMembers(actions[..|actions| - 1], key);
      assert actions == actions[..|actions| - 1] + [actions[|actions| - 1]];
    }
  }

  predicate GoodGroup(group: seq<Action>) {
    |group| == 1 && group[0].knownAt <= group[0].effectiveAt
  }

  lemma {:induction false} SelectSucceeds(groups: seq<seq<Action>>)
    ensures Select(groups).Ok? <==> forall i :: 0 <= i < |groups| ==> GoodGroup(groups[i])
  {
    if groups != [] {
      var init := groups[..|groups| - 1];
      SelectSucceeds(init);
      assert forall i :: 0 <= i < |init| ==> init[i] == groups[i];
    }
  }

  lemma {:induction false} GroupContents(actions: seq<Action>, asOf: int, key: EventKey)
    ensures GroupAt(GroupsOf(actions, asOf), key) == WithKey(EligibleOnly(actions, asOf), key)
    ensures key in GroupsOf(actions, asOf).items <==> exists a :: a in EligibleOnly(actions, asOf) && KeyOf(a) == key
  {
    if actions != [] {
      var init, a := actions[..|actions| - 1], actions[|actions| - 1];
      GroupContents(init, asOf, key);
      var before := EligibleOnly(init, asOf);
      if Eligible(a, asOf) {
        assert (before + [a])[..|before|] == before;
        assert a in before + [a];
        assert forall b :: b in before + [a] <==> b in before || b == a;
      }
    }
  }

  lemma GroupIsGood(actions: seq<Action>, asOf: int, a: Action)
    requires a in EligibleOnly(actions, asOf)
    requires forall i :: 0 <= i < |GroupsOf(actions, asOf).Values()| ==> GoodGroup(GroupsOf(actions, asOf).Values()[i])
    ensures GoodGroup(WithKey(EligibleOnly(actions, asOf), KeyOf(a)))
  {
    var groups := GroupsOf(actions, asOf);
    GroupContents(actions, asOf, KeyOf(a));
    var i :| 0 <= i < |groups.keys| && groups.keys[i] == KeyOf(a);
    assert groups.Values()[i] == groups.items[KeyOf(a)];
  }

  /** On a clean history the groups are the eligible actions, one by one and in order. */
  lemma {:induction false} CleanGroups(actions: seq<Action>, asOf: int)
    requires Clean(actions, asOf)
    ensures var values, eligible := GroupsOf(actions, asOf).Values(), EligibleOnly(actions, asOf);
            |values| == |eligible| && forall i :: 0 <= i < |values| ==>
              values[i] == [eligible[i]] && GoodGroup(values[i])
  {
    if actions != [] {
      var init, a := actions[..|actions| - 1], actions[|actions| - 1];
      var before, eligible := EligibleOnly(init, asOf), EligibleOnly(actions, asOf);
      assert Clean(init, asOf) by {
        assert forall i :: 0 <= i < |before| ==> before[i] == eligible[i];
      }
      CleanGroups(init, asOf);
      if Eligible(a, asOf) {
        var groups := GroupsOf(init, asOf);
        GroupContents(init, asOf, KeyOf(a));
        assert eligible[|before|] == a;
        assert KeyOf(a) !in groups.items by {
          assert forall i :: 0 <= i < |before| ==> eligible[i] == before[i];
        }
        var values := GroupsOf(actions, asOf).Values();
        assert a in eligible;
        forall i | 0 <= i < |values|
          ensures values[i] == [eligible[i]] && GoodGroup(values[i])
        {
          if i < |before| {
            assert values[i] == groups.Values()[i];
          }
        }
      }
    }
  }

  /** Selection succeeds exactly on a clean history. */
  lemma SelectedExactlyWhenClean(actions: seq<Action>, asOf: int)
    ensures Selected(actions, asOf).Ok? <==> FirstFault(actions).None? && Clean(actions, asOf)
  {
    var groups := GroupsOf(actions, asOf);
    var eligible := EligibleOnly(actions, asOf);
    SelectSucceeds(groups.Values());
    if FirstFault(actions).None? && Select(groups.Values()).Ok? {
      forall a | a in eligible
        ensures a.knownAt <= a.effectiveAt
      {
        GroupIsGood(actions, asOf, a);
        GroupMembers(eligible, KeyOf(a));
      }
      forall i, j | 0 <= i < j < |eligible|
        ensures KeyOf(eligible[i]) != KeyOf(eligible[j])
      {
        GroupIsGood(actions, asOf, eligible[i]);
        if KeyOf(eligible[i]) == KeyOf(eligible[j]) {
          TwoInGroup(eligible, i, j);
        }
      }
    }
    if Clean(actions, asOf) {
      CleanGroups(actions, asOf);
    }
  }

  lemma {:induction false} SelectSingletons(groups: seq<seq<Action>>, eligible: seq<Action>)
    requires |groups| == |eligible|
    requires forall i :: 0 <= i < |groups| ==> groups[i] == [eligible[i]] && GoodGroup(groups[i])
    ensures Select(groups) == Ok(Confirmed(eligible))
  {
    if groups != [] {
      SelectSingletons(groups[..|groups| - 1], eligible[..|eligible| - 1]);
    }
  }

  /** What is selected: the confirmed ones among the eligible actions, in the order given. */
  lemma SelectedIsConfirmed(actions: seq<Action>, asOf: int)
    requires Selected(actions, asOf).Ok?
    ensures Selected(actions, asOf).value == Confirmed(EligibleOnly(actions, asOf))
  {
    SelectedExactlyWhenClean(actions, asOf);
    CleanGroups(actions, asOf);
    SelectSingletons(GroupsOf(actions, asOf).Values(), EligibleOnly(actions, asOf));
  }

  lemma SelectedPositive(actions: seq<Action>, asOf: int)
    ensures Selected(actions, asOf).Ok? ==> Positive(Selected(actions, asOf).value)
  {
    if Selected(actions, asOf).Ok? {
      SelectedIsConfirmed(actions, asOf);
      FaultlessIsPositive(actions);
      FiltersKeep(actions, asOf);
      FiltersKeep(EligibleOnly(actions, asOf), asOf);
    }
  }

  ghost function Forward(candles: seq<Candle>, actions: seq<Action>, asOf: int): Result<Adjustment, Error> {
    if !AllUnadjusted(candles) then Err(NotUnadjusted)
    else
      var selected :- Selected(actions, asOf);
      SelectedPositive(actions, asOf);
      Ok(Adjustment(
           seq(|candles|,
               i requires 0 <= i < |candles| => Scaled(candles[i], FactorsSince(selected, candles[i].timestamp))),
                    Sort(ByEffective, selected)))
  }

  /** What the forward engine applies: every confirmed action known and in force, each once, by date. */
  lemma AppliedExactly(candles: seq<Candle>, actions: seq<Action>, asOf: int)
    requires Forward(candles, actions, asOf).Ok?
    ensures var applied := Forward(candles, actions, asOf).value.applied;
            && EachOnce(applied) && ByDate(applied)
            && forall a :: a in applied <==>
                 a in actions && a.knownAt <= asOf && a.effectiveAt <= asOf && a.status == "confirmed"
  {
    var eligible := EligibleOnly(actions, asOf);
    SelectedIsConfirmed(actions, asOf);
    SelectedExactlyWhenClean(actions, asOf);
    EligibleExactly(actions, asOf);
    ConfirmedExactly(eligible);
    SortMembers(ByEffective, Confirmed(eligible));
    DistinctOnce(eligible);
    ConfirmedWithin(eligible);
    SortedByDate(Confirmed(eligible));
  }

  // ----- stability as knowledge grows -----

  lemma {:induction false} EligibleInOrder(actions: seq<Action>, earlier: int, later: int)
    requires earlier <= later
    ensures EligibleOnly(EligibleOnly(actions, later), earlier) == EligibleOnly(actions, earlier)
  {
    if actions != [] {
      var init, a := actions[..|actions| - 1], actions[|actions| - 1];
      EligibleInOrder(init, earlier, later);
      if Eligible(a, later) {
        var before := EligibleOnly(init, later);
        assert (before + [a])[..|before|] == before;
      }
    }
  }

  lemma {:induction false} EligibleDistinct(actions: seq<Action>, asOf: int)
    requires !SameEventTwice(actions)
    ensures !SameEventTwice(EligibleOnly(actions, asOf))
  {
    if actions != [] {
      var init, a := actions[..|actions| - 1], actions[|actions| - 1];
      assert forall i, j :: 0 <= i < j < |init| ==> KeyOf(actions[i]) != KeyOf(actions[j]);
      EligibleDistinct(init, asOf);
      FiltersKeep(init, asOf);
      var before, after := EligibleOnly(init, asOf), EligibleOnly(actions, asOf);
      forall i, j | 0 <= i < j < |after|
        ensures KeyOf(after[i]) != KeyOf(after[j])
      {
        assert after[i] == before[i];
        if j < |before| {
          assert after[j] == before[j];
        } else {
          assert before[i] in init;
          var k :| 0 <= k < |init| && init[k] == before[i];
          assert KeyOf(actions[k]) != KeyOf(actions[|actions| - 1]);
        }
      }
    }
  }

  /** Being acceptable at a later time implies being acceptable at every earlier one. */
  lemma CleanEarlier(actions: seq<Action>, earlier: int, later: int)
    requires earlier <= later && Clean(actions, later)
    ensures Clean(actions, earlier)
  {
    EligibleInOrder(actions, earlier, later);
    EligibleDistinct(EligibleOnly(actions, later), earlier);
    FiltersKeep(actions, earlier);
    FiltersKeep(actions, later);
  }

  lemma LastFactor(actions: seq<Action>, a: Action, timestamp: int)
    requires Positive(actions) && Positive([a])
    ensures Positive(actions + [a])
    ensures FactorsSince(actions + [a], timestamp) ==
            var rest := FactorsSince(actions, timestamp);
            assert a in [a];
            if timestamp >= a.effectiveAt then (Over(rest.0, a.priceFactor), Over(rest.1, a.volumeFactor)) else rest
  {
    assert a in [a];
    assert (actions + [a])[..|actions|] == actions;
  }

  /** An action that only becomes eligible later does not touch candles up to the earlier time. */
  lemma {:induction false} FactorsStable(eligible: seq<Action>, earlier: int, timestamp: int)
    requires Positive(eligible) && timestamp <= earlier
    requires forall a :: a in eligible ==> a.knownAt <= a.effectiveAt
    ensures Positive(Confirmed(eligible)) && Positive(Confirmed(EligibleOnly(eligible, earlier)))
    ensures FactorsSince(Confirmed(eligible), timestamp) ==
            FactorsSince(Confirmed(EligibleOnly(eligible, earlier)), timestamp)
  {
    FiltersKeep(eligible, earlier);
    FiltersKeep(EligibleOnly(eligible, earlier), earlier);
    if eligible != [] {
      var init, a := eligible[..|eligible| - 1], eligible[|eligible| - 1];
      assert forall b :: b in init ==> b in eligible;
      FactorsStable(init, earlier, timestamp);
      LastFactor(Confirmed(init), a, timestamp);
      if Eligible(a, earlier) {
        var before := EligibleOnly(init, earlier);
        assert (before + [a])[..|before|] == before;
        LastFactor(Confirmed(before), a, timestamp);
      }
    }
  }

  /**
   * If adjustment succeeds at a later time it succeeds at every earlier one, and every candle
   * stamped by the earlier time has the same prices and volume in both.
   */
  lemma ForwardStable(candles: seq<Candle>, actions: seq<Action>, earlier: int, later: int)
    requires earlier <= later && Forward(candles, actions, later).Ok?
    ensures Forward(candles, actions, earlier).Ok?
    ensures forall i :: 0 <= i < |candles| && candles[i].timestamp <= earlier ==>
              Forward(candles, actions, earlier).value.candles[i] == Forward(candles, actions, later).value.candles[i]
  {
    SelectedExactlyWhenClean(actions, later);
    CleanEarlier(actions, earlier, later);
    SelectedExactlyWhenClean(actions, earlier);
    SelectedIsConfirmed(actions, earlier);
    SelectedIsConfirmed(actions, later);
    FaultlessIsPositive(actions);
    FiltersKeep(actions, later);
    EligibleInOrder(actions, earlier, later);
    forall i | 0 <= i < |candles| && candles[i].timestamp <= earlier
      ensures Forward(candles, actions, earlier).value.candles[i] == Forward(candles, actions, later).value.candles[i]
    {
      FactorsStable(EligibleOnly(actions, later), earlier, candles[i].timestamp);
    }
  }

  function KnownBy(actions: seq<Action>, time: int): seq<Action> {
    if actions == [] then []
    else
      var rest := KnownBy(actions[..|actions| - 1], time);
      if actions[|actions| - 1].knownAt <= time then rest + [actions[|actions| - 1]] else rest
  }

  lemma {:induction false} EligibleAmongKnown(actions: seq<Action>, time: int)
    ensures EligibleOnly(actions, time) == EligibleOnly(KnownBy(actions, time), time)
  {
    if actions != [] {
      var init, a := actions[..|actions| - 1], actions[|actions| - 1];
      EligibleAmongKnown(init, time);
      if a.knownAt <= time {
        var before := KnownBy(init, time);
        assert (before + [a])[..|before|] == before;
      }
    }
  }

  /** A candle's adjusted value depends only on the actions known by the candle's own time. */
  lemma OnlyKnownActionsMatter(candles: seq<Candle>, i: nat, a: seq<Action>, b: seq<Action>, asOf: int)
    requires i < |candles| && candles[i].timestamp <= asOf
    requires Forward(candles, a, asOf).Ok? && Forward(candles, b, asOf).Ok?
    requires KnownBy(a, candles[i].timestamp) == KnownBy(b, candles[i].timestamp)
    ensures Forward(candles, a, asOf).value.candles[i] == Forward(candles, b, asOf).value.candles[i]
  {
    var time := candles[i].timestamp;
    ForwardStable(candles, a, time, asOf);
    ForwardStable(candles, b, time, asOf);
    SelectedIsConfirmed(a, time);
    SelectedIsConfirmed(b, time);
    EligibleAmongKnown(a, time);
    EligibleAmongKnown(b, time);
  }

  // ----- the loops -----

  lemma {:induction false} FaultStays(actions: seq<Action>, count: nat)
    requires count <= |actions| && FirstFault(actions[..count]).Some?
    ensures FirstFault(actions) == FirstFault(actions[..count])
  {
    if count < |actions| {
      assert actions[..|actions| - 1][..count] == actions[..count];
      FaultStays(actions[..|actions| - 1], count);
    } else {
      assert actions[..count] == actions;
    }
  }

  method Group(actions: seq<Action>, asOf: int) returns (r: Result<Groups, Error>)
    ensures if FirstFault(actions).Some? then r == Err(FirstFault(actions).value) else r == Ok(GroupsOf(actions, asOf))
  {
    var grouped: Groups := Empty();
    var i := 0;
    while i < |actions|
      invariant i <= |actions|
      invariant FirstFault(actions[..i]).None?
      invariant grouped == GroupsOf(actions[..i], asOf)
    {
      var a := actions[i];
      assert actions[..i + 1][..i] == actions[..i];
      if Fault(a).Some? {
        FaultStays(actions, i + 1);
        return Err(Fault(a).value);
      }
      if a.knownAt <= asOf && a.effectiveAt <= asOf {
        grouped := grouped.Set(KeyOf(a), GroupAt(grouped, KeyOf(a)) + [a]);
      }
      i := i + 1;
    }
    assert actions[..i] == actions;
    r := Ok(grouped);
  }

  lemma {:induction false} SelectFails(groups: seq<seq<Action>>, count: nat)
    requires count <= |groups| && Select(groups[..count]).Err?
    ensures Select(groups) == Select(groups[..count])
  {
    if count < |groups| {
      assert groups[..|groups| - 1][..count] == groups[..count];
      SelectFails(groups[..|groups| - 1], count);
    } else {
      assert groups[..count] == groups;
    }
  }

  method SelectFrom(groups: seq<seq<Action>>) returns (r: Result<seq<Action>, Error>)
    ensures r == Select(groups)
  {
    var selected: seq<Action> := [];
    var i := 0;
    while i < |groups|
      invariant i <= |groups|
      invariant Select(groups[..i]) == Ok(selected)
    {
      var revisions := groups[i];
      assert groups[..i + 1][..i] == groups[..i];
      if |revisions| != 1 {
        SelectFails(groups, i + 1);
        return Err(CorrectedHistory);
      }
      if revisions[0].knownAt > revisions[0].effectiveAt {
        SelectFails(groups, i + 1);
        return Err(KnownTooLate);
      }
      if revisions[0].status == "confirmed" {
        selected := selected + [revisions[0]];
      }
      i := i + 1;
    }
    assert groups[..i] == groups;
    r := Ok(selected);
  }

  lemma AdjustedRefusedExactly(candles: seq<Candle>, actions: seq<Action>, asOf: int)
    ensures Forward(candles, actions, asOf) == Err(NotUnadjusted) <==>
            exists c :: c in candles && c.basis != Unadjusted
  {
    hide Select, Sort, FactorsSince, Scaled, GroupsOf;
    NoOtherBasis(candles);
    FirstFaultIsFirst(actions);
  }

  method AdjustOne(c: Candle, selected: seq<Action>) returns (r: Candle)
    requires Positive(selected)
    ensures r == Scaled(c, FactorsSince(selected, c.timestamp))
    ensures RestatedForward(c, r, Sort(ByEffective, selected))
  {
    var priceFactor, volumeFactor := 1.0, 1.0;
    var i := 0;
    while i < |selected|
      invariant i <= |selected|
      invariant (priceFactor, volumeFactor) == FactorsSince(selected[..i], c.timestamp)
    {
      assert selected[i] in selected;
      assert selected[..i + 1] == selected[..i] + [selected[i]];
      LastFactor(selected[..i], selected[i], c.timestamp);
      if c.timestamp >= selected[i].effectiveAt {
        priceFactor := Over(priceFactor, selected[i].priceFactor);
        volumeFactor := Over(volumeFactor, selected[i].volumeFactor);
      }
      i := i + 1;
    }
    assert selected[..i] == selected;
    r := Scaled(c, (priceFactor, volumeFactor));
    ScaledIsForward(c, selected);
  }

  method Adjust(candles: seq<Candle>, actions: seq<Action>, asOf: int) returns (r: Result<Adjustment, Error>)
    ensures r == Forward(candles, actions, asOf)
    ensures r.Ok? <==> AllUnadjusted(candles) && FirstFault(actions).None? && Clean(actions, asOf)
    ensures r.Ok? ==>
              |r.value.candles| == |candles| &&
              forall i :: 0 <= i < |candles| ==> RestatedForward(candles[i], r.value.candles[i], r.value.applied)
  {
    hide RestatedForward, Scaled, FactorsSince, Select, GroupsOf, Clean, Sort, FirstFault, Confirmed, AllUnadjusted;
    SelectedExactlyWhenClean(actions, asOf);
    if !AllUnadjusted(candles) {
      return Err(NotUnadjusted);
    }
    var grouped :- Group(actions, asOf);
    var selected :- SelectFrom(grouped.Values());
    SelectedPositive(actions, asOf);
    var adjusted: seq<Candle> := [];
    var i := 0;
    while i < |candles|
      invariant i <= |candles| && |adjusted| == i
      invariant forall k :: 0 <= k < i ==>
                adjusted[k] == Scaled(candles[k], FactorsSince(selected, candles[k].timestamp))
      invariant forall k :: 0 <= k < i ==> RestatedForward(candles[k], adjusted[k], Sort(ByEffective, selected))
    {
      var candle := AdjustOne(candles[i], selected);
      adjusted := adjusted + [candle];
      i := i + 1;
    }
    r := Ok(Adjustment(adjusted, Sort(ByEffective, selected)));
    assert adjusted == Forward(candles, actions, asOf).value.candles;
  }
}
