/** The charting engine: candles before an event are rescaled by its latest revision. */
module BackwardAdjustment {
  import opened Core
  import opened Sorting
  import opened OrderedDicts
  import opened Market
  import opened CorporateActions
  import Forwards = ForwardAdjustment

  type Latest = Dict<EventKey, Action>

  predicate OneSymbol(actions: seq<Action>) {
    forall i, j :: 0 <= i < j < |actions| ==> actions[i].symbol == actions[j].symbol
  }

  /** (a.known_at, a.revision) > (b.known_at, b.revision) */
  predicate Supersedes(a: Action, b: Action) {
    a.knownAt > b.knownAt || (a.knownAt == b.knownAt && a.revision > b.revision)
  }

  /** The latest dict after the loop over the actions. */
  function LatestOf(actions: seq<Action>, asOf: int): (r: Latest)
    ensures r.Valid()
  {
    if actions == [] then Empty()
    else
      var before := LatestOf(actions[..|actions| - 1], asOf);
      var a := actions[|actions| - 1];
      if !Eligible(a, asOf) then before
      else if KeyOf(a) !in before.items || Supersedes(a, before.items[KeyOf(a)]) then before.Set(KeyOf(a), a)
      else before
  }

  function Selected(actions: seq<Action>, asOf: int): seq<Action> {
    Sort(ByEffective, Confirmed(LatestOf(actions, asOf).Values()))
  }

  predicate Precedes(candles: seq<Candle>, a: Action) {
    exists i :: 0 <= i < |candles| && candles[i].timestamp < a.effectiveAt
  }

  /** The selected actions with a candle before them. */
  function Affecting(selected: seq<Action>, candles: seq<Candle>): seq<Action> {
    if selected == [] then []
    else
      var rest := Affecting(selected[..|selected| - 1], candles);
      if Precedes(candles, selected[|selected| - 1]) then rest + [selected[|selected| - 1]] else rest
  }

  // ----- the latest revision of each event -----

  /** Position i holds key's latest revision: nothing supersedes it, and it beats all before it. */
  ghost predicate IsLatest(eligible: seq<Action>, key: EventKey, i: int) {
    && 0 <= i < |eligible| && KeyOf(eligible[i]) == key
    && (forall j :: 0 <= j < |eligible| && KeyOf(eligible[j]) == key ==> !Supersedes(eligible[j], eligible[i]))
    && (forall j :: 0 <= j < i && KeyOf(eligible[j]) == key ==> Supersedes(eligible[i], eligible[j]))
  }

  ghost predicate HoldsLatest(eligible: seq<Action>, key: EventKey, a: Action) {
    exists i :: IsLatest(eligible, key, i) && eligible[i] == a
  }

  lemma NewLatest(before: seq<Action>, a: Action, key: EventKey, k: int)
    requires IsLatest(before, key, k) && KeyOf(a) == key && Supersedes(a, before[k])
    ensures HoldsLatest(before + [a], key, a)
  {
    var after := before + [a];
    forall j | 0 <= j < |before| && KeyOf(after[j]) == key
      ensures Supersedes(a, after[j])
    {
      assert after[j] == before[j] && !Supersedes(before[j], before[k]);
    }
    assert IsLatest(after, key, |before|);
  }

  lemma OldLatest(before: seq<Action>, a: Action, key: EventKey, k: int)
    requires IsLatest(before, key, k) && (KeyOf(a) == key ==> !Supersedes(a, before[k]))
    ensures HoldsLatest(before + [a], key, before[k])
  {
    var after := before + [a];
    forall j | 0 <= j < |before| && KeyOf(after[j]) == key
      ensures !Supersedes(after[j], after[k]) && (j < k ==> Supersedes(after[k], after[j]))
    {
      assert after[j] == before[j];
    }
    assert IsLatest(after, key, k);
  }

  lemma FirstLatest(before: seq<Action>, a: Action)
    requires forall i :: 0 <= i < |before| ==> KeyOf(before[i]) != KeyOf(a)
    ensures HoldsLatest(before + [a], KeyOf(a), a)
  {
    var after := before + [a];
    assert forall j :: 0 <= j < |before| ==> after[j] == before[j];
    assert IsLatest(after, KeyOf(a), |before|);
  }

  /** One more eligible action, for the key it has or for another one. */
  lemma LatestNext(held: Latest, before: seq<Action>, a: Action, key: EventKey)
    requires held.Valid()
    requires if key in held.items then HoldsLatest(before, key, held.items[key])
             else forall i :: 0 <= i < |before| ==> KeyOf(before[i]) != key
    ensures var newer := KeyOf(a) !in held.items || Supersedes(a, held.items[KeyOf(a)]);
            var latest := if newer then held.Set(KeyOf(a), a) else held;
            if key in latest.items then HoldsLatest(before + [a], key, latest.items[key])
            else forall i :: 0 <= i < |before + [a]| ==> KeyOf((before + [a])[i]) != key
  {
    hide Supersedes, KeyOf;
    if key in held.items {
      var k :| IsLatest(before, key, k) && before[k] == held.items[key];
      if key == KeyOf(a) && Supersedes(a, held.items[key]) {
        NewLatest(before, a, key, k);
      } else {
        OldLatest(before, a, key, k);
      }
    } else if key == KeyOf(a) {
      FirstLatest(before, a);
    }
  }

  /** The dict holds, for each event with an eligible revision, the first of its latest ones. */
  lemma {:induction false} LatestIsLatest(actions: seq<Action>, asOf: int, key: EventKey)
    ensures var latest, eligible := LatestOf(actions, asOf), EligibleOnly(actions, asOf);
            if key in latest.items then HoldsLatest(eligible, key, latest.items[key])
            else forall i :: 0 <= i < |eligible| ==> KeyOf(eligible[i]) != key
  {
    if actions == [] {
    } else {
      var init, a := actions[..|actions| - 1], actions[|actions| - 1];
      LatestIsLatest(init, asOf, key);
      if Eligible(a, asOf) {
        LatestNext(LatestOf(init, asOf), EligibleOnly(init, asOf), a, key);
      }
    }
  }

  lemma ValuesAreEligible(actions: seq<Action>, asOf: int)
    ensures forall a :: a in LatestOf(actions, asOf).Values() ==> a in EligibleOnly(actions, asOf)
  {
    var latest := LatestOf(actions, asOf);
    forall a | a in latest.Values()
      ensures a in EligibleOnly(actions, asOf)
    {
      var i :| 0 <= i < |latest.keys| && latest.Values()[i] == a;
      LatestIsLatest(actions, asOf, latest.keys[i]);
    }
  }

  lemma {:induction false} AffectingMembers(selected: seq<Action>, candles: seq<Candle>)
    ensures forall a :: a in Affecting(selected, candles) ==> a in selected
  {
    if selected != [] {
      AffectingMembers(selected[..|selected| - 1], candles);
    }
  }

  lemma AffectingPositive(actions: seq<Action>, asOf: int, candles: seq<Candle>)
    requires FirstFault(actions).None?
    ensures Positive(Confirmed(LatestOf(actions, asOf).Values()))
    ensures Positive(Selected(actions, asOf)) && Positive(Affecting(Selected(actions, asOf), candles))
  {
    FaultlessIsPositive(actions);
    FiltersKeep(actions, asOf);
    ValuesAreEligible(actions, asOf);
    FiltersKeep(LatestOf(actions, asOf).Values(), asOf);
    SortMembers(ByEffective, Confirmed(LatestOf(actions, asOf).Values()));
    AffectingMembers(Selected(actions, asOf), candles);
  }

  /** The applied actions are reported in order of effect. */
  lemma SelectedInOrder(actions: seq<Action>, asOf: int)
    ensures SortedBy(ByEffective, Selected(actions, asOf))
  {
    ByEffectiveOrders();
    SortSorts(ByEffective, Confirmed(LatestOf(actions, asOf).Values()));
  }

  ghost function Backward(candles: seq<Candle>, actions: seq<Action>, asOf: int): Result<Forwards.Adjustment, Error> {
    if !AllUnadjusted(candles) then Err(NotUnadjusted)
    else if !OneSymbol(actions) then Err(MixedSymbols)
    else if FirstFault(actions).Some? then Err(FirstFault(actions).value)
    else
      var affecting := Affecting(Selected(actions, asOf), candles);
      AffectingPositive(actions, asOf, candles);
      Ok(Forwards.Adjustment(
           seq(|candles|,
               i requires 0 <= i < |candles| => Scaled(candles[i], FactorsBefore(affecting, candles[i].timestamp))),
           affecting))
  }

  /** Position i holds the newest eligible revision of its event, the first of equals. */
  ghost predicate Newest(eligible: seq<Action>, i: int) {
    && 0 <= i < |eligible|
    && forall j :: 0 <= j < |eligible| && j != i
                   && eligible[j].source == eligible[i].source && eligible[j].eventId == eligible[i].eventId ==>
         var known, revision := eligible[j].knownAt, eligible[j].revision;
         || known < eligible[i].knownAt
         || (known == eligible[i].knownAt && revision < eligible[i].revision)
         || (known == eligible[i].knownAt && revision == eligible[i].revision && i < j)
  }

  lemma LatestIsNewest(eligible: seq<Action>, key: EventKey, i: int)
    ensures IsLatest(eligible, key, i) <==> Newest(eligible, i) && KeyOf(eligible[i]) == key
  {
  }

  lemma NewestIsUnique(eligible: seq<Action>, i: int, j: int)
    requires Newest(eligible, i) && Newest(eligible, j) && KeyOf(eligible[i]) == KeyOf(eligible[j])
    ensures i == j
  {
  }

  ghost predicate AmongNewest(eligible: seq<Action>, a: Action) {
    exists i :: Newest(eligible, i) && eligible[i] == a
  }

  lemma ValueIsNewest(actions: seq<Action>, asOf: int, k: nat)
    requires k < |LatestOf(actions, asOf).keys|
    ensures var latest := LatestOf(actions, asOf);
            && AmongNewest(EligibleOnly(actions, asOf), latest.Values()[k])
            && KeyOf(latest.Values()[k]) == latest.keys[k]
  {
    hide LatestOf, EligibleOnly, Newest, Supersedes;
    var latest, eligible := LatestOf(actions, asOf), EligibleOnly(actions, asOf);
    LatestIsLatest(actions, asOf, latest.keys[k]);
    var i :| IsLatest(eligible, latest.keys[k], i) && eligible[i] == latest.Values()[k];
    LatestIsNewest(eligible, latest.keys[k], i);
  }

  lemma NewestIsValue(actions: seq<Action>, asOf: int, a: Action)
    requires AmongNewest(EligibleOnly(actions, asOf), a)
    ensures a in LatestOf(actions, asOf).Values()
  {
    hide LatestOf, EligibleOnly, Supersedes;
    var latest, eligible := LatestOf(actions, asOf), EligibleOnly(actions, asOf);
    var i :| Newest(eligible, i) && eligible[i] == a;
    LatestIsLatest(actions, asOf, KeyOf(a));
    assert KeyOf(a) in latest.items by {
      assert KeyOf(eligible[i]) == KeyOf(a);
    }
    var j :| IsLatest(eligible, KeyOf(a), j) && eligible[j] == latest.items[KeyOf(a)];
    LatestIsNewest(eligible, KeyOf(a), j);
    NewestIsUnique(eligible, i, j);
    var k :| 0 <= k < |latest.keys| && latest.keys[k] == KeyOf(a);
    assert latest.Values()[k] == a;
  }

  lemma ValuesAreNewest(actions: seq<Action>, asOf: int)
    ensures EachOnce(LatestOf(actions, asOf).Values())
    ensures forall a :: a in LatestOf(actions, asOf).Values() <==> AmongNewest(EligibleOnly(actions, asOf), a)
  {
    hide LatestOf, EligibleOnly, AmongNewest, KeyOf;
    var latest, eligible := LatestOf(actions, asOf), EligibleOnly(actions, asOf);
    forall k | 0 <= k < |latest.keys|
      ensures AmongNewest(eligible, latest.Values()[k]) && KeyOf(latest.Values()[k]) == latest.keys[k]
    {
      ValueIsNewest(actions, asOf, k);
    }
    DistinctOnce(latest.Values());
    forall a | AmongNewest(eligible, a)
      ensures a in latest.Values()
    {
      NewestIsValue(actions, asOf, a);
    }
  }

  lemma {:induction false} AffectingExactly(selected: seq<Action>, candles: seq<Candle>)
    ensures multiset(Affecting(selected, candles)) <= multiset(selected)
    ensures forall a :: a in Affecting(selected, candles) <==>
                        a in selected && exists k :: 0 <= k < |candles| && candles[k].timestamp < a.effectiveAt
  {
    if selected != [] {
      AffectingExactly(selected[..|selected| - 1], candles);
      assert selected == selected[..|selected| - 1] + [selected[|selected| - 1]];
    }
  }

  lemma {:induction false} AffectingByDate(selected: seq<Action>, candles: seq<Candle>)
    requires ByDate(selected)
    ensures ByDate(Affecting(selected, candles))
  {
    hide Precedes;
    if selected != [] {
      var init, a := selected[..|selected| - 1], selected[|selected| - 1];
      AffectingByDate(init, candles);
      AffectingMembers(init, candles);
      assert forall b :: b in init ==> b.effectiveAt <= a.effectiveAt;
      assert forall i :: 0 <= i < |Affecting(init, candles)| ==> Affecting(init, candles)[i] in init;
    }
  }

  /** What the backward engine applies: each event's newest revision, once, by date, if confirmed and after a candle. */
  lemma AppliedExactly(candles: seq<Candle>, actions: seq<Action>, asOf: int)
    requires Backward(candles, actions, asOf).Ok?
    ensures var applied := Backward(candles, actions, asOf).value.applied;
            && EachOnce(applied) && ByDate(applied)
            && forall a :: a in applied <==>
                 && AmongNewest(EligibleOnly(actions, asOf), a) && a.status == "confirmed"
                 && exists k :: 0 <= k < |candles| && candles[k].timestamp < a.effectiveAt
  {
    var latest := LatestOf(actions, asOf).Values();
    ValuesAreNewest(actions, asOf);
    ConfirmedExactly(latest);
    ConfirmedWithin(latest);
    SortMembers(ByEffective, Confirmed(latest));
    SortedByDate(Confirmed(latest));
    AffectingByDate(Selected(actions, asOf), candles);
    AffectingExactly(Selected(actions, asOf), candles);
  }

  // ----- both engines, side by side -----

  lemma NonePreceded(candles: seq<Candle>, a: Action, i: nat)
    requires !Precedes(candles, a) && i < |candles|
    ensures candles[i].timestamp >= a.effectiveAt
  {
  }

  lemma {:induction false} AffectingSuffices(selected: seq<Action>, candles: seq<Candle>, i: nat)
    requires Positive(selected) && i < |candles|
    ensures Positive(Affecting(selected, candles))
    ensures FactorsBefore(Affecting(selected, candles), candles[i].timestamp) ==
            FactorsBefore(selected, candles[i].timestamp)
  {
    hide Precedes, Times;
    AffectingMembers(selected, candles);
    if selected != [] {
      var init, a := selected[..|selected| - 1], selected[|selected| - 1];
      assert forall b :: b in init ==> b in selected;
      AffectingSuffices(init, candles, i);
      var rest := Affecting(init, candles);
      AffectingMembers(init, candles);
      if Precedes(candles, a) {
        assert (rest + [a])[..|rest|] == rest;
      } else {
        NonePreceded(candles, a, i);
      }
    }
  }

  /** With one revision per event the latest ones are simply the eligible actions. */
  lemma {:induction false} CleanLatest(actions: seq<Action>, asOf: int)
    requires Forwards.Clean(actions, asOf)
    ensures LatestOf(actions, asOf).Values() == EligibleOnly(actions, asOf)
  {
    if actions != [] {
      var init, a := actions[..|actions| - 1], actions[|actions| - 1];
      var before, eligible := EligibleOnly(init, asOf), EligibleOnly(actions, asOf);
      assert Forwards.Clean(init, asOf) by {
        assert forall i :: 0 <= i < |before| ==> before[i] == eligible[i];
      }
      CleanLatest(init, asOf);
      if Eligible(a, asOf) {
        LatestIsLatest(init, asOf, KeyOf(a));
        assert eligible[|before|] == a;
        assert forall i :: 0 <= i < |before| ==> eligible[i] == before[i];
        assert KeyOf(a) !in LatestOf(init, asOf).items;
        assert LatestOf(actions, asOf).Values() == LatestOf(init, asOf).Values() + [a];
      }
    }
  }

  lemma Cancel(before: real, since: real, product: real, factor: real)
    requires factor > 0.0 && before == Times(product, since)
    ensures before == Times(Times(product, factor), Over(since, factor))
    ensures Times(before, factor) == Times(Times(product, factor), since)
  {
    var q := Over(since, factor);
    assert (product * factor) * q == product * (q * factor);
    assert (product * since) * factor == (product * factor) * since;
  }

  /** What an action contributes on one side of its date it withholds on the other. */
  lemma {:induction false} BeforeIsProductTimesSince(actions: seq<Action>, timestamp: int)
    requires Positive(actions)
    ensures FactorsBefore(actions, timestamp).0 == Times(PriceProduct(actions), FactorsSince(actions, timestamp).0)
  {
    if actions != [] {
      var init, a := actions[..|actions| - 1], actions[|actions| - 1];
      assert forall b :: b in init ==> b in actions;
      assert a in actions;
      BeforeIsProductTimesSince(init, timestamp);
      Cancel(FactorsBefore(init, timestamp).0, FactorsSince(init, timestamp).0, PriceProduct(init), a.priceFactor);
    }
  }

  /** Every price of a candle multiplied by one number. */
  ghost predicate PricesScaled(a: Candle, b: Candle, ratio: real) {
    && a.timestamp == b.timestamp
    && a.open == b.open * ratio && a.high == b.high * ratio && a.low == b.low * ratio && a.close == b.close * ratio
  }

  lemma ScaleTwice(price: real, since: real, constant: real, before: real)
    requires before == Times(constant, since)
    ensures Times(price, before) == Times(price, since) * constant
  {
    assert price * (constant * since) == (price * since) * constant;
  }

  lemma ScaledTwice(c: Candle, back: (real, real), forth: (real, real), constant: real)
    requires back.0 == Times(constant, forth.0)
    ensures PricesScaled(Scaled(c, back), Scaled(c, forth), constant)
  {
    hide Times, HalfUp;
    ScaleTwice(c.open, forth.0, constant, back.0);
    ScaleTwice(c.high, forth.0, constant, back.0);
    ScaleTwice(c.low, forth.0, constant, back.0);
    ScaleTwice(c.close, forth.0, constant, back.0);
  }

  lemma BothAccept(candles: seq<Candle>, actions: seq<Action>, asOf: int, i: nat)
    requires Forwards.Forward(candles, actions, asOf).Ok? && OneSymbol(actions) && i < |candles|
    ensures Forwards.Selected(actions, asOf).Ok?
    ensures Positive(Confirmed(EligibleOnly(actions, asOf))) && Positive(Affecting(Selected(actions, asOf), candles))
    ensures Backward(candles, actions, asOf).Ok?
    ensures |Backward(candles, actions, asOf).value.candles| ==
            |Forwards.Forward(candles, actions, asOf).value.candles| == |candles|
    ensures Forwards.Forward(candles, actions, asOf).value.candles[i] ==
            Scaled(candles[i], FactorsSince(Confirmed(EligibleOnly(actions, asOf)), candles[i].timestamp))
    ensures Backward(candles, actions, asOf).value.candles[i] ==
            Scaled(candles[i], FactorsBefore(Affecting(Selected(actions, asOf), candles), candles[i].timestamp))
  {
    hide Scaled, FactorsBefore, FactorsSince, Selected, Affecting, Sort, Forwards.Clean, LatestOf, Confirmed,
         EligibleOnly;
    Forwards.SelectedExactlyWhenClean(actions, asOf);
    Forwards.SelectedIsConfirmed(actions, asOf);
    Forwards.SelectedPositive(actions, asOf);
    AffectingPositive(actions, asOf, candles);
  }

  lemma BackwardFactor(candles: seq<Candle>, actions: seq<Action>, asOf: int, i: nat)
    requires Forwards.Selected(actions, asOf).Ok? && i < |candles|
    ensures var chosen, timestamp := Confirmed(EligibleOnly(actions, asOf)), candles[i].timestamp;
            && Positive(chosen) && Positive(Affecting(Selected(actions, asOf), candles))
            && FactorsBefore(Affecting(Selected(actions, asOf), candles), timestamp).0
               == Times(PriceProduct(chosen), FactorsSince(chosen, timestamp).0)
  {
    hide FactorsBefore, FactorsSince, Times, PriceProduct;
    var chosen := Confirmed(EligibleOnly(actions, asOf));
    Forwards.SelectedExactlyWhenClean(actions, asOf);
    Forwards.SelectedIsConfirmed(actions, asOf);
    Forwards.SelectedPositive(actions, asOf);
    CleanLatest(actions, asOf);
    AffectingPositive(actions, asOf, candles);
    SortFactors(chosen, candles[i].timestamp);
    AffectingSuffices(Selected(actions, asOf), candles, i);
    BeforeIsProductTimesSince(chosen, candles[i].timestamp);
  }

  /**
   * On a history both engines accept, with one revision per event, the backward prices are the
   * forward prices times one constant: the product of all selected price factors.
   */
  lemma BackwardIsScaledForward(candles: seq<Candle>, actions: seq<Action>, asOf: int, i: nat)
    requires Forwards.Forward(candles, actions, asOf).Ok? && OneSymbol(actions) && i < |candles|
    ensures Backward(candles, actions, asOf).Ok?
    ensures |Backward(candles, actions, asOf).value.candles| ==
            |Forwards.Forward(candles, actions, asOf).value.candles| == |candles|
    ensures PricesScaled(Backward(candles, actions, asOf).value.candles[i],
                         Forwards.Forward(candles, actions, asOf).value.candles[i],
                         PriceProduct(Confirmed(EligibleOnly(actions, asOf))))
  {
    hide Backward, Forwards.Forward, Scaled, FactorsBefore, FactorsSince, Times, PriceProduct, Selected, Affecting,
         PricesScaled;
    BothAccept(candles, actions, asOf, i);
    BackwardFactor(candles, actions, asOf, i);
    var chosen := Confirmed(EligibleOnly(actions, asOf));
    ScaledTwice(candles[i], FactorsBefore(Affecting(Selected(actions, asOf), candles), candles[i].timestamp),
                FactorsSince(chosen, candles[i].timestamp), PriceProduct(chosen));
  }

  lemma CrossScale(a: real, b: real, ratio: real)
    ensures (b * ratio) * a == b * (a * ratio)
  {
  }

  /** So returns between any two candles are the same in both views. */
  lemma SameReturns(candles: seq<Candle>, actions: seq<Action>, asOf: int, i: nat, j: nat)
    requires Forwards.Forward(candles, actions, asOf).Ok? && OneSymbol(actions) && i < |candles| && j < |candles|
    ensures Backward(candles, actions, asOf).Ok?
    ensures var back, forth :=
      Backward(candles, actions, asOf).value.candles, Forwards.Forward(candles, actions, asOf).value.candles;
            back[j].close * forth[i].close == forth[j].close * back[i].close
  {
    hide Scaled, Backward, Forwards.Forward, PriceProduct, Confirmed, EligibleOnly;
    BackwardIsScaledForward(candles, actions, asOf, i);
    BackwardIsScaledForward(candles, actions, asOf, j);
    var back, forth := Backward(candles, actions, asOf).value.candles,
                       Forwards.Forward(candles, actions, asOf).value.candles;
    CrossScale(forth[i].close, forth[j].close, PriceProduct(Confirmed(EligibleOnly(actions, asOf))));
  }

  // ----- the loops -----

  method LatestEffectiveRevisions(actions: seq<Action>, asOf: int) returns (r: Result<seq<Action>, Error>)
    ensures r == if !OneSymbol(actions) then Err(MixedSymbols)
                 else if FirstFault(actions).Some? then Err(FirstFault(actions).value)
                 else Ok(Selected(actions, asOf))
  {
    if !OneSymbol(actions) {
      return Err(MixedSymbols);
    }
    var latest: Latest := Empty();
    var i := 0;
    while i < |actions|
      invariant i <= |actions|
      invariant FirstFault(actions[..i]).None?
      invariant latest == LatestOf(actions[..i], asOf)
    {
      var a := actions[i];
      assert actions[..i + 1][..i] == actions[..i];
      if Fault(a).Some? {
        Forwards.FaultStays(actions, i + 1);
        return Err(Fault(a).value);
      }
      if !(a.knownAt > asOf || a.effectiveAt > asOf) {
        if KeyOf(a) !in latest.items || Supersedes(a, latest.items[KeyOf(a)]) {
          latest := latest.Set(KeyOf(a), a);
        }
      }
      i := i + 1;
    }
    assert actions[..i] == actions;
    r := Ok(Sort(ByEffective, Confirmed(latest.Values())));
  }

  lemma NoOtherSymbol(actions: seq<Action>)
    ensures OneSymbol(actions) <==> forall a, b :: a in actions && b in actions ==> a.symbol == b.symbol
  {
    assert forall i :: 0 <= i < |actions| ==> actions[i] in actions;
  }

  method AdjustOne(c: Candle, affecting: seq<Action>) returns (r: Candle)
    requires Positive(affecting)
    ensures r == Scaled(c, FactorsBefore(affecting, c.timestamp))
    ensures RestatedBackward(c, r, affecting)
  {
    var priceFactor, volumeFactor := 1.0, 1.0;
    var i := 0;
    while i < |affecting|
      invariant i <= |affecting|
      invariant (priceFactor, volumeFactor) == FactorsBefore(affecting[..i], c.timestamp)
    {
      assert affecting[i] in affecting;
      assert forall a :: a in affecting[..i + 1] ==> a in affecting;
      assert affecting[..i + 1][..i] == affecting[..i];
      if c.timestamp < affecting[i].effectiveAt {
        priceFactor := Times(priceFactor, affecting[i].priceFactor);
        volumeFactor := Times(volumeFactor, affecting[i].volumeFactor);
      }
      i := i + 1;
    }
    assert affecting[..i] == affecting;
    r := Scaled(c, (priceFactor, volumeFactor));
    ScaledIsBackward(c, affecting);
  }

  method Adjust(candles: seq<Candle>, actions: seq<Action>, asOf: int) returns (r: Result<Forwards.Adjustment, Error>)
    ensures r == Backward(candles, actions, asOf)
    ensures r == Err(NotUnadjusted) <==> exists c :: c in candles && c.basis != Unadjusted
    ensures r == Err(MixedSymbols) <==>
            AllUnadjusted(candles) && exists a, b :: a in actions && b in actions && a.symbol != b.symbol
    ensures r.Ok? ==>
              |r.value.candles| == |candles| &&
              forall i :: 0 <= i < |candles| ==> RestatedBackward(candles[i], r.value.candles[i], r.value.applied)
  {
    NoOtherBasis(candles);
    NoOtherSymbol(actions);
    FirstFaultIsFirst(actions);
    hide RestatedBackward, Scaled, FactorsBefore, Affecting, Selected, FirstFault, OneSymbol;
    if !AllUnadjusted(candles) {
      return Err(NotUnadjusted);
    }
    var selected :- LatestEffectiveRevisions(actions, asOf);
    var affecting := Affecting(selected, candles);
    AffectingPositive(actions, asOf, candles);
    var adjusted: seq<Candle> := [];
    var i := 0;
    while i < |candles|
      invariant i <= |candles| && |adjusted| == i
      invariant forall k :: 0 <= k < i ==>
                adjusted[k] == Scaled(candles[k], FactorsBefore(affecting, candles[k].timestamp))
      invariant forall k :: 0 <= k < i ==> RestatedBackward(candles[k], adjusted[k], affecting)
    {
      var candle := AdjustOne(candles[i], affecting);
      adjusted := adjusted + [candle];
      i := i + 1;
    }
    r := Ok(Forwards.Adjustment(adjusted, affecting));
    assert adjusted == Backward(candles, actions, asOf).value.candles;
  }
}
