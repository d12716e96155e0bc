/** Corporate-action records and their point-in-time adjustment (backend/app/corporate_actions/engine.py). */
module CorporateActions {
  import opened Core
  import opened Sorting
  import opened OrderedDicts
  import opened Market

  datatype Action = Action(symbol: string, actionType: string, eventId: string, revision: int,
                           effectiveAt: int, announcedAt: Option<int>, knownAt: int,
                           priceFactor: real, volumeFactor: real, status: string,
                           source: string, ruleVersion: string)

  const ACTION_TYPES: set<string> := {"split", "reverse_split", "cash_dividend", "stock_dividend", "rights_issue"}
  const ACTION_STATUSES: set<string> := {"announced", "confirmed", "cancelled"}

  datatype Error =
    | NotUnadjusted
    | MixedSymbols
    | BadRevision
    | BadType
    | BadStatus
    | BadFactors
    | CorrectedHistory
    | KnownTooLate

  type EventKey = (string, string)

  function KeyOf(a: Action): EventKey {
    (a.source, a.eventId)
  }

  /** _validate_action: the first check that fails. */
  function Fault(a: Action): Option<Error> {
    if a.revision < 1 then Some(BadRevision)
    else if a.actionType !in ACTION_TYPES then Some(BadType)
    else if a.status !in ACTION_STATUSES then Some(BadStatus)
    else if a.priceFactor <= 0.0 || a.volumeFactor <= 0.0 then Some(BadFactors)
    else None
  }

  function FirstFault(actions: seq<Action>): Option<Error> {
    if actions == [] then None
    else if FirstFault(actions[..|actions| - 1]).Some? then FirstFault(actions[..|actions| - 1])
    else Fault(actions[|actions| - 1])
  }

  /** Known and in force by the time asked about. */
  predicate Eligible(a: Action, asOf: int) {
    a.knownAt <= asOf && a.effectiveAt <= asOf
  }

  function EligibleOnly(actions: seq<Action>, asOf: int): seq<Action> {
    if actions == [] then []
    else
      var rest := EligibleOnly(actions[..|actions| - 1], asOf);
      if Eligible(actions[|actions| - 1], asOf) then rest + [actions[|actions| - 1]] else rest
  }

  function Confirmed(actions: seq<Action>): seq<Action> {
    if actions == [] then []
    else
      var rest := Confirmed(actions[..|actions| - 1]);
      if actions[|actions| - 1].status == "confirmed" then rest + [actions[|actions| - 1]] else rest
  }

  predicate AllUnadjusted(candles: seq<Candle>) {
    forall i :: 0 <= i < |candles| ==> candles[i].basis == Unadjusted
  }

  lemma NoOtherBasis(candles: seq<Candle>)
    ensures AllUnadjusted(candles) <==> forall c :: c in candles ==> c.basis == Unadjusted
  {
    assert forall i :: 0 <= i < |candles| ==> candles[i] in candles;
  }

  // ----- factors -----

  /** The factors of the actions still to come after a candle. */
  function FactorsBefore(actions: seq<Action>, timestamp: int): (r: (real, real))
    requires forall a :: a in actions ==> a.priceFactor > 0.0 && a.volumeFactor > 0.0
    ensures r.0 > 0.0 && r.1 > 0.0
  {
    if actions == [] then (1.0, 1.0)
    else
      var a := actions[|actions| - 1];
      var rest := FactorsBefore(actions[..|actions| - 1], timestamp);
      if timestamp < a.effectiveAt then (Times(rest.0, a.priceFactor), Times(rest.1, a.volumeFactor)) else rest
  }

  function Over(x: real, y: real): (r: real)
    requires y > 0.0
    ensures x > 0.0 ==> r > 0.0
    ensures r * y == x
  {
    x / y
  }

  /** The inverse factors of the actions already in force at a candle. */
  function FactorsSince(actions: seq<Action>, timestamp: int): (r: (real, real))
    requires forall a :: a in actions ==> a.priceFactor > 0.0 && a.volumeFactor > 0.0
    ensures r.0 > 0.0 && r.1 > 0.0
  {
    if actions == [] then (1.0, 1.0)
    else
      var a := actions[|actions| - 1];
      var rest := FactorsSince(actions[..|actions| - 1], timestamp);
      if timestamp >= a.effectiveAt then (Over(rest.0, a.priceFactor), Over(rest.1, a.volumeFactor)) else rest
  }

  function PriceProduct(actions: seq<Action>): real {
    if actions == [] then 1.0 else Times(PriceProduct(actions[..|actions| - 1]), actions[|actions| - 1].priceFactor)
  }

  function Scaled(c: Candle, factors: (real, real)): Candle {
    Candle(c.timestamp,
           Times(c.open, factors.0), Times(c.high, factors.0), Times(c.low, factors.0), Times(c.close, factors.0),
           HalfUp(Times(c.volume as real, factors.1)), PointInTimeAdjusted)
  }

  ghost predicate Positive(actions: seq<Action>) {
    forall a :: a in actions ==> a.priceFactor > 0.0 && a.volumeFactor > 0.0
  }

  lemma {:induction false} FaultlessIsPositive(actions: seq<Action>)
    requires FirstFault(actions).None?
    ensures Positive(actions)
    ensures forall a :: a in actions ==> Fault(a).None?
  {
    if actions != [] {
      var init := actions[..|actions| - 1];
      FaultlessIsPositive(init);
      assert actions == init + [actions[|actions| - 1]];
    }
  }

  lemma {:induction false} FiltersKeep(actions: seq<Action>, asOf: int)
    ensures forall a :: a in EligibleOnly(actions, asOf) <==> a in actions && Eligible(a, asOf)
    ensures forall a :: a in Confirmed(actions) <==> a in actions && a.status == "confirmed"
  {
    if actions != [] {
      var init := actions[..|actions| - 1];
      FiltersKeep(init, asOf);
      assert actions == init + [actions[|actions| - 1]];
    }
  }

  // ----- the order of applied actions -----

  /** key=(effective_at, source, event_id) */
  predicate ByEffective(a: Action, b: Action) {
    a.effectiveAt < b.effectiveAt
    || (a.effectiveAt == b.effectiveAt
        && if a.source == b.source then TextLeq(a.eventId, b.eventId) else TextLeq(a.source, b.source))
  }

  lemma ByEffectiveOrders()
    ensures TotalPreorder(ByEffective)
  {
    forall a, b
      ensures ByEffective(a, b) || ByEffective(b, a)
    {
      TextTotal(a.source, b.source);
      TextTotal(a.eventId, b.eventId);
    }
    forall a, b, c | ByEffective(a, b) && ByEffective(b, c)
      ensures ByEffective(a, c)
    {
      if TextLeq(a.source, b.source) && TextLeq(b.source, c.source) {
        TextTransitive(a.source, b.source, c.source);
        TextTotal(a.source, b.source);
      }
      if TextLeq(a.eventId, b.eventId) && TextLeq(b.eventId, c.eventId) {
        TextTransitive(a.eventId, b.eventId, c.eventId);
      }
    }
  }

  // ----- products do not depend on the order -----

  function Product(weight: Action -> real, actions: seq<Action>): real {
    if actions == [] then 1.0
    else Times(Product(weight, actions[..|actions| - 1]), weight(actions[|actions| - 1]))
  }

  function DuePrice(timestamp: int): Action -> real {
    (a: Action) => if timestamp < a.effectiveAt then a.priceFactor else 1.0
  }

  function DueVolume(timestamp: int): Action -> real {
    (a: Action) => if timestamp < a.effectiveAt then a.volumeFactor else 1.0
  }

  function EveryPrice(): Action -> real {
    (a: Action) => a.priceFactor
  }

  lemma {:induction false} FactorsAreProducts(actions: seq<Action>, timestamp: int)
    requires Positive(actions)
    ensures FactorsBefore(actions, timestamp) ==
            (Product(DuePrice(timestamp), actions), Product(DueVolume(timestamp), actions))
    ensures PriceProduct(actions) == Product(EveryPrice(), actions)
  {
    if actions != [] {
      assert actions[|actions| - 1] in actions;
      assert forall a :: a in actions[..|actions| - 1] ==> a in actions;
      FactorsAreProducts(actions[..|actions| - 1], timestamp);
    }
  }

  lemma Regroup(a: real, b: real, c: real)
    ensures Times(Times(a, b), c) == Times(a, Times(b, c))
    ensures Times(a, Times(b, c)) == Times(b, Times(a, c))
    ensures Times(1.0, a) == a && Times(a, 1.0) == a
  {
    assert (a * b) * c == a * (b * c);
  }

  /** The product read from the front as well as from the back. */
  lemma {:induction false} ProductFront(weight: Action -> real, x: Action, xs: seq<Action>)
    ensures Product(weight, [x] + xs) == Times(weight(x), Product(weight, xs))
  {
    hide Times;
    if xs == [] {
      assert [x] + xs == [x] && [x][..0] == [];
      Regroup(weight(x), 1.0, 1.0);
    } else {
      var init, last := xs[..|xs| - 1], xs[|xs| - 1];
      assert ([x] + xs)[..|xs|] == [x] + init;
      ProductFront(weight, x, init);
      Regroup(weight(x), Product(weight, init), weight(last));
    }
  }

  lemma {:induction false} InsertProduct(weight: Action -> real, x: Action, xs: seq<Action>)
    ensures Product(weight, Insert(ByEffective, x, xs)) == Times(weight(x), Product(weight, xs))
  {
    hide Times, ByEffective, Product;
    ProductFront(weight, x, xs);
    if xs != [] && !ByEffective(x, xs[0]) {
      var y, rest := xs[0], xs[1..];
      assert xs == [y] + rest;
      InsertProduct(weight, x, rest);
      ProductFront(weight, y, Insert(ByEffective, x, rest));
      ProductFront(weight, y, rest);
      Regroup(weight(y), weight(x), Product(weight, rest));
    }
  }

  /** Sorting the applied actions does not change what their factors multiply to. */
  lemma {:induction false} SortProduct(weight: Action -> real, xs: seq<Action>)
    ensures Product(weight, Sort(ByEffective, xs)) == Product(weight, xs)
  {
    hide Times, ByEffective;
    if xs != [] {
      assert xs == [xs[0]] + xs[1..];
      SortProduct(weight, xs[1..]);
      InsertProduct(weight, xs[0], Sort(ByEffective, xs[1..]));
      ProductFront(weight, xs[0], xs[1..]);
    }
  }

  lemma SortFactors(xs: seq<Action>, timestamp: int)
    requires Positive(xs)
    ensures Positive(Sort(ByEffective, xs))
    ensures FactorsBefore(Sort(ByEffective, xs), timestamp) == FactorsBefore(xs, timestamp)
    ensures PriceProduct(Sort(ByEffective, xs)) == PriceProduct(xs)
  {
    SortMembers(ByEffective, xs);
    FactorsAreProducts(xs, timestamp);
    FactorsAreProducts(Sort(ByEffective, xs), timestamp);
    SortProduct(DuePrice(timestamp), xs);
    SortProduct(DueVolume(timestamp), xs);
    SortProduct(EveryPrice(), xs);
  }

  // ----- what an adjusted candle must be, said of the actions' own factors -----

  function InForcePrice(timestamp: int): Action -> real {
    (a: Action) => if a.effectiveAt <= timestamp then a.priceFactor else 1.0
  }

  function InForceVolume(timestamp: int): Action -> real {
    (a: Action) => if a.effectiveAt <= timestamp then a.volumeFactor else 1.0
  }

  /** Restated backward: prices times the price factors still due, volume times the volume factors still due. */
  ghost predicate RestatedBackward(c: Candle, out: Candle, applied: seq<Action>) {
    var price, volume := Product(DuePrice(c.timestamp), applied), Product(DueVolume(c.timestamp), applied);
    && out.timestamp == c.timestamp && out.basis == PointInTimeAdjusted
    && out.open == c.open * price && out.high == c.high * price
    && out.low == c.low * price && out.close == c.close * price
    && out.volume as real - 0.5 <= c.volume as real * volume <= out.volume as real + 0.5
    && (c.volume >= 0 ==> c.volume as real * volume < out.volume as real + 0.5)
  }

  /** Restated forward: the factors in force lead from the result back to the raw candle. */
  ghost predicate RestatedForward(c: Candle, out: Candle, applied: seq<Action>) {
    var price, volume := Product(InForcePrice(c.timestamp), applied), Product(InForceVolume(c.timestamp), applied);
    && out.timestamp == c.timestamp && out.basis == PointInTimeAdjusted
    && out.open * price == c.open && out.high * price == c.high
    && out.low * price == c.low && out.close * price == c.close
    && (out.volume as real - 0.5) * volume <= c.volume as real <= (out.volume as real + 0.5) * volume
    && (c.volume >= 0 ==> c.volume as real < (out.volume as real + 0.5) * volume)
  }

  lemma TimesIs(x: real, y: real)
    ensures Times(x, y) == x * y
  {
  }

  lemma VolumeSign(volume: int, factor: real)
    requires factor > 0.0
    ensures volume >= 0 ==> Times(volume as real, factor) >= 0.0
  {
  }

  lemma ScaledIsBackward(c: Candle, applied: seq<Action>)
    requires Positive(applied)
    ensures RestatedBackward(c, Scaled(c, FactorsBefore(applied, c.timestamp)), applied)
  {
    hide HalfUp, Times, Product, FactorsBefore;
    FactorsAreProducts(applied, c.timestamp);
    var factors := FactorsBefore(applied, c.timestamp);
    TimesIs(c.open, factors.0);
    TimesIs(c.high, factors.0);
    TimesIs(c.low, factors.0);
    TimesIs(c.close, factors.0);
    TimesIs(c.volume as real, factors.1);
    VolumeSign(c.volume, factors.1);
  }

  lemma InverseStep(since: real, product: real, factor: real)
    requires factor > 0.0 && Times(since, product) == 1.0
    ensures Times(Over(since, factor), Times(product, factor)) == 1.0
  {
    var q := Over(since, factor);
    assert q * (product * factor) == (q * factor) * product;
  }

  lemma {:induction false} SinceIsInverse(actions: seq<Action>, timestamp: int)
    requires Positive(actions)
    ensures Times(FactorsSince(actions, timestamp).0, Product(InForcePrice(timestamp), actions)) == 1.0
    ensures Times(FactorsSince(actions, timestamp).1, Product(InForceVolume(timestamp), actions)) == 1.0
    ensures Product(InForceVolume(timestamp), actions) > 0.0
  {
    if actions == [] {
    } else {
      hide Times, Over;
      var init, a := actions[..|actions| - 1], actions[|actions| - 1];
      assert a in actions && forall b :: b in init ==> b in actions;
      SinceIsInverse(init, timestamp);
      var since := FactorsSince(init, timestamp);
      if timestamp >= a.effectiveAt {
        InverseStep(since.0, Product(InForcePrice(timestamp), init), a.priceFactor);
        InverseStep(since.1, Product(InForceVolume(timestamp), init), a.volumeFactor);
      } else {
        Regroup(Product(InForcePrice(timestamp), init), 1.0, 1.0);
        Regroup(Product(InForceVolume(timestamp), init), 1.0, 1.0);
      }
    }
  }

  lemma UndoneBy(x: real, factor: real, product: real)
    requires Times(factor, product) == 1.0
    ensures Times(x, factor) * product == x
  {
    assert (x * factor) * product == x * (factor * product);
  }

  lemma TimesKeepsOrder(a: real, b: real, factor: real)
    requires factor > 0.0
    ensures a <= b ==> a * factor <= b * factor
    ensures a < b ==> a * factor < b * factor
  {
  }

  lemma VolumeUndone(volume: int, out: int, factor: real, product: real)
    requires factor > 0.0 && product > 0.0 && Times(factor, product) == 1.0
    requires out == HalfUp(Times(volume as real, factor))
    ensures (out as real - 0.5) * product <= volume as real <= (out as real + 0.5) * product
    ensures volume >= 0 ==> volume as real < (out as real + 0.5) * product
  {
    hide HalfUp;
    var exact := Times(volume as real, factor);
    UndoneBy(volume as real, factor, product);
    VolumeSign(volume, factor);
    TimesKeepsOrder(out as real - 0.5, exact, product);
    TimesKeepsOrder(exact, out as real + 0.5, product);
  }

  /** The factors divide in the order given, and the report sorts the actions: the products are the same. */
  lemma ScaledIsForward(c: Candle, selected: seq<Action>)
    requires Positive(selected)
    ensures RestatedForward(c, Scaled(c, FactorsSince(selected, c.timestamp)), Sort(ByEffective, selected))
  {
    hide HalfUp, Times, Product, FactorsSince, Sort;
    var factors := FactorsSince(selected, c.timestamp);
    SinceIsInverse(selected, c.timestamp);
    SortProduct(InForcePrice(c.timestamp), selected);
    SortProduct(InForceVolume(c.timestamp), selected);
    var price, volume := Product(InForcePrice(c.timestamp), selected), Product(InForceVolume(c.timestamp), selected);
    UndoneBy(c.open, factors.0, price);
    UndoneBy(c.high, factors.0, price);
    UndoneBy(c.low, factors.0, price);
    UndoneBy(c.close, factors.0, price);
    VolumeUndone(c.volume, HalfUp(Times(c.volume as real, factors.1)), factors.1, volume);
  }

  // ----- filters and faults, said of the actions -----

  lemma {:induction false} EligibleExactly(actions: seq<Action>, asOf: int)
    ensures forall a :: a in EligibleOnly(actions, asOf) <==> a in actions && a.knownAt <= asOf && a.effectiveAt <= asOf
  {
    if actions != [] {
      EligibleExactly(actions[..|actions| - 1], asOf);
      assert actions == actions[..|actions| - 1] + [actions[|actions| - 1]];
    }
  }

  lemma {:induction false} ConfirmedExactly(actions: seq<Action>)
    ensures forall a :: a in Confirmed(actions) <==> a in actions && a.status == "confirmed"
  {
    if actions != [] {
      ConfirmedExactly(actions[..|actions| - 1]);
      assert actions == actions[..|actions| - 1] + [actions[|actions| - 1]];
    }
  }

  /** No action is at fault exactly when each has a revision, a known type and status, and positive factors. */
  lemma {:induction false} FaultlessExactly(actions: seq<Action>)
    ensures FirstFault(actions).None? <==>
            forall a :: a in actions ==>
              && a.revision >= 1 && a.actionType in ACTION_TYPES && a.status in ACTION_STATUSES
              && a.priceFactor > 0.0 && a.volumeFactor > 0.0
  {
    if actions != [] {
      FaultlessExactly(actions[..|actions| - 1]);
      assert actions == actions[..|actions| - 1] + [actions[|actions| - 1]];
    }
  }

  /** The one check that an action fails first. */
  ghost predicate FailsAt(a: Action, e: Error) {
    match e
    case BadRevision => a.revision < 1
    case BadType => a.revision >= 1 && a.actionType !in ACTION_TYPES
    case BadStatus => a.revision >= 1 && a.actionType in ACTION_TYPES && a.status !in ACTION_STATUSES
    case BadFactors =>
      && a.revision >= 1 && a.actionType in ACTION_TYPES && a.status in ACTION_STATUSES
      && (a.priceFactor <= 0.0 || a.volumeFactor <= 0.0)
    case _ => false
  }

  lemma FaultExactly(a: Action)
    ensures match Fault(a)
            case None => forall e :: !FailsAt(a, e)
            case Some(fault) => FailsAt(a, fault)
  {
  }

  /** The fault reported is that of the first action that has one. */
  lemma {:induction false} FirstFaultIsFirst(actions: seq<Action>)
    ensures match FirstFault(actions)
            case None => forall k, e :: 0 <= k < |actions| ==> !FailsAt(actions[k], e)
            case Some(fault) =>
              exists k :: 0 <= k < |actions| && FailsAt(actions[k], fault)
                          && forall j, e :: 0 <= j < k ==> !FailsAt(actions[j], e)
  {
    if actions != [] {
      var init, a := actions[..|actions| - 1], actions[|actions| - 1];
      FirstFaultIsFirst(init);
      FaultExactly(a);
      hide FailsAt, Fault;
      if FirstFault(init).Some? {
        var k :| 0 <= k < |init| && FailsAt(init[k], FirstFault(init).value)
                 && forall j, e :: 0 <= j < k ==> !FailsAt(init[j], e);
        assert FailsAt(actions[k], FirstFault(actions).value);
        assert forall j, e :: 0 <= j < k ==> !FailsAt(actions[j], e) by {
          assert forall j :: 0 <= j < k ==> actions[j] == init[j];
        }
      } else {
        assert forall j :: 0 <= j < |init| ==> actions[j] == init[j];
      }
    }
  }

  ghost predicate ByDate(actions: seq<Action>) {
    forall i, j :: 0 <= i < j < |actions| ==> actions[i].effectiveAt <= actions[j].effectiveAt
  }

  lemma SortedByDate(actions: seq<Action>)
    ensures ByDate(Sort(ByEffective, actions))
  {
    ByEffectiveOrders();
    SortSorts(ByEffective, actions);
    var sorted := Sort(ByEffective, actions);
    assert forall i, j :: 0 <= i < j < |sorted| ==> ByEffective(sorted[i], sorted[j]);
  }

  // ----- each selected action once -----

  ghost predicate EachOnce(actions: seq<Action>) {
    forall a :: multiset(actions)[a] <= 1
  }

  lemma {:induction false} DistinctOnce(actions: seq<Action>)
    requires forall i, j :: 0 <= i < j < |actions| ==> actions[i] != actions[j]
    ensures EachOnce(actions)
  {
    if actions != [] {
      var init, a := actions[..|actions| - 1], actions[|actions| - 1];
      assert a !in init;
      DistinctOnce(init);
      assert actions == init + [a];
    }
  }

  lemma {:induction false} ConfirmedWithin(actions: seq<Action>)
    ensures multiset(Confirmed(actions)) <= multiset(actions)
  {
    if actions != [] {
      ConfirmedWithin(actions[..|actions| - 1]);
      assert actions == actions[..|actions| - 1] + [actions[|actions| - 1]];
    }
  }
}
