/** Concentration of a portfolio in one currency (backend/app/portfolio/analysis.py). */
module Portfolio {
  import opened Core

  datatype Holding = Holding(symbol: string, marketValue: real, purchaseAmount: real, profitAfterCost: real)

  datatype Level = High | Moderate | Balanced

  datatype RiskFlag = HighConcentration | LossConcentration | NegativeReturn

  datatype Analysis = Analysis(marketValue: real, largest: nat, largestAllocation: real, concentration: real,
                               effectiveCount: real, level: Level, lossExposure: real, flags: seq<RiskFlag>)

  function Sum(xs: seq<real>): real {
    if xs == [] then 0.0 else Sum(xs[..|xs| - 1]) + xs[|xs| - 1]
  }

  function Square(x: real): real {
    Times(x, x)
  }

  function SumOfSquares(xs: seq<real>): real {
    if xs == [] then 0.0 else SumOfSquares(xs[..|xs| - 1]) + Square(xs[|xs| - 1])
  }

  function MarketValues(holdings: seq<Holding>): (r: seq<real>)
    ensures |r| == |holdings|
    ensures forall i :: 0 <= i < |r| ==> r[i] == holdings[i].marketValue
  {
    seq(|holdings|, i requires 0 <= i < |holdings| => holdings[i].marketValue)
  }

  /** The market values of the holdings at a loss; 0 stands for a holding that is not. */
  function LossValues(holdings: seq<Holding>): (r: seq<real>)
    ensures |r| == |holdings|
    ensures forall i :: 0 <= i < |r| ==>
            r[i] == if holdings[i].profitAfterCost < 0.0 then holdings[i].marketValue else 0.0
  {
    seq(|holdings|, i requires 0 <= i < |holdings| =>
      if holdings[i].profitAfterCost < 0.0 then holdings[i].marketValue else 0.0)
  }

  function Profits(holdings: seq<Holding>): (r: seq<real>)
    ensures |r| == |holdings|
  {
    seq(|holdings|, i requires 0 <= i < |holdings| => holdings[i].profitAfterCost)
  }

  /** Each value's share of the total, all 0 when the total is. */
  function Shares(values: seq<real>, total: real): (r: seq<real>)
    ensures |r| == |values|
    ensures forall i :: 0 <= i < |r| ==> r[i] == if total != 0.0 then values[i] / total else 0.0
  {
    seq(|values|, i requires 0 <= i < |values| => if total != 0.0 then values[i] / total else 0.0)
  }

  /** The first index of the largest element. */
  function Largest(xs: seq<real>): (r: nat)
    requires xs != []
    ensures r < |xs|
    ensures forall i :: 0 <= i < |xs| ==> xs[i] <= xs[r]
    ensures forall i :: 0 <= i < r ==> xs[i] < xs[r]
  {
    if |xs| == 1 then 0
    else
      var best := Largest(xs[..|xs| - 1]);
      if xs[|xs| - 1] > xs[best] then |xs| - 1 else best
  }

  function LevelOf(largest: real, concentration: real): Level {
    if largest >= 0.5 || concentration >= 0.35 then High
    else if largest >= 0.3 || concentration >= 0.2 then Moderate
    else Balanced
  }

  function Analyze(holdings: seq<Holding>): Analysis
    requires holdings != []
  {
    var total := Sum(MarketValues(holdings));
    var allocations := Shares(MarketValues(holdings), total);
    var concentration := SumOfSquares(allocations);
    var largest := Largest(allocations);
    var level := LevelOf(allocations[largest], concentration);
    var lossExposure := if total != 0.0 then Sum(LossValues(holdings)) / total else 0.0;
    Analysis(total, largest, allocations[largest], concentration,
             if concentration != 0.0 then 1.0 / concentration else 0.0, level, lossExposure,
             (if level.High? then [HighConcentration] else [])
             + (if lossExposure >= 0.25 then [LossConcentration] else [])
             + (if Sum(Profits(holdings)) < 0.0 then [NegativeReturn] else []))
  }

  /** Market values are not negative, and something is held. */
  ghost predicate Funded(holdings: seq<Holding>) {
    && holdings != []
    && (forall h :: h in holdings ==> h.marketValue >= 0.0)
    && Sum(MarketValues(holdings)) > 0.0
  }

  // ----- sums -----

  lemma ShareOfSum(a: real, b: real, total: real)
    requires total != 0.0
    ensures (a + b) / total == a / total + b / total
  {
  }

  lemma {:induction false} SumOfShares(values: seq<real>, total: real)
    requires total != 0.0
    ensures Sum(Shares(values, total)) == Sum(values) / total
  {
    if values != [] {
      var init, last := values[..|values| - 1], values[|values| - 1];
      SumOfShares(init, total);
      assert Shares(values, total)[..|values| - 1] == Shares(init, total);
      ShareOfSum(Sum(init), last, total);
    }
  }

  lemma {:induction false} SumOrdered(low: seq<real>, high: seq<real>)
    requires |low| == |high| && forall i :: 0 <= i < |low| ==> low[i] <= high[i]
    ensures Sum(low) <= Sum(high)
  {
    if low != [] {
      SumOrdered(low[..|low| - 1], high[..|high| - 1]);
    }
  }

  lemma {:induction false} SumNotNegative(xs: seq<real>)
    requires forall i :: 0 <= i < |xs| ==> xs[i] >= 0.0
    ensures Sum(xs) >= 0.0
    ensures forall i :: 0 <= i < |xs| ==> xs[i] <= Sum(xs)
  {
    if xs != [] {
      var init := xs[..|xs| - 1];
      SumNotNegative(init);
      assert forall i :: 0 <= i < |init| ==> init[i] == xs[i];
    }
  }

  lemma SquareAtMost(squares: real, sum: real, x: real, bound: real)
    requires 0.0 <= x <= bound && squares <= bound * sum
    ensures squares + Square(x) <= bound * (sum + x)
  {
    assert x * x <= bound * x;
    assert bound * (sum + x) == bound * sum + bound * x;
  }

  lemma {:induction false} SquaresAtMost(xs: seq<real>, bound: real)
    requires forall i :: 0 <= i < |xs| ==> 0.0 <= xs[i] <= bound
    ensures SumOfSquares(xs) <= bound * Sum(xs)
  {
    if xs != [] {
      hide Square;
      var init, last := xs[..|xs| - 1], xs[|xs| - 1];
      SquaresAtMost(init, bound);
      SquareAtMost(SumOfSquares(init), Sum(init), last, bound);
      assert bound * Sum(xs) == bound * (Sum(init) + last);
    }
  }

  ghost predicate Uniform(xs: seq<real>, x: real) {
    forall i :: 0 <= i < |xs| ==> xs[i] == x
  }

  lemma TimesNegated(x: real, y: real)
    ensures Times(-x, -y) == Times(x, y)
  {
  }

  lemma SquarePositive(x: real)
    ensures x != 0.0 ==> Square(x) > 0.0
    ensures Square(0.0) == 0.0
  {
    assert Square(0.0) == 0.0;
    hide Times;
    if x > 0.0 {
      assert Times(x, x) > 0.0;
    } else if x < 0.0 {
      assert Times(-x, -x) > 0.0;
      TimesNegated(x, x);
    }
  }

  /** How far the elements lie from one value, squared and added up. */
  function Spread(xs: seq<real>, mean: real): (r: real)
    ensures r >= 0.0
    ensures r == 0.0 ==> Uniform(xs, mean)
  {
    if xs == [] then 0.0
    else
      var init, last := xs[..|xs| - 1], xs[|xs| - 1];
      SquarePositive(last - mean);
      Spread(init, mean) + Square(last - mean)
  }

  lemma SquareOfDifference(x: real, mean: real)
    ensures Square(x - mean) == Square(x) - 2.0 * mean * x + mean * mean
  {
  }

  /** The spread, from the sum and the sum of squares alone. */
  function Expanded(squares: real, sum: real, n: real, mean: real): real {
    squares - 2.0 * mean * sum + n * mean * mean
  }

  lemma ExpandedStep(squares: real, sum: real, n: real, x: real, mean: real)
    ensures Expanded(squares, sum, n, mean) + Square(x - mean) == Expanded(squares + Square(x), sum + x, n + 1.0, mean)
  {
    hide Square;
    SquareOfDifference(x, mean);
    assert 2.0 * mean * (sum + x) == 2.0 * mean * sum + 2.0 * mean * x;
    assert (n + 1.0) * mean * mean == n * mean * mean + mean * mean;
  }

  lemma {:induction false} SpreadExpands(xs: seq<real>, mean: real)
    ensures Spread(xs, mean) == Expanded(SumOfSquares(xs), Sum(xs), |xs| as real, mean)
  {
    if xs != [] {
      hide Square, Expanded;
      var init, last := xs[..|xs| - 1], xs[|xs| - 1];
      SpreadExpands(init, mean);
      ExpandedStep(SumOfSquares(init), Sum(init), |init| as real, last, mean);
      assert |xs| as real == |init| as real + 1.0;
    }
  }

  lemma MeanSquared(n: real)
    requires n > 0.0
    ensures n * (1.0 / n) * (1.0 / n) == 1.0 / n
  {
  }

  lemma ExpandedAtMean(squares: real, n: real)
    requires n > 0.0
    ensures Expanded(squares, 1.0, n, 1.0 / n) == squares - 1.0 / n
  {
    MeanSquared(n);
  }

  /** Shares of one whole: their squares add up to 1/n at least, and to no more exactly when all are equal. */
  lemma SquaresAtLeast(xs: seq<real>)
    requires xs != [] && Sum(xs) == 1.0
    ensures SumOfSquares(xs) >= 1.0 / |xs| as real
    ensures SumOfSquares(xs) == 1.0 / |xs| as real ==> Uniform(xs, 1.0 / |xs| as real)
  {
    hide Sum, SumOfSquares, Spread, Expanded;
    var n := |xs| as real;
    SpreadExpands(xs, 1.0 / n);
    ExpandedAtMean(SumOfSquares(xs), n);
  }

  lemma {:induction false} SquaresOfEqual(xs: seq<real>, x: real)
    requires Uniform(xs, x)
    ensures SumOfSquares(xs) == |xs| as real * x * x && Sum(xs) == |xs| as real * x
  {
    if xs != [] {
      SquaresOfEqual(xs[..|xs| - 1], x);
    }
  }

  // ----- the index -----

  lemma QuotientNotNegative(x: real, total: real)
    requires x >= 0.0 && total > 0.0
    ensures x / total >= 0.0
  {
  }

  lemma AllocationsOfFunded(holdings: seq<Holding>)
    requires Funded(holdings)
    ensures var total := Sum(MarketValues(holdings));
            var allocations := Shares(MarketValues(holdings), total);
            Sum(allocations) == 1.0 && forall i :: 0 <= i < |allocations| ==> 0.0 <= allocations[i] <= 1.0
  {
    hide Sum;
    var values := MarketValues(holdings);
    var total := Sum(values);
    var allocations := Shares(values, total);
    assert forall i :: 0 <= i < |holdings| ==> holdings[i] in holdings;
    SumOfShares(values, total);
    OverItself(total);
    forall i | 0 <= i < |values|
      ensures allocations[i] >= 0.0
    {
      QuotientNotNegative(values[i], total);
    }
    SumNotNegative(allocations);
  }

  lemma TimesMore(x: real, y: real, n: real)
    requires x > 0.0 && y > n
    ensures y * x > n * x
  {
  }

  lemma ReciprocalAtMost(x: real, y: real, n: real)
    requires x > 0.0 && y * x == 1.0 && n * x >= 1.0
    ensures y <= n
  {
    if y > n {
      TimesMore(x, y, n);
    }
  }

  lemma ReciprocalAtLeastOne(x: real, y: real)
    requires 0.0 < x <= 1.0 && y * x == 1.0
    ensures y >= 1.0
  {
    if y < 1.0 {
      TimesMore(x, 1.0, y);
    }
  }

  lemma TimesAtLeast(n: real, x: real, y: real)
    requires n > 0.0 && x >= y
    ensures n * x >= n * y
  {
  }

  lemma ReciprocalBounds(x: real, n: real)
    requires n > 0.0 && 1.0 / n <= x <= 1.0
    ensures x > 0.0 && 1.0 <= 1.0 / x <= n
  {
    assert 1.0 / n > 0.0;
    TimesAtLeast(n, x, 1.0 / n);
    assert n * (1.0 / n) == 1.0;
    assert (1.0 / x) * x == 1.0;
    ReciprocalAtMost(x, 1.0 / x, n);
    ReciprocalAtLeastOne(x, 1.0 / x);
  }

  /** The bounds of the concentration index and of the effective number of holdings. */
  lemma ConcentrationBounds(holdings: seq<Holding>)
    requires Funded(holdings)
    ensures var a := Analyze(holdings);
            var n := |holdings| as real;
            && 1.0 / n <= a.concentration <= a.largestAllocation <= 1.0
            && 1.0 <= a.effectiveCount <= n
  {
    hide Sum, SumOfSquares;
    AllocationsOfFunded(holdings);
    var allocations := Shares(MarketValues(holdings), Sum(MarketValues(holdings)));
    SquaresAtLeast(allocations);
    SquaresAtMost(allocations, allocations[Largest(allocations)]);
    ReciprocalBounds(SumOfSquares(allocations), |holdings| as real);
  }

  lemma OneShare(n: real, x: real)
    requires n > 0.0 && n * x == 1.0
    ensures x == 1.0 / n && n * x * x == 1.0 / n
  {
    assert n * x * x == 1.0 * x;
  }

  lemma SquaresLeastExactly(xs: seq<real>)
    requires xs != [] && Sum(xs) == 1.0
    ensures SumOfSquares(xs) == 1.0 / |xs| as real <==> Uniform(xs, xs[0])
  {
    hide Sum, SumOfSquares;
    SquaresAtLeast(xs);
    if Uniform(xs, xs[0]) {
      SquaresOfEqual(xs, xs[0]);
      OneShare(|xs| as real, xs[0]);
    }
  }

  lemma ReciprocalIs(x: real, n: real)
    requires x > 0.0 && n > 0.0
    ensures 1.0 / x == n <==> x == 1.0 / n
  {
    assert (1.0 / x) * x == 1.0 && (1.0 / n) * n == 1.0;
    if 1.0 / x == n {
      OneShare(n, x);
    }
  }

  lemma ShareIsPositive(n: real)
    requires n > 0.0
    ensures 1.0 / n > 0.0
  {
  }

  lemma SameQuotient(x: real, y: real, total: real)
    requires total != 0.0
    ensures x / total == y / total <==> x == y
  {
    assert x == x / total * total && y == y / total * total;
  }

  /** The effective number reaches the actual one exactly when all holdings are worth the same. */
  lemma EffectiveCountIsFullExactlyWhenEqual(holdings: seq<Holding>)
    requires Funded(holdings)
    ensures Analyze(holdings).effectiveCount == |holdings| as real <==>
            forall i :: 0 <= i < |holdings| ==> holdings[i].marketValue == holdings[0].marketValue
  {
    hide Sum, SumOfSquares, LevelOf, Largest;
    var values := MarketValues(holdings);
    var total := Sum(values);
    var allocations := Shares(values, total);
    AllocationsOfFunded(holdings);
    ConcentrationBounds(holdings);
    SquaresLeastExactly(allocations);
    ShareIsPositive(|holdings| as real);
    ReciprocalIs(SumOfSquares(allocations), |holdings| as real);
    forall i | 0 <= i < |holdings|
      ensures allocations[i] == allocations[0] <==> values[i] == values[0]
    {
      SameQuotient(values[i], values[0], total);
    }
  }

  // ----- the level -----

  /** Few holdings can never look balanced: five or fewer are concentrated, two or fewer highly so. */
  lemma FewAreConcentrated(holdings: seq<Holding>)
    requires Funded(holdings)
    ensures |holdings| <= 5 ==> !Analyze(holdings).level.Balanced?
    ensures |holdings| <= 2 ==> Analyze(holdings).level.High?
  {
    hide Sum, SumOfSquares;
    ConcentrationBounds(holdings);
    if |holdings| <= 5 {
      assert 1.0 / |holdings| as real >= 0.2;
    }
    if |holdings| <= 2 {
      assert 1.0 / |holdings| as real >= 0.5;
    }
  }

  function EqualSplit(n: nat): (r: seq<Holding>)
    ensures |r| == n
  {
    seq(n, i => Holding("", 1.0, 1.0, 0.0))
  }

  lemma LevelOfEqualShares(n: nat)
    requires n >= 1
    ensures LevelOf(1.0 / n as real, 1.0 / n as real) == if n <= 2 then High else if n <= 5 then Moderate else Balanced
  {
    var share := 1.0 / n as real;
    assert share * n as real == 1.0;
    if n == 1 {
    } else if n == 2 {
    } else if n == 3 {
    } else if n == 4 {
    } else if n == 5 {
    } else {
      assert 5.0 * share < 1.0;
    }
  }

  /** Equal parts show those limits to be exact. */
  lemma EqualSplitLevel(n: nat)
    requires n >= 1
    ensures Funded(EqualSplit(n))
    ensures Analyze(EqualSplit(n)).level == if n <= 2 then High else if n <= 5 then Moderate else Balanced
  {
    hide Sum, SumOfSquares, LevelOf;
    var holdings := EqualSplit(n);
    var values := MarketValues(holdings);
    SquaresOfEqual(values, 1.0);
    var allocations := Shares(values, Sum(values));
    var share := 1.0 / n as real;
    SquaresOfEqual(allocations, share);
    MeanSquared(n as real);
    assert Sum(values) == n as real && SumOfSquares(allocations) == share;
    LevelOfEqualShares(n);
  }

  lemma LevelsPossibleExactly(n: nat)
    requires n >= 1
    ensures (exists holdings :: |holdings| == n && Funded(holdings) && Analyze(holdings).level.Balanced?) <==> n >= 6
    ensures (exists holdings :: |holdings| == n && Funded(holdings) && !Analyze(holdings).level.High?) <==> n >= 3
  {
    hide Analyze, Funded;
    forall holdings: seq<Holding> | |holdings| == n && Funded(holdings)
      ensures n <= 5 ==> !Analyze(holdings).level.Balanced?
      ensures n <= 2 ==> Analyze(holdings).level.High?
    {
      FewAreConcentrated(holdings);
    }
    EqualSplitLevel(n);
  }

  // ----- the levels, said of the market values -----

  lemma ShareSquared(value: real, total: real)
    requires total != 0.0
    ensures Square(value / total) * (total * total) == Square(value)
  {
    var share := value / total;
    assert share * total == value;
    assert (share * share) * (total * total) == (share * total) * (share * total);
  }

  lemma Distributes(a: real, b: real, c: real)
    ensures (a + b) * c == a * c + b * c
  {
  }

  lemma {:induction false} SquaresOfShares(values: seq<real>, total: real)
    requires total != 0.0
    ensures SumOfSquares(Shares(values, total)) * (total * total) == SumOfSquares(values)
  {
    if values != [] {
      hide Square;
      var init, last := values[..|values| - 1], values[|values| - 1];
      SquaresOfShares(init, total);
      assert Shares(values, total)[..|values| - 1] == Shares(init, total);
      ShareSquared(last, total);
      Distributes(SumOfSquares(Shares(init, total)), Square(last / total), total * total);
    }
  }

  lemma QuotientAtLeast(x: real, total: real, bound: real)
    requires total > 0.0
    ensures x / total >= bound <==> x >= bound * total
  {
    var share := x / total;
    assert share * total == x;
    if share >= bound {
      assert share * total >= bound * total;
    } else {
      assert share * total < bound * total;
    }
  }

  ghost predicate HasPart(value: real, total: real, part: real) {
    value >= part * total
  }

  /** Some holding has at least this part of the total. */
  ghost predicate SomeHoldingHas(holdings: seq<Holding>, part: real) {
    exists i :: 0 <= i < |holdings| && HasPart(holdings[i].marketValue, Sum(MarketValues(holdings)), part)
  }

  lemma SharePart(value: real, total: real, part: real)
    requires total > 0.0
    ensures HasPart(value, total, part) <==> value / total >= part
  {
    QuotientAtLeast(value, total, part);
  }

  lemma LargestPart(values: seq<real>, total: real, part: real)
    requires values != [] && total > 0.0
    ensures var allocations := Shares(values, total);
            allocations[Largest(allocations)] >= part <==>
            exists i :: 0 <= i < |values| && HasPart(values[i], total, part)
  {
    hide HasPart;
    var allocations := Shares(values, total);
    forall i | 0 <= i < |values|
      ensures allocations[i] >= part <==> HasPart(values[i], total, part)
    {
      SharePart(values[i], total, part);
    }
    var top := Largest(allocations);
    if i :| 0 <= i < |values| && HasPart(values[i], total, part) {
      assert allocations[i] >= part;
    }
  }

  lemma LargestAtLeast(holdings: seq<Holding>, part: real)
    requires Funded(holdings)
    ensures var allocations := Shares(MarketValues(holdings), Sum(MarketValues(holdings)));
            allocations[Largest(allocations)] >= part <==> SomeHoldingHas(holdings, part)
  {
    hide Sum, Largest, HasPart;
    var values, total := MarketValues(holdings), Sum(MarketValues(holdings));
    LargestPart(values, total, part);
    if i :| 0 <= i < |values| && HasPart(values[i], total, part) {
      assert HasPart(holdings[i].marketValue, total, part);
    }
    if SomeHoldingHas(holdings, part) {
      var i :| 0 <= i < |holdings| && HasPart(holdings[i].marketValue, total, part);
      assert HasPart(values[i], total, part);
    }
  }

  lemma SquareOfTotal(total: real, whole: real)
    requires total > 0.0 && whole == total * total
    ensures whole > 0.0
  {
    SquarePositive(total);
    assert Square(total) == whole;
  }

  lemma TimesKeepsOrder(a: real, b: real, factor: real)
    requires factor > 0.0
    ensures a >= b <==> a * factor >= b * factor
  {
  }

  lemma SquaresOver(values: seq<real>, total: real, bound: real)
    requires total > 0.0
    ensures SumOfSquares(Shares(values, total)) >= bound <==> SumOfSquares(values) >= bound * (total * total)
  {
    hide SumOfSquares;
    SquaresOfShares(values, total);
    var whole := total * total;
    SquareOfTotal(total, whole);
    TimesKeepsOrder(SumOfSquares(Shares(values, total)), bound, whole);
  }

  /** The level is high when one holding is half of the whole, or the squared values reach 35% of its square. */
  lemma LevelExactly(holdings: seq<Holding>)
    requires Funded(holdings)
    ensures var total, squares := Sum(MarketValues(holdings)), SumOfSquares(MarketValues(holdings));
            && (Analyze(holdings).level.High? <==>
                SomeHoldingHas(holdings, 0.5) || squares >= 0.35 * (total * total))
            && (Analyze(holdings).level.Balanced? <==>
                !SomeHoldingHas(holdings, 0.3) && squares < 0.2 * (total * total))
  {
    hide Sum, SumOfSquares, Largest, SomeHoldingHas;
    LargestAtLeast(holdings, 0.5);
    LargestAtLeast(holdings, 0.3);
    SquaresOver(MarketValues(holdings), Sum(MarketValues(holdings)), 0.35);
    SquaresOver(MarketValues(holdings), Sum(MarketValues(holdings)), 0.2);
  }

  /** The flags, each by its own condition on the holdings, in a fixed order and never twice. */
  lemma FlagsExactly(holdings: seq<Holding>)
    requires Funded(holdings)
    ensures var flags := Analyze(holdings).flags;
            && (HighConcentration in flags <==> Analyze(holdings).level.High?)
            && (LossConcentration in flags <==>
                Sum(LossValues(holdings)) >= 0.25 * Sum(MarketValues(holdings)))
            && (NegativeReturn in flags <==> Sum(Profits(holdings)) < 0.0)
            && (forall i, j :: 0 <= i < j < |flags| ==> flags[i] != flags[j])
  {
    hide Sum, SumOfSquares, Largest, LevelOf;
    QuotientAtLeast(Sum(LossValues(holdings)), Sum(MarketValues(holdings)), 0.25);
  }

  /** A portfolio whose values add up to nothing reads as balanced, whatever it holds. */
  lemma NothingReadsAsBalanced(holdings: seq<Holding>)
    requires holdings != [] && Sum(MarketValues(holdings)) == 0.0
    ensures var a := Analyze(holdings);
            a.level.Balanced? && a.concentration == 0.0 && a.effectiveCount == 0.0 && a.largest == 0
              && a.lossExposure == 0.0
  {
    hide Sum, SumOfSquares;
    var allocations := Shares(MarketValues(holdings), 0.0);
    SquaresOfEqual(allocations, 0.0);
    assert allocations[0] == allocations[Largest(allocations)];
  }

  lemma QuotientAtMostOne(x: real, total: real)
    requires 0.0 <= x <= total && total > 0.0
    ensures 0.0 <= x / total <= 1.0
    ensures x / total == 1.0 <==> x == total
  {
    assert x == x / total * total;
  }

  lemma {:induction false} SumEqualExactly(low: seq<real>, high: seq<real>)
    requires |low| == |high| && forall i :: 0 <= i < |low| ==> low[i] <= high[i]
    ensures Sum(low) == Sum(high) <==> low == high
  {
    if low != [] {
      var n := |low| - 1;
      SumOrdered(low[..n], high[..n]);
      SumEqualExactly(low[..n], high[..n]);
      assert low == low[..n] + [low[n]] && high == high[..n] + [high[n]];
    }
  }

  /** The loss exposure is a share of the whole, 1 exactly when every holding of value is at a loss. */
  lemma LossExposureBounds(holdings: seq<Holding>)
    requires Funded(holdings)
    ensures 0.0 <= Analyze(holdings).lossExposure <= 1.0
    ensures Analyze(holdings).lossExposure == 1.0 <==>
            forall i :: 0 <= i < |holdings| && holdings[i].marketValue > 0.0 ==> holdings[i].profitAfterCost < 0.0
  {
    hide Sum, SumOfSquares, LevelOf;
    var values, losses := MarketValues(holdings), LossValues(holdings);
    assert forall i :: 0 <= i < |holdings| ==> holdings[i] in holdings;
    SumOrdered(losses, values);
    SumNotNegative(losses);
    SumEqualExactly(losses, values);
    QuotientAtMostOne(Sum(losses), Sum(values));
  }
}
