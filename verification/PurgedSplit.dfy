/** Purged walk-forward splits over the rows of a feature dataset (backend/app/prediction). */
module PurgedSplit {
  import opened Core
  import opened Market

  // ----- the splitter (validation.py) -----

  /** Training rows [0, trainEnd) and test rows [testStart, testEnd). */
  datatype Fold = Fold(trainEnd: int, testStart: int, testEnd: int)

  /** Python's //, which rounds down whatever the signs. */
  function FloorDiv(a: int, b: int): (r: int)
    requires b != 0
    ensures b > 0 ==> r * b <= a < (r + 1) * b
    ensures b < 0 ==> r * b >= a > (r + 1) * b
  {
    if b > 0 then a / b else (-a) / (-b)
  }

  datatype Splitter = Splitter(horizon: int, minTrain: int, splits: int) {
    function FirstTest(): int {
      minTrain + horizon
    }

    function TestSize(count: int): int
      requires splits != 0
    {
      Max(10, FloorDiv(count - minTrain - horizon, splits))
    }

    /** The i-th fold, without a loop. */
    function FoldAt(count: int, i: nat): Fold
      requires splits != 0
    {
      var start := FirstTest() + i * TestSize(count);
      Fold(start - horizon, start, Min(count, start + TestSize(count)))
    }
  }

  datatype SplitError = ZeroDivision | HorizonNotPositive | TooFewCandles

  /** The first folds, as many as the limit and the rows allow. */
  ghost predicate IsSplit(splitter: Splitter, count: int, folds: seq<Fold>)
    requires splitter.splits != 0
  {
    && |folds| <= Max(0, splitter.splits)
    && (forall i :: 0 <= i < |folds| ==> folds[i] == splitter.FoldAt(count, i) && folds[i].testStart < count)
    && (|folds| < splitter.splits ==> splitter.FoldAt(count, |folds|).testStart >= count)
  }

  lemma NextStart(splitter: Splitter, count: int, i: nat)
    requires splitter.splits != 0
    ensures splitter.FoldAt(count, i).testStart >= splitter.FirstTest()
    ensures splitter.FoldAt(count, i + 1).testStart == splitter.FoldAt(count, i).testStart + splitter.TestSize(count)
  {
    assert (i + 1) * splitter.TestSize(count) == i * splitter.TestSize(count) + splitter.TestSize(count);
  }

  /** The folds the generator yields, in order. */
  method Split(splitter: Splitter, count: int) returns (r: Result<seq<Fold>, SplitError>)
    ensures r.Err? <==> splitter.splits == 0
    ensures r.Ok? ==> IsSplit(splitter, count, r.value)
  {
    if splitter.splits == 0 {
      return Err(ZeroDivision);
    }
    var testSize := Max(10, FloorDiv(count - splitter.minTrain - splitter.horizon, splitter.splits));
    var testStart := splitter.minTrain + splitter.horizon;
    var folds: seq<Fold> := [];
    while testStart < count && |folds| < splitter.splits
      invariant |folds| <= Max(0, splitter.splits)
      invariant testStart == Min(Max(count, splitter.FirstTest()), splitter.FoldAt(count, |folds|).testStart)
      invariant forall i :: 0 <= i < |folds| ==> folds[i] == splitter.FoldAt(count, i) && folds[i].testStart < count
      decreases count - testStart
    {
      NextStart(splitter, count, |folds|);
      var testEnd := Min(count, testStart + testSize);
      var trainEnd := testStart - splitter.horizon;
      if trainEnd >= splitter.minTrain && testEnd > testStart {
        folds := folds + [Fold(trainEnd, testStart, testEnd)];
      }
      testStart := testEnd;
    }
    r := Ok(folds);
  }

  /** How many rows from the first test row on there are, and how many folds they give. */
  function FoldCount(splitter: Splitter, count: int): nat
    requires splitter.splits != 0
  {
    var rows := count - splitter.FirstTest();
    if rows <= 0 || splitter.splits < 0 then 0
    else if rows >= 10 * splitter.splits then splitter.splits
    else (rows + 9) / 10
  }

  /** Every fold leaves exactly the horizon between training and test, and trains on enough rows. */
  lemma FoldsPurged(splitter: Splitter, count: int, folds: seq<Fold>, i: nat)
    requires splitter.splits != 0 && IsSplit(splitter, count, folds) && i < |folds|
    ensures folds[i].trainEnd == folds[i].testStart - splitter.horizon
    ensures folds[i].trainEnd >= splitter.minTrain
    ensures folds[i].testStart < folds[i].testEnd <= count
    ensures folds[0].trainEnd == splitter.minTrain && folds[0].testStart == splitter.minTrain + splitter.horizon
    ensures i + 1 < |folds| ==> folds[i + 1].testStart == folds[i].testEnd && folds[i].trainEnd < folds[i + 1].trainEnd
  {
    NextStart(splitter, count, i);
  }

  lemma TimesMonotone(a: int, b: int, n: int)
    requires a <= b && n >= 0
    ensures a * n <= b * n
  {
  }

  lemma FewerBlocks(k: nat, n: int, size: int)
    requires k < n && size >= 1
    ensures k * size < size * n
  {
    TimesMonotone(k, n - 1, size);
    assert (n - 1) * size == n * size - size;
  }

  lemma WholeSize(rows: int, n: int)
    requires n > 0 && rows >= 10 * n
    ensures FloorDiv(rows, n) >= 10
  {
    if FloorDiv(rows, n) < 10 {
      TimesMonotone(FloorDiv(rows, n) + 1, 10, n);
    }
  }

  /** Blocks of 10 while there are fewer than 10 rows a fold, otherwise the rows shared out evenly. */
  lemma BlockSize(rows: int, n: int)
    requires n > 0 && rows > 0
    ensures rows < 10 * n ==> Max(10, FloorDiv(rows, n)) == 10
    ensures rows >= 10 * n ==> Max(10, FloorDiv(rows, n)) * n == rows - rows % n
  {
    if rows >= 10 * n {
      WholeSize(rows, n);
    } else if FloorDiv(rows, n) >= 10 {
      TimesMonotone(10, FloorDiv(rows, n), n);
    }
  }

  /** How many blocks it takes to use up the rows, or the limit. */
  lemma BlockCount(rows: int, n: int, k: nat, size: int)
    requires n > 0 && size == Max(10, FloorDiv(rows, n)) && k <= n
    requires k > 0 ==> (k - 1) * size < rows
    requires k < n ==> k * size >= rows
    ensures k == if rows <= 0 then 0 else if rows >= 10 * n then n else (rows + 9) / 10
  {
    hide FloorDiv;
    if rows <= 0 {
      if k > 0 {
        TimesMonotone(0, k - 1, size);
      }
    } else {
      BlockSize(rows, n);
      if rows >= 10 * n && k < n {
        FewerBlocks(k, n, size);
      }
    }
  }

  /** The loop yields as many folds as the rows allow. */
  lemma FoldsCounted(splitter: Splitter, count: int, folds: seq<Fold>)
    requires splitter.splits != 0 && IsSplit(splitter, count, folds)
    ensures |folds| == FoldCount(splitter, count)
  {
    hide FloorDiv;
    var size, first, n := splitter.TestSize(count), splitter.FirstTest(), splitter.splits;
    if |folds| > 0 {
      assert folds[|folds| - 1].testStart == first + (|folds| - 1) * size;
    }
    if n > 0 {
      BlockCount(count - first, n, |folds|, size);
    }
  }

  /** What the blocks leave of the rows. */
  lemma Leftover(rows: int, n: int, k: nat, size: int)
    requires n > 0 && rows > 0 && size == Max(10, FloorDiv(rows, n))
    requires k == if rows >= 10 * n then n else (rows + 9) / 10
    ensures rows - Min(rows, k * size) == if rows >= 10 * n then rows % n else 0
  {
    hide FloorDiv;
    BlockSize(rows, n);
  }

  lemma LastTestEnd(splitter: Splitter, count: int, folds: seq<Fold>)
    requires splitter.splits != 0 && IsSplit(splitter, count, folds) && folds != []
    ensures folds[|folds| - 1].testEnd == Min(count, splitter.FirstTest() + |folds| * splitter.TestSize(count))
  {
    hide FloorDiv;
    NextStart(splitter, count, |folds| - 1);
  }

  /**
   * Rows that no fold tests: none while the minimum block of 10 applies; otherwise the
   * remainder that the floor division drops, the newest rows of all.
   */
  lemma UntestedRows(splitter: Splitter, count: int, folds: seq<Fold>)
    requires splitter.splits > 0 && IsSplit(splitter, count, folds) && count > splitter.FirstTest()
    ensures folds != []
    ensures var rows := count - splitter.FirstTest();
            count - folds[|folds| - 1].testEnd ==
            if rows >= 10 * splitter.splits then rows % splitter.splits else 0
  {
    FoldsCounted(splitter, count, folds);
    LastTestEnd(splitter, count, folds);
    hide FloorDiv, IsSplit;
    Leftover(count - splitter.FirstTest(), splitter.splits, |folds|, splitter.TestSize(count));
  }

  // ----- the rows and labels the folds index (features.py) -----

  datatype Row<F> = Row(features: F, rises: bool)

  /** Features are a function of the closes and the volumes so far. */
  type Features<F> = (seq<real>, seq<int>) -> F

  /** The rows with their labels, the unlabelled row to predict from, and the time it stands for. */
  datatype FeatureDataset<F> = FeatureDataset(rows: seq<Row<F>>, prediction: F, dataAsOf: int)

  function Closes(candles: seq<Candle>): (r: seq<real>)
    ensures |r| == |candles| && forall i :: 0 <= i < |r| ==> r[i] == candles[i].close
  {
    seq(|candles|, i requires 0 <= i < |candles| => candles[i].close)
  }

  function Volumes(candles: seq<Candle>): (r: seq<int>)
    ensures |r| == |candles| && forall i :: 0 <= i < |r| ==> r[i] == candles[i].volume
  {
    seq(|candles|, i requires 0 <= i < |candles| => candles[i].volume)
  }

  function FeaturesAt<F>(ordered: seq<Candle>, features: Features<F>, index: nat): F
    requires index < |ordered|
  {
    features(Closes(ordered)[..index + 1], Volumes(ordered)[..index + 1])
  }

  /** Row r describes candle lookback + r; its label looks horizon candles ahead. */
  function RowAt<F>(ordered: seq<Candle>, horizon: int, lookback: nat, features: Features<F>, r: nat): Row<F>
    requires horizon >= 1 && lookback + r + horizon < |ordered|
  {
    var index := lookback + r;
    Row(FeaturesAt(ordered, features, index), ordered[index + horizon].close > ordered[index].close)
  }

  /** A row describes the candles up to its own and says whether the close a horizon later is above its close. */
  lemma RowMeans<F>(ordered: seq<Candle>, horizon: int, lookback: nat, features: Features<F>, r: nat)
    requires horizon >= 1 && lookback + r + horizon < |ordered|
    ensures var row, known := RowAt(ordered, horizon, lookback, features, r), ordered[..lookback + r + 1];
            && row.features == features(Closes(known), Volumes(known))
            && (row.rises <==> ordered[lookback + r].close < ordered[lookback + r + horizon].close)
  {
    var known := ordered[..lookback + r + 1];
    assert Closes(ordered)[..lookback + r + 1] == Closes(known);
    assert Volumes(ordered)[..lookback + r + 1] == Volumes(known);
  }

  lemma RowUnfolds<F>(ordered: seq<Candle>, horizon: int, lookback: nat, features: Features<F>, index: nat)
    requires horizon >= 1 && lookback <= index && index + horizon < |ordered|
    ensures RowAt(ordered, horizon, lookback, features, index - lookback) ==
            Row(features(Closes(ordered)[..index + 1], Volumes(ordered)[..index + 1]),
                Closes(ordered)[index + horizon] > Closes(ordered)[index])
  {
    hide Closes, Volumes;
  }

  lemma LastUnfolds<F>(ordered: seq<Candle>, features: Features<F>)
    requires ordered != []
    ensures FeaturesAt(ordered, features, |ordered| - 1) ==
            features(Closes(ordered)[..|ordered|], Volumes(ordered)[..|ordered|])
  {
    hide Closes, Volumes;
  }

  lemma NewestIsLast(candles: seq<Candle>)
    requires candles != []
    ensures SortByTime(candles)[|candles| - 1] in candles
    ensures forall c :: c in candles ==> c.timestamp <= SortByTime(candles)[|candles| - 1].timestamp
  {
    hide SortByTime;
    SortByTimeLaws(candles);
    var ordered := SortByTime(candles);
    assert ordered[|ordered| - 1] in ordered;
    forall c | c in candles
      ensures c.timestamp <= ordered[|ordered| - 1].timestamp
    {
      var k :| 0 <= k < |ordered| && ordered[k] == c;
      assert k == |ordered| - 1 || ByTime(ordered[k], ordered[|ordered| - 1]);
    }
  }

  method BuildFeatureDataset<F>(candles: seq<Candle>, horizon: int, lookback: nat, features: Features<F>)
    returns (r: Result<FeatureDataset<F>, SplitError>)
    ensures r.Err? <==> horizon < 1 || |candles| < lookback + horizon + 20
    ensures r.Ok? ==> |r.value.rows| == |candles| - horizon - lookback
    ensures r.Ok? ==> forall i :: 0 <= i < |r.value.rows| ==>
                        r.value.rows[i] == RowAt(SortByTime(candles), horizon, lookback, features, i)
    ensures r.Ok? ==> r.value.prediction == FeaturesAt(SortByTime(candles), features, |candles| - 1)
    ensures r.Ok? ==> forall c :: c in candles ==> c.timestamp <= r.value.dataAsOf
    ensures r.Ok? ==> exists c :: c in candles && c.timestamp == r.value.dataAsOf
  {
    if horizon < 1 {
      return Err(HorizonNotPositive);
    }
    if |candles| < lookback + horizon + 20 {
      return Err(TooFewCandles);
    }
    hide Closes, Volumes, SortByTime, RowAt, FeaturesAt;
    var ordered := SortByTime(candles);
    var close, volume := Closes(ordered), Volumes(ordered);
    var rows: seq<Row<F>> := [];
    var index := lookback;
    while index < |ordered| - horizon
      invariant lookback <= index <= |ordered| - horizon
      invariant |rows| == index - lookback
      invariant forall i :: 0 <= i < |rows| ==> rows[i] == RowAt(ordered, horizon, lookback, features, i)
    {
      RowUnfolds(ordered, horizon, lookback, features, index);
      rows := rows + [Row(features(close[..index + 1], volume[..index + 1]), close[index + horizon] > close[index])];
      index := index + 1;
    }
    NewestIsLast(candles);
    LastUnfolds(ordered, features);
    r := Ok(FeatureDataset(rows, features(close[..|ordered|], volume[..|ordered|]), ordered[|ordered| - 1].timestamp));
  }

  /** Row r of one dataset is row r of every dataset that agrees with it through the label's candle. */
  lemma RowReads<F>(left: seq<Candle>, right: seq<Candle>, horizon: int, lookback: nat,
                    features: Features<F>, r: nat)
    requires horizon >= 1 && lookback + r + horizon < |left| && lookback + r + horizon < |right|
    requires left[..lookback + r + horizon + 1] == right[..lookback + r + horizon + 1]
    ensures RowAt(left, horizon, lookback, features, r) == RowAt(right, horizon, lookback, features, r)
  {
    var index := lookback + r;
    var known := left[..index + horizon + 1];
    assert forall i :: 0 <= i <= index + horizon ==> left[i] == known[i] && right[i] == known[i];
    assert Closes(left)[..index + 1] == Closes(right)[..index + 1];
    assert Volumes(left)[..index + 1] == Volumes(right)[..index + 1];
  }

  /**
   * No leakage: whatever happens from the first test row's candle on, every training row keeps
   * its features and its label.
   */
  lemma TrainingUnaffectedByTest<F>(splitter: Splitter, left: seq<Candle>, right: seq<Candle>, lookback: nat,
                                    features: Features<F>, folds: seq<Fold>, i: nat, r: nat)
    requires splitter.splits != 0 && splitter.horizon >= 1
    requires |left| == |right| && lookback + splitter.horizon <= |left|
    requires IsSplit(splitter, |left| - splitter.horizon - lookback, folds) && i < |folds|
    requires r < folds[i].trainEnd
    requires left[..lookback + folds[i].testStart] == right[..lookback + folds[i].testStart]
    ensures RowAt(left, splitter.horizon, lookback, features, r) ==
            RowAt(right, splitter.horizon, lookback, features, r)
  {
    FoldsPurged(splitter, |left| - splitter.horizon - lookback, folds, i);
    var known, read := lookback + folds[i].testStart, lookback + r + splitter.horizon + 1;
    assert left[..read] == left[..known][..read] && right[..read] == right[..known][..read];
    RowReads(left, right, splitter.horizon, lookback, features, r);
  }

  /** The gap is as narrow as that allows: the very next row's label already reads the first test candle. */
  lemma GapIsTight<F>(ordered: seq<Candle>, horizon: int, lookback: nat, features: Features<F>, testStart: nat)
    requires horizon >= 1 && testStart >= horizon && lookback + testStart < |ordered|
    ensures exists other ::
              && |other| == |ordered|
              && other[..lookback + testStart] == ordered[..lookback + testStart]
              && RowAt(other, horizon, lookback, features, testStart - horizon).rises !=
                 RowAt(ordered, horizon, lookback, features, testStart - horizon).rises
  {
    var at := lookback + testStart;
    var base := ordered[at - horizon].close;
    var flipped := ordered[at].(close := if ordered[at].close > base then base else base + 1.0);
    var other := ordered[at := flipped];
    assert other[at - horizon] == ordered[at - horizon];
    assert RowAt(other, horizon, lookback, features, testStart - horizon).rises !=
           RowAt(ordered, horizon, lookback, features, testStart - horizon).rises;
  }
}
