/**
 `preprocessData` and the glue of `main` in index.js: validated samples are
 scaled, split chronologically, and the scaled test rows, flattened, are what
 the forecast loop denormalizes and stores next to each prediction.
 */
module Pipeline {
  import opened Wrappers
  import opened Samples
  import opened Normalization
  import opened TrainTestSplit
  import opened Calendar
  import opened Scheduler

  /** The `xs` array of `preprocessData`: the parsed features of every sample. */
  function FeatureMatrix(data: seq<Sample>): (m: seq<seq<real>>)
    requires forall i :: 0 <= i < |data| ==> ValidSample(data[i])
    ensures |m| == |data| && IsMatrix(m)
    ensures forall i :: 0 <= i < |data| ==> m[i] == FeatureRow(data[i])
  {
    seq(|data|, i requires 0 <= i < |data| => FeatureRow(data[i]))
  }

  /** The result of `preprocessData`: scaled features, labels and the bounds. */
  datatype Preprocessed = Preprocessed(xs: seq<seq<real>>, ys: seq<JsNumber>, bounds: Bounds)

  predicate Preprocessable(data: seq<Sample>) {
    && |data| > 0
    && (forall i :: 0 <= i < |data| ==> ValidSample(data[i]))
    && ColumnBounds(FeatureMatrix(data)).NonDegenerate()
  }

  /** The bounds are the per-column minimum and maximum of the features, every
      scaled feature lies in [0, 1] and each scaled column reaches 0 and 1,
      denormalizing a scaled row gives the sample's own features back, and the
      labels are the unvalidated `usaqi` fields. */
  function Preprocess(data: seq<Sample>): (p: Preprocessed)
    requires Preprocessable(data)
    ensures |p.xs| == |data| && |p.ys| == |data| && IsMatrix(p.xs)
    ensures p.bounds.WellFormed() && p.bounds.NonDegenerate()
    ensures p.bounds == ColumnBounds(FeatureMatrix(data))
    ensures forall j :: 0 <= j < FeatureCount ==> 0.0 in Column(p.xs, j) && 1.0 in Column(p.xs, j)
    ensures forall i, j :: 0 <= i < |data| && 0 <= j < FeatureCount ==> 0.0 <= p.xs[i][j] <= 1.0
    ensures forall i :: 0 <= i < |data| ==> DenormalizeRow(p.xs[i], p.bounds) == FeatureRow(data[i])
    ensures forall i :: 0 <= i < |data| ==> p.ys[i] == data[i].usaqi
  {
    var m := FeatureMatrix(data);
    var b := ColumnBounds(m);
    NormalizedIsUnit(m);
    Preprocessed(NormalizeMatrix(m, b), seq(|data|, i requires 0 <= i < |data| => data[i].usaqi), b)
  }

  /** The scaled test features as the flat array `xsTest.data()`. */
  function TestInputValues(filtered: seq<Sample>): (flat: seq<real>)
    requires Preprocessable(filtered)
    ensures |flat| == FeatureCount * (|filtered| - TrainCount(|filtered|))
  {
    var test := Split(Preprocess(filtered).xs).1;
    FlattenLength(test);
    Flatten(test)
  }

  /** The features stored with forecast i are not forecast values: they are the
      features of validated sample `TrainCount(n) + i`, the i-th held-out sample. */
  lemma {:induction false} StoredFeaturesAreHeldOutSamples(filtered: seq<Sample>, i: nat)
    requires Preprocessable(filtered)
    requires i < |filtered| - TrainCount(|filtered|)
    ensures DenormalizeRow(InputFeatures(TestInputValues(filtered), i), Preprocess(filtered).bounds)
            == FeatureRow(filtered[TrainCount(|filtered|) + i])
  {
    var p := Preprocess(filtered);
    var k := TrainCount(|filtered|);
    FlatTestRow(p.xs, i);
    assert InputFeatures(TestInputValues(filtered), i) == p.xs[k + i];
    assert DenormalizeRow(p.xs[k + i], p.bounds) == FeatureRow(filtered[k + i]);
  }

  /** `main` after the fetch: filter, preprocess, split, seed the cursor and run
      the forecast loop over the predictions the model made for the test rows,
      one per test row as `model.predict(xsTest)` returns them. */
  method ForecastMain(data: seq<Sample>, predictions: seq<Option<int>>, last: Option<Timestamp>, store: ForecastStore)
    returns (submitted: seq<Record>, exit: LoopExit, ghost inserted: seq<bool>)
    requires Preprocessable(FilterValid(data))
    requires |predictions| == |FilterValid(data)| - TrainCount(|FilterValid(data)|)
    modifies store
    ensures var filtered := FilterValid(data);
      var seed := SeedCursor(last);
      var n := if |predictions| < IterationCount(seed) then |predictions| else IterationCount(seed);
      && exit == (if |predictions| < IterationCount(seed) then PredictionMissing(|predictions|) else Stopped)
      && submitted == Submissions(seed, TestInputValues(filtered), predictions, Preprocess(filtered).bounds, n)
    ensures |inserted| == |submitted|
    ensures store.rows == old(store.rows) + Persisted(submitted, inserted)
    ensures store.attempts == old(store.attempts) + submitted
  {
    var filtered := FilterValid(data);
    var p := Preprocess(filtered);
    var parts := Split(p.xs);
    var inputValues := Flatten(parts.1);
    var seed := SeedCursor(last);
    var generated, final;
    submitted, generated, final, exit, inserted := RunForecast(seed, inputValues, predictions, p.bounds, store);
  }
}
