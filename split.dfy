/**
 The chronological 80/20 split of index.js and the row-major flattening that
 `xsTest.data()` performs on the test features.
 */
module TrainTestSplit {
  import opened Samples

  /** `Math.floor(0.8 * n)`, computed exactly as `(4 * n) / 5`. */
  function TrainCount(n: nat): (k: nat)
    ensures k <= n
    ensures 5 * k <= 4 * n < 5 * k + 5
  {
    (4 * n) / 5
  }

  /** `tensor.slice([begin, 0], [size, width])`: `size` rows starting at row `begin`. */
  function Slice<T>(rows: seq<T>, begin: nat, size: nat): (r: seq<T>)
    requires begin + size <= |rows|
    ensures |r| == size
    ensures forall i :: 0 <= i < size ==> r[i] == rows[begin + i]
  {
    rows[begin..begin + size]
  }

  /** The training rows are the first `TrainCount` rows, the test rows the
      remaining ones, both in input order; used for the features and the labels. */
  function Split<T>(rows: seq<T>): (parts: (seq<T>, seq<T>))
    ensures |parts.0| == TrainCount(|rows|)
    ensures |parts.1| == |rows| - TrainCount(|rows|)
    ensures forall i :: 0 <= i < |parts.0| ==> parts.0[i] == rows[i]
    ensures forall i :: 0 <= i < |parts.1| ==> parts.1[i] == rows[TrainCount(|rows|) + i]
  {
    var k := TrainCount(|rows|);
    (Slice(rows, 0, k), Slice(rows, k, |rows| - k))
  }

  /** Training rows followed by test rows are the whole input: no row is lost,
      repeated or moved. */
  lemma SplitCoversRows<T>(rows: seq<T>)
    ensures Split(rows).0 + Split(rows).1 == rows
  {
  }

  /** `TypedArray.prototype.slice(a, b)` on the `Float32Array` that `data()` returns:
      indices past the end are clamped. */
  function JsSlice<T>(s: seq<T>, a: nat, b: nat): (r: seq<T>)
    ensures |r| <= |s| && (a <= b ==> |r| <= b - a)
    ensures a <= b <= |s| ==> r == s[a..b]
  {
    var lo := if a < |s| then a else |s|;
    var hi := if b < |s| then (if b < lo then lo else b) else |s|;
    s[lo..hi]
  }

  /** The values of a matrix in row-major order, as `tensor.data()` returns them. */
  function Flatten(rows: seq<seq<real>>): (flat: seq<real>)
    ensures forall r, k :: 0 <= r < |rows| && 0 <= k < |rows[r]| ==> rows[r][k] in flat
  {
    if rows == [] then [] else Flatten(rows[..|rows| - 1]) + rows[|rows| - 1]
  }

  /** In a matrix of rows of FeatureCount values, row i occupies the flat
      positions [8 i, 8 i + 8). */
  lemma {:induction false} FlattenRow(rows: seq<seq<real>>, i: nat)
    requires forall r :: 0 <= r < |rows| ==> |rows[r]| == FeatureCount
    requires i < |rows|
    ensures |Flatten(rows)| == FeatureCount * |rows|
    ensures JsSlice(Flatten(rows), FeatureCount * i, FeatureCount * i + FeatureCount) == rows[i]
  {
    var n := |rows| - 1;
    var front := rows[..n];
    var flat := Flatten(rows);
    var lo, hi := FeatureCount * i, FeatureCount * i + FeatureCount;
    FlattenLength(front);
    assert flat == Flatten(front) + rows[n];
    if i < n {
      FlattenRow(front, i);
      var ff := Flatten(front);
      assert hi <= |ff|;
      forall k | 0 <= k < hi - lo
        ensures flat[lo..hi][k] == ff[lo..hi][k]
      {
        assert flat[lo + k] == ff[lo + k];
      }
      assert flat[lo..hi] == ff[lo..hi];
    } else {
      assert flat[lo..hi] == rows[n];
    }
  }

  /** Row i of the flattened test part is input row `TrainCount + i`. */
  lemma {:induction false} FlatTestRow(rows: seq<seq<real>>, i: nat)
    requires forall r :: 0 <= r < |rows| ==> |rows[r]| == FeatureCount
    requires i < |rows| - TrainCount(|rows|)
    ensures JsSlice(Flatten(Split(rows).1), FeatureCount * i, FeatureCount * i + FeatureCount)
            == rows[TrainCount(|rows|) + i]
  {
    FlattenRow(Split(rows).1, i);
  }

  lemma {:induction false} FlattenLength(rows: seq<seq<real>>)
    requires forall r :: 0 <= r < |rows| ==> |rows[r]| == FeatureCount
    ensures |Flatten(rows)| == FeatureCount * |rows|
  {
    if rows != [] {
      FlattenLength(rows[..|rows| - 1]);
    }
  }
}
