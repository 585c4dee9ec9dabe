/**
 Per-column min/max scaling of `preprocessData` and its inverse, applied to the
 test features before they are stored.
 */
module Normalization {
  import opened Samples

  /** A feature matrix: one row of FeatureCount reals per sample. */
  predicate IsMatrix(m: seq<seq<real>>) {
    forall i :: 0 <= i < |m| ==> |m[i]| == FeatureCount
  }

  /** Per-column minimum and maximum, `xsTensor.min(0)` and `xsTensor.max(0)`. */
  datatype Bounds = Bounds(lo: seq<real>, hi: seq<real>) {
    predicate WellFormed() {
      |lo| == FeatureCount && |hi| == FeatureCount
    }

    /** No column is constant; a constant column divides 0 by 0. */
    predicate NonDegenerate()
      requires WellFormed()
    {
      forall j :: 0 <= j < FeatureCount ==> lo[j] < hi[j]
    }
  }

  function MinOf(s: seq<real>): (m: real)
    requires |s| > 0
    ensures m in s
    ensures forall i :: 0 <= i < |s| ==> m <= s[i]
  {
    if |s| == 1 then s[0]
    else
      var rest := MinOf(s[1..]);
      if s[0] <= rest then s[0] else rest
  }

  function MaxOf(s: seq<real>): (m: real)
    requires |s| > 0
    ensures m in s
    ensures forall i :: 0 <= i < |s| ==> s[i] <= m
  {
    if |s| == 1 then s[0]
    else
      var rest := MaxOf(s[1..]);
      if rest <= s[0] then s[0] else rest
  }

  function Column(m: seq<seq<real>>, j: nat): (col: seq<real>)
    requires IsMatrix(m) && j < FeatureCount
    ensures |col| == |m|
    ensures forall i :: 0 <= i < |m| ==> col[i] == m[i][j]
  {
    seq(|m|, i requires 0 <= i < |m| => m[i][j])
  }

  function ColumnBounds(m: seq<seq<real>>): (b: Bounds)
    requires IsMatrix(m) && |m| > 0
    ensures b.WellFormed()
    ensures forall i, j :: 0 <= i < |m| && 0 <= j < FeatureCount ==> b.lo[j] <= m[i][j] <= b.hi[j]
    ensures forall j :: 0 <= j < FeatureCount ==> b.lo[j] in Column(m, j) && b.hi[j] in Column(m, j)
  {
    var b := Bounds(seq(FeatureCount, j requires 0 <= j < FeatureCount => MinOf(Column(m, j))),
                    seq(FeatureCount, j requires 0 <= j < FeatureCount => MaxOf(Column(m, j))));
    assert forall i, j :: 0 <= i < |m| && 0 <= j < FeatureCount ==> Column(m, j)[i] == m[i][j];
    b
  }

  /** `(x - min) / (max - min)`. */
  function Normalize(x: real, lo: real, hi: real): (y: real)
    requires lo < hi
    ensures lo <= x <= hi ==> 0.0 <= y <= 1.0
    ensures x == lo ==> y == 0.0
    ensures x == hi ==> y == 1.0
    ensures Denormalize(y, lo, hi) == x
  {
    var y := (x - lo) / (hi - lo);
    assert y * (hi - lo) == x - lo;
    var z := (hi - x) / (hi - lo);
    assert z * (hi - lo) == hi - x;
    assert (y + z) * (hi - lo) == y * (hi - lo) + z * (hi - lo) == 1.0 * (hi - lo);
    assert y + z == 1.0;
    ScaleBetween(y, hi - lo);
    y
  }

  /** `x * (max - min) + min`, the inverse scaling used at store time. */
  function Denormalize(y: real, lo: real, hi: real): (x: real)
    ensures lo <= hi && 0.0 <= y <= 1.0 ==> lo <= x <= hi
    ensures y == 0.0 ==> x == lo
    ensures y == 1.0 ==> x == hi
  {
    ScaleBetween(y, hi - lo);
    y * (hi - lo) + lo
  }

  /** For a nonnegative span d: y lies in [0, 1] exactly when y * d lies in [0, d]
      (for d > 0), and y * d lies in [0, d] whenever y does. */
  lemma ScaleBetween(y: real, d: real)
    ensures d >= 0.0 && 0.0 <= y <= 1.0 ==> 0.0 <= y * d <= d
    ensures d > 0.0 && 0.0 <= y * d <= d ==> 0.0 <= y <= 1.0
  {
  }

  /** Scaling first and normalizing after gives the scaled value back. */
  lemma DenormalizeThenNormalize(y: real, lo: real, hi: real)
    requires lo < hi
    ensures Normalize(Denormalize(y, lo, hi), lo, hi) == y
  {
  }

  function NormalizeRow(row: seq<real>, b: Bounds): (r: seq<real>)
    requires |row| == FeatureCount && b.WellFormed() && b.NonDegenerate()
    ensures |r| == FeatureCount
    ensures DenormalizeRow(r, b) == row
  {
    var r := seq(FeatureCount, j requires 0 <= j < FeatureCount => Normalize(row[j], b.lo[j], b.hi[j]));
    assert forall j :: 0 <= j < FeatureCount ==> Denormalize(r[j], b.lo[j], b.hi[j]) == row[j];
    r
  }

  /** `inputFeatures.map(...)`: index j is scaled with column j's bounds. */
  function DenormalizeRow(row: seq<real>, b: Bounds): (r: seq<real>)
    requires |row| <= FeatureCount && b.WellFormed()
    ensures |r| == |row|
    ensures forall j :: 0 <= j < |row| ==> r[j] == Denormalize(row[j], b.lo[j], b.hi[j])
  {
    seq(|row|, j requires 0 <= j < |row| => Denormalize(row[j], b.lo[j], b.hi[j]))
  }

  /** `xsTensor.sub(xsMin).div(xsMax.sub(xsMin))`. */
  function NormalizeMatrix(m: seq<seq<real>>, b: Bounds): (n: seq<seq<real>>)
    requires IsMatrix(m) && b.WellFormed() && b.NonDegenerate()
    ensures |n| == |m| && IsMatrix(n)
    ensures forall i :: 0 <= i < |m| ==> n[i] == NormalizeRow(m[i], b)
  {
    seq(|m|, i requires 0 <= i < |m| => NormalizeRow(m[i], b))
  }

  /** With the bounds taken from the matrix itself, every scaled value lies in
      [0, 1], each column's minimum becomes 0 and its maximum becomes 1. */
  lemma {:induction false} NormalizedIsUnit(m: seq<seq<real>>)
    requires IsMatrix(m) && |m| > 0 && ColumnBounds(m).NonDegenerate()
    ensures forall i, j :: 0 <= i < |m| && 0 <= j < FeatureCount ==>
              0.0 <= NormalizeMatrix(m, ColumnBounds(m))[i][j] <= 1.0
    ensures forall j :: 0 <= j < FeatureCount ==>
              0.0 in Column(NormalizeMatrix(m, ColumnBounds(m)), j) &&
              1.0 in Column(NormalizeMatrix(m, ColumnBounds(m)), j)
  {
    var b := ColumnBounds(m);
    var n := NormalizeMatrix(m, b);
    forall i, j | 0 <= i < |m| && 0 <= j < FeatureCount
      ensures n[i][j] == Normalize(m[i][j], b.lo[j], b.hi[j])
    {
      assert n[i] == NormalizeRow(m[i], b);
    }
    forall j | 0 <= j < FeatureCount
      ensures 0.0 in Column(n, j) && 1.0 in Column(n, j)
    {
      var col := Column(m, j);
      var i0 :| 0 <= i0 < |m| && col[i0] == b.lo[j];
      var i1 :| 0 <= i1 < |m| && col[i1] == b.hi[j];
      assert Column(n, j)[i0] == n[i0][j] == Normalize(m[i0][j], b.lo[j], b.hi[j]);
      assert Column(n, j)[i1] == n[i1][j] == Normalize(m[i1][j], b.lo[j], b.hi[j]);
    }
  }

  /** Denormalizing every row of the scaled matrix with the same bounds gives the
      original matrix back. */
  lemma MatrixRoundTrip(m: seq<seq<real>>, b: Bounds)
    requires IsMatrix(m) && b.WellFormed() && b.NonDegenerate()
    ensures forall i :: 0 <= i < |m| ==> DenormalizeRow(NormalizeMatrix(m, b)[i], b) == m[i]
  {
  }
}
