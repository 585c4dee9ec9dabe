/**
 The sample validator of index.js: the `data.filter` callback that keeps a raw
 sample only when each of its eight feature fields parses to a finite number.
 */
module Samples {

  /** What `parseFloat` yields for one field of a raw sample. */
  datatype JsNumber = Finite(value: real) | NaN | Infinity(negative: bool)

  /** The negation of `isNaN(value) || !isFinite(value)`. */
  predicate IsFiniteNumber(x: JsNumber): (ok: bool)
    ensures ok <==> !(x.NaN? || x.Infinity?)
  {
    x.Finite?
  }

  /** A raw sample as fetched: the eight features and the AQI label. */
  datatype Sample = Sample(
    co2Ppm: JsNumber, coPpb: JsNumber, rHumidity: JsNumber, pm2_5: JsNumber,
    pm10: JsNumber, pm1: JsNumber, pm100: JsNumber, temperature: JsNumber,
    usaqi: JsNumber)

  const FeatureCount := 8

  /** The feature fields in the order of `featureNames`; the label is not among them. */
  function Features(s: Sample): (fs: seq<JsNumber>)
    ensures |fs| == FeatureCount
  {
    [s.co2Ppm, s.coPpb, s.rHumidity, s.pm2_5, s.pm10, s.pm1, s.pm100, s.temperature]
  }

  /** The `for` loop of the callback: false at the first field that is not a
      finite number, true once every field has passed. */
  function AllFinite(fields: seq<JsNumber>): (ok: bool)
    ensures ok <==> forall i :: 0 <= i < |fields| ==> IsFiniteNumber(fields[i])
  {
    if fields == [] then true
    else if !IsFiniteNumber(fields[0]) then false
    else AllFinite(fields[1..])
  }

  predicate ValidSample(s: Sample) {
    AllFinite(Features(s))
  }

  /** `data.filter(...)`: the result after the first |data| - 1 samples, then the
      last sample if it passes. */
  function FilterValid(data: seq<Sample>): (kept: seq<Sample>)
    ensures |kept| <= |data|
    ensures forall j :: 0 <= j < |kept| ==> ValidSample(kept[j])
  {
    if data == [] then []
    else
      var last := data[|data| - 1];
      FilterValid(data[..|data| - 1]) + (if ValidSample(last) then [last] else [])
  }

  /** The positions of the samples the filter keeps, in increasing order. */
  function KeptIndices(data: seq<Sample>): (idx: seq<nat>)
    ensures forall j :: 0 <= j < |idx| ==> idx[j] < |data|
    ensures forall j, k :: 0 <= j < k < |idx| ==> idx[j] < idx[k]
    ensures forall i :: 0 <= i < |data| ==> (i in idx <==> ValidSample(data[i]))
  {
    if data == [] then []
    else
      var n := |data| - 1;
      KeptIndices(data[..n]) + (if ValidSample(data[n]) then [n] else [])
  }

  /** The filter is stable: its result is exactly the valid samples, taken at
      their increasing positions in the input. */
  lemma {:induction false} FilterIsStable(data: seq<Sample>)
    ensures |FilterValid(data)| == |KeptIndices(data)|
    ensures forall j :: 0 <= j < |KeptIndices(data)| ==>
              FilterValid(data)[j] == data[KeptIndices(data)[j]]
  {
    if data != [] {
      var n := |data| - 1;
      var prefix := data[..n];
      FilterIsStable(prefix);
      var f, k := FilterValid(prefix), KeptIndices(prefix);
      var tail := if ValidSample(data[n]) then [data[n]] else [];
      var tailIdx := if ValidSample(data[n]) then [n] else [];
      assert FilterValid(data) == f + tail;
      assert KeptIndices(data) == k + tailIdx;
      forall j | 0 <= j < |k + tailIdx|
        ensures (f + tail)[j] == data[(k + tailIdx)[j]]
      {
        if j < |k| {
          assert (f + tail)[j] == f[j] == prefix[k[j]];
        }
      }
    }
  }

  /** A sample with a malformed feature (such as a field reading "abc") is dropped,
      and the samples before and after it are filtered as if it were absent. */
  lemma {:induction false} InvalidSampleIsDropped(before: seq<Sample>, bad: Sample, after: seq<Sample>)
    requires !ValidSample(bad)
    ensures FilterValid(before + [bad] + after) == FilterValid(before + after)
  {
    FilterAppend(before + [bad], after);
    FilterAppend(before, [bad]);
    FilterAppend(before, after);
    assert FilterValid([bad]) == [];
  }

  /** Filtering two parts and concatenating the results filters the whole:
      whether a sample is kept depends on that sample alone. */
  lemma {:induction false} FilterAppend(front: seq<Sample>, back: seq<Sample>)
    ensures FilterValid(front + back) == FilterValid(front) + FilterValid(back)
  {
    if back == [] {
      assert front + back == front;
    } else {
      var n := |back| - 1;
      var whole := front + back;
      FilterAppend(front, back[..n]);
      assert whole[..|whole| - 1] == front + back[..n];
      assert whole[|whole| - 1] == back[n];
      var ff, fb := FilterValid(front), FilterValid(back[..n]);
      var tail := if ValidSample(back[n]) then [back[n]] else [];
      assert FilterValid(whole) == (ff + fb) + tail;
      assert FilterValid(back) == fb + tail;
      ConcatAssociative(ff, fb, tail);
    }
  }

  lemma ConcatAssociative<T>(a: seq<T>, b: seq<T>, c: seq<T>)
    ensures (a + b) + c == a + (b + c)
  {
  }

  /** When every sample is well formed the filter keeps all of them. */
  lemma {:induction false} FilterKeepsValidInput(data: seq<Sample>)
    requires forall i :: 0 <= i < |data| ==> ValidSample(data[i])
    ensures FilterValid(data) == data
  {
    if data != [] {
      var n := |data| - 1;
      FilterKeepsValidInput(data[..n]);
      assert data[..n] + [data[n]] == data;
    }
  }

  /** The label is never inspected: replacing it does not change validity. */
  lemma LabelIsNotValidated(s: Sample, newLabel: JsNumber)
    ensures ValidSample(s.(usaqi := newLabel)) == ValidSample(s)
  {
  }

  /** The parsed features of a valid sample, as `preprocessData` builds its rows. */
  function FeatureRow(s: Sample): (row: seq<real>)
    requires ValidSample(s)
    ensures |row| == FeatureCount
    ensures forall j :: 0 <= j < FeatureCount ==> Features(s)[j] == Finite(row[j])
  {
    var fs := Features(s);
    seq(FeatureCount, j requires 0 <= j < FeatureCount => fs[j].value)
  }
}
