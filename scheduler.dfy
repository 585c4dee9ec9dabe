/**
 The forecast loop of `main` in index.js: walk through the predictions for the
 test rows in order, stamp each accepted one with the cursor's day and hour, hand
 it to the store, and advance the cursor by one hour per iteration until 168
 iterations have run or the cursor's day is a Sunday.
 */
module Scheduler {
  import opened Wrappers
  import opened Samples
  import opened Normalization
  import opened TrainTestSplit
  import opened Calendar

  /** `predictionsToGenerate`: one week of hourly forecasts. */
  const PredictionsToGenerate := 168

  /** One row of the forecast table: the AQI in hundredths as `toFixed(2)` gives
      it, the eight denormalized features and `todate`. */
  datatype Record = Record(usaqi: int, features: seq<real>, todate: Timestamp)

  /** How the loop ended: at its guard, or by the `TypeError` that reading a
      missing prediction raises outside the `try`. */
  datatype LoopExit = Stopped | PredictionMissing(index: nat)

  /** The cursor seeded from the last persisted timestamp (its day and its
      `getHours()`), or 2024-05-01 at hour 0 when the store reports none. */
  function SeedCursor(last: Option<Timestamp>): (c: Cursor)
    ensures last.Some? ==> c == Cursor(last.value.day, last.value.hour)
    ensures last.None? ==> c == Cursor(DefaultSeedDay, 0)
  {
    match last
    case Some(t) => Cursor(t.day, t.hour)
    case None => Cursor(DefaultSeedDay, 0)
  }

  /** The condition of the `while`: fewer than 168 iterations so far and the
      cursor's day, Monday (1) to Saturday (6), is not a Sunday. */
  predicate LoopGuard(generated: nat, c: Cursor): (holds: bool)
    ensures holds ==> generated < PredictionsToGenerate && 1 <= Weekday(c.day) <= 6
  {
    generated < PredictionsToGenerate && Weekday(c.day) != Sunday
  }

  /** The number of iterations the loop runs from `seed`: the hours left until
      the next Sunday begins, none when the seed day is already a Sunday. It never
      reaches 168, so the count limit never stops the loop. */
  function IterationCount(seed: Cursor): (n: nat)
    ensures n <= 6 * HoursPerDay < PredictionsToGenerate
    ensures n == 0 <==> Weekday(seed.day) == Sunday
  {
    var w := Weekday(seed.day);
    if w == Sunday then 0 else (7 - w) * HoursPerDay - seed.hour
  }

  /** Before `IterationCount(seed)` iterations the guard holds. */
  lemma GuardHoldsBefore(seed: Cursor, i: nat)
    requires i < IterationCount(seed)
    ensures LoopGuard(i, CursorAfter(seed, i))
  {
    CursorAfterClosedForm(seed, i);
    HoursBeforeSunday(seed.day, seed.hour + i);
  }

  /** Fewer hours than remain until Sunday, counted from the start of a weekday,
      end on a day that is not a Sunday. */
  lemma HoursBeforeSunday(day: int, x: nat)
    requires Weekday(day) != Sunday && x < (7 - Weekday(day)) * HoursPerDay
    ensures Weekday(day + x / HoursPerDay) != Sunday
  {
    var k := x / HoursPerDay;
    assert k < 7 - Weekday(day);
    WeekdayShift(day, k);
  }

  /** After `IterationCount(seed)` iterations the guard fails. */
  lemma GuardFailsAtCount(seed: Cursor)
    ensures !LoopGuard(IterationCount(seed), CursorAfter(seed, IterationCount(seed)))
  {
    var n := IterationCount(seed);
    var w := Weekday(seed.day);
    if w != Sunday {
      CursorAfterClosedForm(seed, n);
      assert seed.hour + n == (7 - w) * HoursPerDay;
      WeekdayShift(seed.day, 7 - w);
    }
  }

  /** Within the loop's iterations, the guard holds exactly before the count. */
  lemma GuardExact(seed: Cursor, g: nat)
    requires g <= IterationCount(seed)
    ensures LoopGuard(g, CursorAfter(seed, g)) <==> g < IterationCount(seed)
  {
    if g < IterationCount(seed) {
      GuardHoldsBefore(seed, g);
    } else {
      GuardFailsAtCount(seed);
    }
  }

  /** Line 160: `!isNaN(usaqi) && usaqi > 0` on the rounded prediction. */
  predicate Accepted(usaqi: Option<int>): (ok: bool)
    ensures usaqi.None? ==> !ok
    ensures ok <==> usaqi.Some? && usaqi.value >= 1
  {
    usaqi.Some? && usaqi.value > 0
  }

  /** The features of iteration i: `inputValues.slice(8 * i, 8 * i + 8)`. */
  function InputFeatures(inputValues: seq<real>, i: nat): (row: seq<real>)
    ensures |row| <= FeatureCount
  {
    JsSlice(inputValues, FeatureCount * i, FeatureCount * i + FeatureCount)
  }

  /** The record iteration i submits when its prediction is accepted. */
  function RecordAt(seed: Cursor, inputValues: seq<real>, predictions: seq<Option<int>>, b: Bounds, i: nat): (r: Record)
    requires i < |predictions| && Accepted(predictions[i]) && b.WellFormed()
    ensures r.usaqi == predictions[i].value > 0
    ensures r.todate == StampAt(CursorAfter(seed, i))
    ensures r.features == DenormalizeRow(InputFeatures(inputValues, i), b)
  {
    Record(predictions[i].value, DenormalizeRow(InputFeatures(inputValues, i), b), StampAt(CursorAfter(seed, i)))
  }

  /** The records handed to the store by the first n iterations. */
  function Submissions(seed: Cursor, inputValues: seq<real>, predictions: seq<Option<int>>, b: Bounds, n: nat): (recs: seq<Record>)
    requires n <= |predictions| && b.WellFormed()
    ensures |recs| <= n
  {
    if n == 0 then []
    else
      Submissions(seed, inputValues, predictions, b, n - 1) +
      (if Accepted(predictions[n - 1]) then [RecordAt(seed, inputValues, predictions, b, n - 1)] else [])
  }

  /** The iterations among the first n whose prediction is accepted, in order. */
  function AcceptedIterations(predictions: seq<Option<int>>, n: nat): (idx: seq<nat>)
    requires n <= |predictions|
    ensures forall j :: 0 <= j < |idx| ==> idx[j] < n
    ensures forall j, k :: 0 <= j < k < |idx| ==> idx[j] < idx[k]
    ensures forall i :: 0 <= i < n ==> (i in idx <==> Accepted(predictions[i]))
  {
    if n == 0 then []
    else AcceptedIterations(predictions, n - 1) + (if Accepted(predictions[n - 1]) then [n - 1] else [])
  }

  /** The j-th submitted record is the record of the j-th accepted iteration:
      iteration i uses feature row i and prediction i, a record is submitted
      exactly for the iterations whose prediction is accepted, and a rejected
      iteration submits nothing. */
  lemma {:induction false} SubmissionsFollowAcceptedIterations(
    seed: Cursor, inputValues: seq<real>, predictions: seq<Option<int>>, b: Bounds, n: nat)
    requires n <= |predictions| && b.WellFormed()
    ensures |Submissions(seed, inputValues, predictions, b, n)| == |AcceptedIterations(predictions, n)|
    ensures forall j :: 0 <= j < |AcceptedIterations(predictions, n)| ==>
              var i := AcceptedIterations(predictions, n)[j];
              i < |predictions| && Accepted(predictions[i]) &&
              Submissions(seed, inputValues, predictions, b, n)[j] == RecordAt(seed, inputValues, predictions, b, i)
  {
    if n > 0 {
      var m := n - 1;
      SubmissionsFollowAcceptedIterations(seed, inputValues, predictions, b, m);
      var prev := Submissions(seed, inputValues, predictions, b, m);
      var idx := AcceptedIterations(predictions, m);
      var recs := Submissions(seed, inputValues, predictions, b, n);
      var acc := AcceptedIterations(predictions, n);
      if Accepted(predictions[m]) {
        assert recs == prev + [RecordAt(seed, inputValues, predictions, b, m)];
        assert acc == idx + [m];
        forall j | 0 <= j < |acc|
          ensures acc[j] < |predictions| && Accepted(predictions[acc[j]])
          ensures recs[j] == RecordAt(seed, inputValues, predictions, b, acc[j])
        {
          if j < |idx| {
            assert recs[j] == prev[j] && acc[j] == idx[j];
          }
        }
      } else {
        assert recs == prev && acc == idx;
      }
    }
  }

  /** The timestamps of the submitted records are strictly increasing, one hour
      apart at the least, each with minutes, seconds and milliseconds zeroed. */
  lemma StampsIncrease(seed: Cursor, inputValues: seq<real>, predictions: seq<Option<int>>, b: Bounds, n: nat)
    requires n <= |predictions| && b.WellFormed()
    ensures var recs := Submissions(seed, inputValues, predictions, b, n);
      forall j, k :: 0 <= j < k < |recs| ==>
        TimeValue(recs[j].todate) + 3600000 <= TimeValue(recs[k].todate)
    ensures var recs := Submissions(seed, inputValues, predictions, b, n);
      forall j :: 0 <= j < |recs| ==>
        recs[j].todate.minute == 0 && recs[j].todate.second == 0 && recs[j].todate.millisecond == 0
  {
    SubmissionsFollowAcceptedIterations(seed, inputValues, predictions, b, n);
  }

  /** No record is stamped on a Sunday. */
  lemma NoStampOnSunday(seed: Cursor, inputValues: seq<real>, predictions: seq<Option<int>>, b: Bounds, n: nat)
    requires n <= |predictions| && n <= IterationCount(seed) && b.WellFormed()
    ensures var recs := Submissions(seed, inputValues, predictions, b, n);
      forall j :: 0 <= j < |recs| ==> Weekday(recs[j].todate.day) != Sunday
  {
    SubmissionsFollowAcceptedIterations(seed, inputValues, predictions, b, n);
    var recs := Submissions(seed, inputValues, predictions, b, n);
    var idx := AcceptedIterations(predictions, n);
    forall j | 0 <= j < |recs|
      ensures Weekday(recs[j].todate.day) != Sunday
    {
      GuardHoldsBefore(seed, idx[j]);
    }
  }

  /** The records that reach the table: those whose insert reported success. */
  function Persisted(recs: seq<Record>, ok: seq<bool>): (rows: seq<Record>)
    requires |recs| == |ok|
    ensures |rows| <= |recs|
    ensures forall r :: r in rows ==> r in recs
  {
    if recs == [] then []
    else
      var n := |recs| - 1;
      Persisted(recs[..n], ok[..n]) + (if ok[n] then [recs[n]] else [])
  }

  /** The positions whose insert reported success, in increasing order. */
  function StoredPositions(ok: seq<bool>): (idx: seq<nat>)
    ensures forall j :: 0 <= j < |idx| ==> idx[j] < |ok|
    ensures forall j, k :: 0 <= j < k < |idx| ==> idx[j] < idx[k]
    ensures forall i :: 0 <= i < |ok| ==> (i in idx <==> ok[i])
  {
    if ok == [] then []
    else
      var n := |ok| - 1;
      StoredPositions(ok[..n]) + (if ok[n] then [n] else [])
  }

  /** The table gains exactly the records at the successful positions, in
      submission order. */
  lemma {:induction false} PersistedAtStoredPositions(recs: seq<Record>, ok: seq<bool>)
    requires |recs| == |ok|
    ensures |Persisted(recs, ok)| == |StoredPositions(ok)|
    ensures forall j :: 0 <= j < |StoredPositions(ok)| ==>
              Persisted(recs, ok)[j] == recs[StoredPositions(ok)[j]]
  {
    if recs != [] {
      var n := |recs| - 1;
      PersistedAtStoredPositions(recs[..n], ok[..n]);
      var prev := Persisted(recs[..n], ok[..n]);
      var idx := StoredPositions(ok[..n]);
      var rows := Persisted(recs, ok);
      var pos := StoredPositions(ok);
      if ok[n] {
        assert rows == prev + [recs[n]];
        assert pos == idx + [n];
        forall j | 0 <= j < |pos|
          ensures rows[j] == recs[pos[j]]
        {
          if j < |idx| {
            assert rows[j] == prev[j] && pos[j] == idx[j];
          }
        }
      } else {
        assert rows == prev && pos == idx;
      }
    }
  }

  /** When every insert succeeds the table gains every submitted record; when
      none does it gains nothing. */
  lemma {:induction false} PersistedAllOrNone(recs: seq<Record>, ok: seq<bool>)
    requires |recs| == |ok|
    ensures (forall i :: 0 <= i < |ok| ==> ok[i]) ==> Persisted(recs, ok) == recs
    ensures (forall i :: 0 <= i < |ok| ==> !ok[i]) ==> Persisted(recs, ok) == []
  {
    if recs != [] {
      var n := |recs| - 1;
      PersistedAllOrNone(recs[..n], ok[..n]);
      assert recs[..n] + [recs[n]] == recs;
    }
  }

  lemma PersistedAppend(recs: seq<Record>, ok: seq<bool>, rec: Record, stored: bool)
    requires |recs| == |ok|
    ensures Persisted(recs + [rec], ok + [stored]) == Persisted(recs, ok) + (if stored then [rec] else [])
  {
  }

  /** The `mayo_predi` table as the loop sees it. Whether an insert succeeds is
      up to the database; a failed insert changes nothing. */
  class ForecastStore {
    ghost var rows: seq<Record>
    /** Every record handed to `pool.query`, whether or not the insert succeeded. */
    ghost var attempts: seq<Record>

    constructor (existing: seq<Record>)
      ensures rows == existing && attempts == []
    {
      rows := existing;
      attempts := [];
    }

    /** `pool.query("INSERT ...")`; `ok` is false when it throws or when its
        `rowCount` is not 1. */
    method Insert(rec: Record) returns (ok: bool)
      modifies this
      ensures attempts == old(attempts) + [rec]
      ensures rows == if ok then old(rows) + [rec] else old(rows)
    {
      attempts := attempts + [rec];
      ok := *;
      if ok {
        rows := rows + [rec];
      }
    }
  }

  /** One iteration's `try` block, lines 159-199: when prediction `g` is
      accepted, stamp it with the cursor, denormalize feature row `g` and hand the
      record to the store. */
  method SubmitIteration(seed: Cursor, inputValues: seq<real>, predictions: seq<Option<int>>, b: Bounds,
                         store: ForecastStore, g: nat, cursor: Cursor,
                         submitted: seq<Record>, ghost inserted: seq<bool>,
                         ghost base: seq<Record>, ghost tried: seq<Record>)
    returns (submitted': seq<Record>, ghost inserted': seq<bool>)
    requires b.WellFormed() && g < |predictions| && cursor == CursorAfter(seed, g)
    requires submitted == Submissions(seed, inputValues, predictions, b, g)
    requires |inserted| == |submitted| && store.rows == base + Persisted(submitted, inserted)
    requires store.attempts == tried + submitted
    modifies store
    ensures submitted' == Submissions(seed, inputValues, predictions, b, g + 1)
    ensures |submitted'| == |submitted| + (if Accepted(predictions[g]) then 1 else 0)
    ensures |inserted'| == |submitted'| && inserted'[..|inserted|] == inserted
    ensures store.rows == old(store.rows) +
      (if |submitted'| > |submitted| && inserted'[|inserted|] then [submitted'[|submitted|]] else [])
    ensures store.rows == base + Persisted(submitted', inserted')
    ensures store.attempts == old(store.attempts) + submitted'[|submitted|..]
    ensures store.attempts == tried + submitted'
  {
    submitted', inserted' := submitted, inserted;
    var inputFeatures := InputFeatures(inputValues, g);
    var usaqi := predictions[g];
    if Accepted(usaqi) {
      var todate := StampAt(cursor);
      var features := DenormalizeRow(inputFeatures, b);
      var rec := Record(usaqi.value, features, todate);
      var ok := store.Insert(rec);
      PersistedAppend(submitted, inserted, rec, ok);
      assert (submitted + [rec])[|submitted|..] == [rec];
      submitted' := submitted + [rec];
      inserted' := inserted + [ok];
    }
  }

  /** The `while` loop of `main`, lines 144-207. */
  method RunForecast(seed: Cursor, inputValues: seq<real>, predictions: seq<Option<int>>, b: Bounds, store: ForecastStore)
    returns (submitted: seq<Record>, generated: nat, final: Cursor, exit: LoopExit, ghost inserted: seq<bool>)
    requires b.WellFormed()
    modifies store
    ensures exit == if |predictions| < IterationCount(seed) then PredictionMissing(|predictions|) else Stopped
    ensures generated == if exit.Stopped? then IterationCount(seed) else |predictions|
    ensures final == CursorAfter(seed, generated)
    ensures submitted == Submissions(seed, inputValues, predictions, b, generated)
    ensures |inserted| == |submitted|
    ensures store.rows == old(store.rows) + Persisted(submitted, inserted)
    ensures store.attempts == old(store.attempts) + submitted
  {
    ghost var base := store.rows;
    ghost var tried := store.attempts;
    var currentDay: int := seed.day;
    var currentHour: int := seed.hour;
    generated := 0;
    submitted := [];
    inserted := [];
    exit := Stopped;
    while LoopGuard(generated, Cursor(currentDay, currentHour))
      invariant generated <= IterationCount(seed) && generated <= |predictions|
      invariant 0 <= currentHour < HoursPerDay
      invariant Cursor(currentDay, currentHour) == CursorAfter(seed, generated)
      invariant submitted == Submissions(seed, inputValues, predictions, b, generated)
      invariant |inserted| == |submitted| && store.rows == base + Persisted(submitted, inserted)
      invariant store.attempts == tried + submitted
      invariant exit == Stopped
      decreases PredictionsToGenerate - generated
    {
      GuardExact(seed, generated);
      if generated >= |predictions| {
        // `predictionValues[predictionsGenerated].toFixed(2)` throws outside the `try`
        exit := PredictionMissing(generated);
        break;
      }
      submitted, inserted := SubmitIteration(seed, inputValues, predictions, b, store, generated,
                                             Cursor(currentDay, currentHour), submitted, inserted, base, tried);
      assert CursorAfter(seed, generated + 1) == Advance(CursorAfter(seed, generated));
      currentHour := currentHour + 1;
      if currentHour == HoursPerDay {
        currentHour := 0;
        currentDay := currentDay + 1;
      }
      generated := generated + 1;
    }
    if exit.Stopped? {
      GuardExact(seed, generated);
    }
    final := Cursor(currentDay, currentHour);
  }

  /** From the default seed, 2024-05-01 at hour 0, a Wednesday, the loop runs
      for the four days up to Sunday: 96 iterations. This takes the day of
      `new Date("2024-05-01")` in UTC; west of UTC its local day is Tuesday
      2024-04-30, and the source then runs 120 iterations. */
  lemma DefaultSeedRunsFourDays()
    ensures Weekday(DefaultSeedDay) == 3
    ensures IterationCount(SeedCursor(None)) == 4 * HoursPerDay
  {
  }

  /** A resumed run starts at the hour of the last persisted record, so when
      the first prediction is accepted its record repeats that timestamp. */
  lemma ResumeRepeatsLastStamp(last: Timestamp, inputValues: seq<real>, predictions: seq<Option<int>>, b: Bounds)
    requires last.minute == 0 && last.second == 0 && last.millisecond == 0
    requires Weekday(last.day) != Sunday
    requires |predictions| > 0 && Accepted(predictions[0]) && b.WellFormed()
    ensures IterationCount(SeedCursor(Some(last))) > 0
    ensures Submissions(SeedCursor(Some(last)), inputValues, predictions, b, 1)[0].todate == last
  {
  }

  /** The last iteration of a run that ends at a Sunday is at Saturday 23:00. */
  lemma LastIterationIsSaturdayNight(seed: Cursor)
    requires IterationCount(seed) > 0
    ensures Weekday(CursorAfter(seed, IterationCount(seed) - 1).day) == 6
    ensures CursorAfter(seed, IterationCount(seed) - 1).hour == HoursPerDay - 1
  {
    var n := IterationCount(seed);
    var w := Weekday(seed.day);
    CursorAfterClosedForm(seed, n - 1);
    LastHourOfDay(seed.hour + (n - 1), 6 - w);
    WeekdayShift(seed.day, 6 - w);
  }

  /** Hour 23 of day q, counted in hours from the start of day 0. */
  lemma LastHourOfDay(x: int, q: int)
    requires x == q * HoursPerDay + (HoursPerDay - 1)
    ensures x / HoursPerDay == q && x % HoursPerDay == HoursPerDay - 1
  {
  }

  /** When that last iteration's record was stored, the next run resumes from
      Saturday 23:00 and runs exactly one iteration. */
  lemma ResumeFromSaturdayNight(last: Timestamp)
    requires Weekday(last.day) == 6 && last.hour == HoursPerDay - 1
    ensures IterationCount(SeedCursor(Some(last))) == 1
  {
  }
}
