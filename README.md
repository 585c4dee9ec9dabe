# Air-quality forecast generator: a Dafny model

This project models the core of `index.js`, a script that fetches historical
air-quality samples, trains a regressor for the US AQI, and writes a sequence of
hourly forecast rows into the `mayo_predi` table. The model covers the four pieces
of logic that are not glue around TensorFlow.js, `fetch` or Postgres:

- **Sample validation** (`Samples`). This is the `data.filter` callback. A raw
  sample is kept when each of its eight feature fields (`featureNames`) parses to a
  finite number. What `parseFloat` yields for a field is the datatype `JsNumber`
  (`Finite`, `NaN` or `Infinity`). The filter is stable. The label `usaqi` is never
  checked. The `todate` branch of the callback is dead code: `"todate"` is not one
  of the feature names.
- **Scaling** (`Normalization`). This covers per-column bounds (`xsTensor.min(0)`
  and `max(0)`), `(x - min) / (max - min)`, and the inverse
  `x * (max - min) + min` used when a row is stored. All of it is over `real`.
- **Chronological split** (`TrainTestSplit`). The first `floor(0.8 n)` rows train
  and the remaining rows test, with no shuffling. `floor(0.8 n)` is taken as
  `(4 n) / 5`. This module also has `tensor.data()` row-major flattening and
  the clamping `TypedArray.prototype.slice` applied to the `Float32Array` that
  `data()` returns.
- **The forecast loop** (`Calendar`, `Scheduler`), the `while` loop of `main`.
  - A cursor (day, hour) is seeded from the last stored timestamp. With none, it
    starts at 2024-05-01, hour 0, taking that date's day in UTC.
  - The loop runs while fewer than 168 iterations have run and the cursor's day is
    not a Sunday.
  - Iteration `i` reads feature row `i` (flat positions `[8i, 8i+8)`) and
    prediction `i`.
  - It submits a record only when the rounded AQI is a number greater than 0. The
    record is stamped with the cursor's day and hour, with minutes, seconds and
    milliseconds zeroed.
  - A failed insert is swallowed.
  - Every iteration advances the hour, rolls over to the next day at 24, and
    increments the counter.
  - Days are numbered from 1970-01-01, so `getDay()` is `(day + 4) % 7`.
  - Predictions are AQI values in hundredths, as `toFixed(2)` rounds them. `None`
    stands for `NaN`.
  - The database table is the class `ForecastStore`. Its ghost `rows` are
    append-only, and whether an `Insert` succeeds is nondeterministic. Its ghost
    `attempts` log every record handed to `pool.query`, whatever the outcome.
  - `Pipeline` composes these steps as `main` does.

What the proofs show, beyond each operation's own contract:

- When there are at least `IterationCount(seed)` predictions, the loop runs exactly
  that many iterations. That is the number of hours until the next Sunday begins,
  and 0 when the seed day is a Sunday. It is at most 144, so the 168 limit can never
  stop the loop.
- `Pipeline.ForecastMain` takes one prediction per test row, as
  `model.predict(xsTest)` returns them; this is a precondition, not a proved
  fact. So from the default seed (96 iterations) the run needs
  n - floor(0.8 n) >= 96, that is at least 476 validated samples. With fewer, it
  ends with the `TypeError` described below.
- Submitted records correspond one-to-one, in order, to the iterations whose
  prediction is accepted. Their timestamps are strictly increasing and hourly, and
  none falls on a Sunday.
- Every accepted record is handed to the store's `Insert`, in order, each exactly
  once. This holds even after an earlier insert failed. Insert outcomes affect only
  the table, never the cursor, the counter or which records are handed over.
- The loop reads a prediction before its `try`. When there are fewer predictions
  than iterations, it stops with the `TypeError` that `undefined.toFixed` raises.
  The model returns this as `PredictionMissing`.
- The features stored with forecast `i` are exactly the features of the `i`-th
  held-out historical sample. The scaling round trip is exact over the reals.
- A resumed run starts at the hour of the last stored record. So when its first
  prediction is accepted, that record gets the last record's timestamp again.
- The last iteration of a run that stops at a Sunday is at Saturday 23:00. A run
  resumed from Saturday 23:00 runs exactly one iteration.

What follows from the `MAX(todate)` query, which is not modelled, rather than from
the proofs: when the last iteration's record is accepted and stored, Saturday 23:00
becomes the last timestamp. Otherwise the last timestamp is the latest stamp stored
so far. That is Saturday 23:00 again if an earlier run stored it. So once one run
has stored a Saturday 23:00 row, every later run starts from there and runs one
iteration.

Three behaviours of the code worth noting:

- The code does not validate the label.
- The code has no policy for a constant column.
- The cursor advances once per iteration, emitted or not.

## Model

| member | source | states |
|---|---|---|
| Samples.IsFiniteNumber | index.js:87-88 | a parsed field passes exactly when it is neither NaN nor infinite |
| Samples.Features | index.js:66-75 | the eight feature fields, in `featureNames` order; the label is not among them |
| Samples.AllFinite | index.js:79-94 | the loop returns true exactly when every field is a finite number, neither NaN nor infinite; the `data.filter` callback (`ValidSample`, index.js:78-95) is `AllFinite` of the eight feature fields |
| Samples.FilterValid | index.js:78-95 | every kept sample is valid and no more samples come out than went in |
| Samples.KeptIndices | index.js:78-95 | the kept positions are increasing, in range, and a position is kept iff its sample is valid |
| Samples.FilterIsStable | index.js:78-95 | the filter's output is the input at the kept positions, in order: a stable filter keeping exactly the valid samples |
| Samples.InvalidSampleIsDropped | index.js:86-91 | a sample with a malformed feature is dropped and the rest is filtered as if it were absent |
| Samples.FilterAppend | index.js:78-95 | filtering a concatenation is concatenating the filtered parts: whether a sample is kept depends on that sample alone |
| Samples.FilterKeepsValidInput | index.js:78-95 | an input of valid samples passes unchanged |
| Samples.LabelIsNotValidated | index.js:66-75 | replacing `usaqi` never changes whether a sample is kept |
| Samples.FeatureRow | index.js:6-15 | the parsed row has eight values, one per feature field |
| Normalization.MinOf | index.js:23 | the result is an element of the column and no element is smaller |
| Normalization.MaxOf | index.js:24 | the result is an element of the column and no element is larger |
| Normalization.Column | index.js:23-24 | column j holds entry j of every row |
| Normalization.ColumnBounds | index.js:23-24 | every entry lies between its column's bounds, and both bounds occur in the column |
| Normalization.Normalize | index.js:25 | for max > min: a value in [min, max] maps into [0, 1], min maps to 0, max to 1, and denormalizing gives the value back |
| Normalization.Denormalize | index.js:166-170 | a value in [0, 1] maps into [min, max], 0 maps to min and 1 to max |
| Normalization.DenormalizeThenNormalize | index.js:166-170 | normalizing a denormalized value gives it back |
| Normalization.NormalizeRow | index.js:25 | a scaled row has eight values and denormalizes back to the original row |
| Normalization.DenormalizeRow | index.js:166-170 | entry j is scaled back with column j's bounds |
| Normalization.NormalizeMatrix | index.js:25 | the scaled matrix has one scaled row per input row |
| Normalization.NormalizedIsUnit | index.js:23-25 | with the matrix's own bounds every scaled value is in [0, 1], and each column contains 0 and 1 |
| Normalization.MatrixRoundTrip | index.js:166-170 | every scaled row denormalizes back to its input row |
| TrainTestSplit.TrainCount | index.js:102 | k satisfies 5k <= 4n < 5k + 5, that is k = floor(0.8 n), and k <= n |
| TrainTestSplit.Slice | index.js:103-112 | `size` rows starting at `begin`, in order |
| TrainTestSplit.Split | index.js:102-112 | k training rows that are the first k input rows, and n - k test rows that are the input rows from k on |
| TrainTestSplit.SplitCoversRows | index.js:102-112 | training rows followed by test rows are exactly the input |
| TrainTestSplit.JsSlice | index.js:153-156 | at most b - a values, and exactly `s[a..b]` when that range exists |
| TrainTestSplit.Flatten | index.js:126 | every value of every row appears in the flat array; `FlattenRow` fixes where |
| TrainTestSplit.FlattenRow | index.js:153-156 | in a flattened matrix of eight-value rows, positions [8 i, 8 i + 8) hold row i |
| TrainTestSplit.FlatTestRow | index.js:105-108 | row i of the flattened test part is input row k + i |
| TrainTestSplit.FlattenLength | index.js:126 | a flattened matrix of eight-value rows has eight times as many values as rows |
| Calendar.Weekday | index.js:151 | the weekday is in 0..6 |
| Calendar.Advance | index.js:201-205 | the absolute hour grows by exactly one; the day changes iff the hour was 23, and then the hour becomes 0 |
| Calendar.CursorAfter | index.js:201-205 | after i advances the absolute hour is the seed's plus i |
| Calendar.CursorAfterClosedForm | index.js:201-205 | after i advances from (d, h) the cursor is (d + (h + i) / 24, (h + i) % 24) |
| Calendar.WeekdayShift | index.js:204 | the weekday of d + k is the weekday of d plus k, modulo 7 |
| Calendar.StampAt | index.js:162-163 | minutes, seconds and milliseconds are zero and the time value is the cursor's hour in milliseconds |
| Scheduler.SeedCursor | index.js:130-142 | the last timestamp's day and hour, or 2024-05-01 at hour 0 when there is none |
| Scheduler.IterationCount | index.js:144-152 | the count is at most 144, below the 168 limit, and 0 iff the seed day is a Sunday |
| Scheduler.LoopGuard | index.js:149-152 | when the condition holds, fewer than 168 iterations have run and the cursor's day is Monday to Saturday |
| Scheduler.GuardHoldsBefore | index.js:149-152 | the loop condition holds at every iteration before the count |
| Scheduler.GuardFailsAtCount | index.js:149-152 | the loop condition fails once the count is reached |
| Scheduler.GuardExact | index.js:149-152 | up to the count, the loop condition holds at iteration g exactly when g is below the count |
| Scheduler.Accepted | index.js:160 | a NaN prediction is rejected, and a prediction is accepted iff it is at least 0.01 (1 hundredth) |
| Scheduler.InputFeatures | index.js:153-156 | the slice read by an iteration has at most eight values |
| Scheduler.RecordAt | index.js:157-176 | an accepted iteration's record carries its positive AQI, its denormalized feature row and the cursor's stamp at that iteration |
| Scheduler.Submissions | index.js:149-207 | n iterations submit at most n records |
| Scheduler.AcceptedIterations | index.js:160 | the accepted iterations are increasing and below n, and an iteration is among them iff its AQI is a number greater than 0 |
| Scheduler.SubmissionsFollowAcceptedIterations | index.js:153-206 | the j-th submitted record is the record of the j-th accepted iteration; rejected iterations submit nothing |
| Scheduler.StampsIncrease | index.js:162-205 | submitted timestamps are strictly increasing, at least an hour apart, with zeroed minutes, seconds and milliseconds |
| Scheduler.NoStampOnSunday | index.js:149-163 | no submitted record within the loop's iterations is stamped on a Sunday |
| Scheduler.Persisted | index.js:173-182 | only submitted records reach the table, never more of them than were submitted; `PersistedAtStoredPositions` gives which ones |
| Scheduler.StoredPositions | index.js:173-182 | the successful positions are increasing and in range, and a position is among them iff its insert succeeded |
| Scheduler.PersistedAtStoredPositions | index.js:173-182 | the table gains exactly the records at the successful positions, in submission order |
| Scheduler.PersistedAllOrNone | index.js:173-182 | when every insert succeeds all submitted records are stored; when none does, none is |
| Scheduler.ForecastStore.Insert | index.js:173-182 | the record is logged as attempted on either outcome; a successful insert appends it to the table, and a failed one leaves the table unchanged |
| Scheduler.SubmitIteration | index.js:153-199 | the iteration submits one record iff prediction g is accepted, and the submitted records become those of g + 1 iterations; earlier insert outcomes are kept; exactly the submitted record, if any, is handed to `Insert`; the table gains that record iff its insert succeeds, and otherwise stays as it was |
| Scheduler.RunForecast | index.js:144-207 | the loop runs `IterationCount(seed)` iterations, or stops at the first missing prediction; it ends at the cursor advanced once per iteration; it submits exactly the accepted iterations' records, and those are exactly the records handed to `Insert`, in order; the table gains the submitted records whose insert succeeded, independently of the cursor and the counter |
| Scheduler.DefaultSeedRunsFourDays | index.js:131-152 | from 2024-05-01 (a Wednesday), hour 0, the loop runs 96 iterations, four days of hours |
| Scheduler.ResumeRepeatsLastStamp | index.js:130-163 | when the first prediction of a resumed run is accepted, its record is stamped with the last stored timestamp |
| Scheduler.LastIterationIsSaturdayNight | index.js:149-205 | the last iteration of a run that ends at a Sunday is on a Saturday at hour 23 |
| Scheduler.ResumeFromSaturdayNight | index.js:134-152 | resuming from Saturday 23:00, the stamp of a stored last iteration, runs exactly one iteration |
| Pipeline.FeatureMatrix | index.js:6-15 | one parsed row of eight values per validated sample |
| Pipeline.Preprocess | index.js:4-28 | the bounds are the per-column minimum and maximum of the features; scaled features lie in [0, 1] and each scaled column reaches 0 and 1; each scaled row denormalizes to its sample's features; the labels are the samples' `usaqi` fields |
| Pipeline.TestInputValues | index.js:126 | the flat test array holds eight values per held-out row |
| Pipeline.StoredFeaturesAreHeldOutSamples | index.js:100-170 | the features stored with forecast i are the features of validated sample floor(0.8 n) + i |
| Pipeline.ForecastMain | index.js:60-210 | given one prediction per test row, the submitted records are those of the loop over the scaled, flattened test rows with the seeded cursor; they are exactly the records handed to `Insert`, and the table gains the ones whose insert succeeded |

## Left out

- The model's training, evaluation and prediction (`createModel`, `trainModel`, `model.evaluate`, `model.predict`) are foreign TensorFlow.js calls over floating point. The predictions are an input sequence.
- Fetching the samples over HTTP is network I/O. The raw samples are an input.
- The `SELECT MAX(todate)` query of `getLastRecord` is left out, including its error path that returns `null`. The last timestamp is an `Option` input. `pool.end()` and connection lifetime are not modelled.
- `console.log`, `console.warn`, `console.error` and the `outputLine` formatting are side effects only.
- Real `Date` semantics (time zones, local versus UTC `getDay` and `getHours`, month lengths, date-string parsing) are abstracted as an epoch day number and an hour. The seed keeps only the last timestamp's day and hour.
- IEEE-754 details are left out: `toFixed(2)` rounding, the exactness of `0.8 * n`, string-to-number coercion in `usaqi > 0`, and infinite predictions (`"Infinity" > 0` would pass the check). Predictions are integers in hundredths, and features are reals.
- Normalization.NormalizeMatrix: a constant column (max equal to min) divides 0 by 0 and gives NaN. The model excludes that case with a precondition rather than inventing a policy.
- Pipeline.Preprocess: requires at least one validated sample. The source builds a tensor from an empty array there and fails.
- The label vector is passed through but not used. It feeds only the training that is left out.
- Sequencing of `async`/`await` is not modelled. The loop is strictly sequential, so it is a plain loop.
