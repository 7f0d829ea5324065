# 5-minute candle aggregator — a Dafny model of the row loop

The program reads timestamped OHLCV rows (open, high, low, close, volume)
from Parquet files in batches. It keeps only the rows of one trading day,
2024-01-10 UTC, and folds them into two aggregates:

- a map from 5-minute bucket to OHLC candle;
- the day's high, low and close, from which Fibonacci pivot points are computed.

This project models that streaming aggregation as pure functions over
immutable data:

- `Market`: the `Data` row and the `Candle` record. Prices are integers
  because the aggregation only compares them.
- `RowFilter`: the zero-timestamp check and the UTC date check.
- `Buckets`: `Truncate(5 * time.Minute)` as integer arithmetic on
  nanoseconds. A bucket key is the bucket's first instant.
- `Aggregation`: the loop state, one loop iteration (`Step`) and the fold over
  a row sequence (`Fold`).
- `Reference`: a declarative description of the result and the theorems
  that the fold meets it.
- `Batches`: the `reader.Read` loop over a reused buffer, with EOF, other
  read errors, `n == 0` and the buffer bounds check.
- `Pivot`: the pivot-point formulas over exact reals.
- `Scenarios`: concrete runs at bucket boundaries, in different orders, and
  with a zero low.

Design points the model makes explicit:

- The date filter compares formatted dates `"2006-01-02"`. Each day has a
  distinct date string, so the model compares UTC day numbers:
  `ns / NanosPerDay == 19732`. `TargetDayIsJanuaryTenth` checks this constant
  with the days-from-civil formula. `Accepts` proves that the accepted
  instants are exactly `[1704844800·10^9, 1704931200·10^9)`.
- Go's `Truncate` rounds down relative to the zero Time, 0001-01-01, not the
  Unix epoch. `BucketKey` does the same. `ZeroTimeShift` shows that this
  offset is a whole number of buckets, so the result equals epoch-based
  truncation. The key format `"2006-01-02 15:04"` gives each aligned instant
  a distinct string, so a key is modelled as an integer.
- The candle map starts empty, and the daily high, low and close start at
  Go's zero value 0 (main.go:81-84). This is `Aggregation.Init`;
  `EmptyDayState` shows a run with no accepted row ends there.
- 0 doubles as the unset marker for the daily low (main.go:125). A genuine
  low of 0 is therefore replaced by the next accepted row's low. `DailyLow`,
  `DailyLowWithoutZero` and `ZeroLowReadsAsUnset` state the consequences.
- The daily high starts at 0, not at the first row's high (main.go:122). A
  day whose accepted highs are all negative reports a high of 0
  (`DailyHigh`).
- A `Read` that returns rows together with the `"EOF"` error has those rows
  discarded (main.go:88-93). `Run` does the same.
- Errors are classified by their message text, `err.Error() == "EOF"`
  (main.go:89). Any error whose text is `EOF` therefore ends the loop
  normally.

## Model

| member | source | states |
|---|---|---|
| RowFilter.TargetDayIsJanuaryTenth | main.go:116-117 | the fixed day number 19732 is the calendar date 2024-01-10; its neighbours are 2024-01-09 and 2024-01-11 |
| RowFilter.DayOfIff | main.go:110-117 | an instant's UTC date is the target day exactly when it lies in the half-open nanosecond range of that day |
| RowFilter.UtcDay | main.go:110 | the UTC day number of an instant is the day whose nanosecond range contains it, also before 1970 |
| RowFilter.Accepts | main.go:107-119 | a row is kept exactly when its timestamp is in [DayStart, DayEnd); a zero timestamp is never kept |
| Buckets.BucketKey | main.go:131 | the key is 5-minute aligned and its half-open 5-minute window contains the timestamp |
| Buckets.ZeroTimeShift | main.go:131 | truncating relative to Go's zero Time gives the same remainder as truncating relative to the Unix epoch |
| Buckets.KeyIff | main.go:131 | the key of `ns` is the unique aligned `k` with `k <= ns < k + 5min` (both directions) |
| Buckets.SameBucketIff | main.go:131 | two timestamps share a key exactly when they fall in the same half-open 5-minute window |
| Buckets.KeyInDay | main.go:117-131 | every accepted timestamp's key lies inside the target day |
| Buckets.DayKeysAtMost | main.go:117-131 | any set of aligned keys within the target day has at most 288 elements |
| Aggregation.Insert | main.go:134-146 | absent key: a candle with the row's open/high/low/close is added; present key: open kept, high is the max, low is the min, close is the row's; no other key changes; key set grows by exactly that key |
| Aggregation.Step | main.go:107-146 | a rejected row changes nothing; an accepted row inserts into its bucket; the daily high becomes the max of old high and row high; a zero daily low is always replaced; a non-zero one becomes the min; the close is overwritten |
| Aggregation.Fold | main.go:105-147 | folding never removes a key |
| Aggregation.FoldKeysInDay | main.go:117-135 | folding from a state whose keys are target-day bucket starts keeps every key a target-day bucket start |
| Aggregation.FoldAppend | main.go:86-148 | processing `a` then `b` ends in the same state as processing `a + b` |
| Aggregation.FoldRejected | main.go:107-119 | a run of rejected rows leaves the candle map and daily high/low/close exactly unchanged |
| Aggregation.CandleCountBound | main.go:117-135 | after any input the map holds at most 288 candles |
| Reference.AcceptedMembers | main.go:107-119 | the reference list of accepted rows holds exactly the input rows that pass the filter |
| Reference.InBucketMembers | main.go:107-131 | the reference list of a bucket holds exactly the accepted input rows whose key is that bucket |
| Reference.EmptyDayState | main.go:81-84 | when no row passes the filter the run ends with an empty candle map and daily high, low and close all 0, the zero values they start from |
| Reference.FoldCandles | main.go:131-146 | after the fold a key is present exactly when some accepted row falls in it, and its candle is the first row's open, the max high, the min low and the last processed row's close over that bucket's rows |
| Reference.FoldKeys | main.go:131-135 | the map's key set equals the set of buckets of the accepted rows |
| Reference.CandleExtremesOrderFree | main.go:139-144 | any permutation of the input gives the same key set and the same high and low in every candle |
| Reference.DailyHigh | main.go:122-124 | the daily high is 0 with no accepted rows, otherwise the max of 0 and the greatest accepted high |
| Reference.DailyClose | main.go:128 | the daily close is 0 with no accepted rows, otherwise the close of the last accepted row processed |
| Reference.DailyLow | main.go:125-127 | the daily low is 0 with no accepted rows, and otherwise is the low of some accepted row |
| Reference.DailyLowWithoutZero | main.go:125-127 | when every accepted low is non-zero, whether positive or negative, the daily low is the minimum accepted low |
| Batches.Run | main.go:86-99 | the read loop never aborts on an error whose text is "EOF", and a bounds abort reports the buffer length as the failing index; `RunFlattens`, `RunSucceedsIff` and `ReadsAfterStopIgnored` characterise its result |
| Batches.RunFlattens | main.go:86-105 | a completed read loop ends in the state of folding the concatenation of each batch's first `n` rows |
| Batches.RunSucceedsIff | main.go:87-99 | the read loop completes exactly when no issued read returns a non-"EOF" error or a count larger than the buffer |
| Batches.ReadsAfterStopIgnored | main.go:88-99 | after an error or a zero count no further read affects the outcome or the rows processed |
| Batches.ProcessFile | main.go:86-148 | the nested read and row loops compute the read-loop result from the empty state, and on completion the fold of the delivered rows |
| Pivot.Calculate | main.go:165-176 | three times the pivot is high + low + close; each resistance mirrors its support about the pivot; R3 − S3 is twice the range; the levels are ordered when high ≥ low |
| Pivot.FromState | main.go:150 | the pivot points of a finished run: three times the pivot is the day's high + low + close, R3 − S3 is twice the day's range, and S3 ≤ pivot ≤ R3 when high ≥ low |
| Pivot.Example | main.go:165-176 | high 110, low 90, close 100 give pivot 100, R1 107.64, R2 112.36, R3 120, S1 92.36, S2 87.64, S3 80 |
| Pivot.EmptyDay | main.go:84-150 | for any input in which no row passes the filter, the pivot points are all zero (defined, not an error) |
| Scenarios.BucketBoundaries | main.go:131 | 09:30:00 and 09:34:59.999999999 share the 09:30 bucket; 09:35:00 starts the next |
| Scenarios.ExtremesInAnyOrder | main.go:139-144 | highs 5, 3, 8 and lows 1, 4, 2 in one bucket give high 8 and low 1 in every order |
| Scenarios.CloseFollowsProcessingOrder | main.go:128-145 | the candle close and daily close come from the last processed row even when it has the earlier timestamp |
| Scenarios.ZeroLowReadsAsUnset | main.go:125-144 | lows 5, 0, 3: the candle low is 0, but the daily low ends at 3 because 0 reads as unset |

## Left out

- Parquet reading is a foreign library. Each `reader.Read` call is an input
  value: the count, the buffer contents and the error message.
- The `log.Fatalf` and index-out-of-range aborts end the process. They are
  modelled only as a `Failure` result.
- Directory walking, output-folder creation and the per-file driver,
  main.go:44-64, are I/O.
- CSV writing, `%.2f` formatting and map iteration order, main.go:179-243,
  are output concerns. Go's map iteration order is unspecified.
- Floating point: prices are integers under their total order. NaN and
  infinities are not modelled. Pivot points are exact reals, so float64
  rounding is not modelled.
- Rendering of `time.Format` strings: dates and keys are compared as integers
  on nanoseconds. This relies on the formats being injective on days and on
  aligned instants.
- The volume field is carried but never used, as in the code.
- Running out of recorded `Read` results counts as completion (`Run(s, [])`
  is `Success(s)`). The program would call `Read` again. Appending an
  `"EOF"` read gives the same result (`ReadsAfterStopIgnored`).
- Each `Read` may carry a buffer of any length. The program's buffer always
  has `batchSize` 100 entries (main.go:79-80).
- The count `n` of a read is a natural number. The reader never returns
  a negative count.
