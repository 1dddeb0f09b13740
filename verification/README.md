# Verified model of the Timescale-Prometheus connector

This project models the parts of the connector where results depend on several
functions working together, and proves what they promise:

- **Queries.** PromQL evaluation over ranges and instants, the range functions,
  the `delta` that is pushed down into the database with its Rust aggregate,
  the time range that is fetched, the translation of label matchers into SQL,
  the label cache, histogram quantiles, means, variances and regression lines.
- **Writes.** The Protocol Buffers codec of write requests, the canonical string
  of a label set, series ids, row batching with its retry, and the ingest pipeline
  of goroutines, channels and pooled buffers as a state machine.
- **Operation.** Leader election on an advisory lock, and schema migration.

`dafny verify dfyconfig.toml` checks everything.

## How it is built

| part | modules |
|---|---|
| samples, windows and extrapolation | `Samples`, `Extrapolation`, `RangeFunctions`, `ExtrapolationLaws`, `MatrixWindow`, `Gapfill` |
| pushdown of `delta` | `Pushdown`, `PushdownNode` |
| the evaluator | `Grid`, `PromExpr`, `Matrices`, `StepLoops`, `Evaluator`, `RangeVsInstant`, `NodeHelper`, `NodeOrder`, `NodeSteps`, `MeaningLaws`, `TimeRange` |
| numbers | `Quantile`, `Statistics` |
| matchers and labels | `Matchers`, `Anchoring`, `ClockCache`, `LabelLookup`, `LabelStrings` |
| the codec | `Varint`, `Wire`, `UnknownFields`, `Messages`, `WireFormat`, `Marshalling`, `Unmarshalling` |
| ingestion | `SampleRows`, `SeriesIds`, `SeriesCatalog`, `Ingest`, `IngestSafety`, `IngestSteps`, `IngestTheorems`, `IngestProgress`, `IngestProvenance`, `IngestOrder` |
| operation | `Election`, `Migration` |
| shared | `Common`, `Sorting` |

Code that changes state step by step is imperative here too: classes and loops,
each proved against a specification function. Meanings are pure functions:
`PromExpr.Meaning` gives the value of an expression at one instant by looking at
the stored samples alone, and everything the evaluator carries from step to step
is measured against it. The ingest pipeline is a relation between states, and its
theorems hold in every state of every run.

What a specification function computes is in turn said without it, of the inputs
alone: `MeaningLaws` for expressions, `ExtrapolationLaws` for `delta`, `increase` and
`rate`, `WireFormat` for the bytes of a message, `IngestProvenance` for the rows in the
database, and a member named `...Means` or `...Exactly` beside most others.

Some choices hold throughout. Floats are real numbers, and the only value apart
from numbers is the staleness marker; the codec works on the bits of a float. A
metric is its map of labels, so hashes of label sets do not collide. Times,
lengths and shifts that wrap at 64 bits in the source do so here. The database,
the network and the clock enter as parameters or oracles whose assumptions are
stated in the contracts.

## Where the code departs from its documentation or intent

The model follows the code. Each of these is proved, with the exact condition
under which the intended property does hold.

- A pushed-down `delta` with an offset reports unshifted times; it is right for
  all series if and only if there is no offset (`Pushdown.PushdownExactlyWithoutOffset`).
- The aggregate's `rate` divides by microseconds where the engine divides by
  seconds (`Pushdown.RateDiffersByUnit`).
- A range query can fail although the instant query succeeds at each of its steps:
  because two series that only differ in the metric name have values at different
  steps (`RangeVsInstant.RangeCanFailAlone`), or because a subquery is also evaluated
  between the windows of the steps (`RangeVsInstant.GapCanFailAlone`). It succeeds if
  and only if the instant queries do and neither is the case (`RangeVsInstant.RangeExactly`).
- The `next` hand of the CLOCK cache is set to the position within the part being
  swept, and stands behind the victim only under a condition (`ClockCache.HandBehindVictim`).
- Regular expressions are anchored by adding `^` and `$` to the text, which in an
  alternation bind to the outer alternatives only: `a|b` also selects "ax". For
  alternations of words the database agrees with PromQL if and only if every
  alternative is held at both ends (`Anchoring.AgreesExactlyWhenHeld`), and a clause is
  faithful to its matcher if and only if the two engines agree (`Matchers.FaithfulExactly`).
- The series cache is written before the commit is known to have worked. Over any run
  of batches it is what the database committed if and only if no new series lost its
  commit (`SeriesCatalog.CacheWithinDatabase`); one that did stays wrong for good and
  can name an id that the database gave to no series (`SeriesCatalog.LostCommitMisleads`).
- A sample value of -0.0 comes back from the wire as 0.0; the round trip is exact if
  and only if there is none (`Messages.RoundTripExactly`).
- `Release` without the lock returns with the mutex locked, and `IsLeader` takes the
  lock itself (`Election.PgAdvisoryLock.Release`, `Election.ScheduledElector.PrometheusLivenessCheck`).
- `Release` never reads the answer to its unlocking statement. It can report success
  with the lock still held (`Election.SilentlyNotReleased`), and fail with the lock gone,
  after which there can be two leaders (`Election.TwoLeaders`). Two leaders take such a
  failure: without one there never are (`Election.Run`).
- `ensureMonotonic` leaves the last bucket alone; the counts as a whole do not
  decrease if and only if the last one is the largest (`Quantile.EnvelopeNonDecreasing`).

## Model

| member | source | states |
|---|---|---|
| `Extrapolation.ExtrapolationStaysInWindow` | pkg/promql/functions.go:59-132 | extrapolation lengthens the sampled interval and never beyond the window, for counters and gauges |
| `Extrapolation.CounterIncreaseNonNegative` | pkg/promql/functions.go:59-132 | a counter of non-negative values never has a negative increase, whatever its resets |
| `Extrapolation.CounterStartNonNegative` | pkg/promql/functions.go:93-106 | a counter is never extrapolated below zero at the start of the window |
| `Extrapolation.ExtrapolatedUnitFree` | extension/src/lib.rs:210-286 | the same formula on microseconds and on milliseconds gives the same value |
| `RangeFunctions.ExtrapolatedRate` | pkg/promql/functions.go:59-132 | the accumulating loop computes the extrapolated increase or rate of the window, and nothing below two points |
| `ExtrapolationLaws.RawIncreaseMeans` | pkg/promql/functions.go:74-84 | the increase of a counter is what it gained from point to point, counting from zero after a reset; of a gauge, the difference of the ends |
| `ExtrapolationLaws.DeltaMeans` | pkg/promql/functions.go:86-124 | the difference is stretched by exactly this: an end nearer than 1.1 average gaps adds its distance, any other half an average gap |
| `ExtrapolationLaws.IncreaseMeans` | pkg/promql/functions.go:86-124 | so is what a counter gained, except that the way back ends where the counter was zero |
| `ExtrapolationLaws.SinceZeroMeans` | pkg/promql/functions.go:101-105 | that is as long before the first point as the counter at its average speed takes for the first value |
| `ExtrapolationLaws.DeltaOfLine` | pkg/promql/functions.go:59-132 | points on a line with both ends near give the slope times the window length |
| `ExtrapolationLaws.IncreaseOfLine` | pkg/promql/functions.go:59-132 | so does a rising counter that was not below zero at the window's start |
| `ExtrapolationLaws.RateMeans` | pkg/promql/functions.go:125-127 | a rate times the seconds of the range is the increase |
| `ExtrapolationLaws.RateValueMeans` | pkg/promql/functions.go:59-73 | there is a value exactly for two or more points in order within the shifted window |
| `Gapfill.WindowDelta` | extension/src/lib.rs:210-286 | the aggregate's arithmetic on one window is the engine's extrapolation formula |
| `Gapfill.EntryStable` | extension/src/lib.rs:173-206 | an entry whose window lies in the past does not change when more samples arrive |
| `Gapfill.GapfillDeltaTransition.constructor` | extension/src/lib.rs:147-171 | a new aggregate has no entries and its first window is open |
| `Gapfill.GapfillDeltaTransition.AddDeltaForCurrentWindow` | extension/src/lib.rs:210-286 | closes one window with the entry that its samples give in one batch, null below two |
| `Gapfill.GapfillDeltaTransition.FlushCurrentWindow` | extension/src/lib.rs:196-206 | moves to the next window keeping exactly the samples that still belong to it, for steps shorter and longer than the range |
| `Gapfill.GapfillDeltaTransition.AdvanceTo` | extension/src/lib.rs:173-190 | closes windows until the given time is no longer past the open one |
| `Gapfill.GapfillDeltaTransition.AddDataPoint` | extension/src/lib.rs:173-190 | streaming equals batch: after every prefix of ascending input each closed entry is that of all samples received |
| `Gapfill.GapfillDeltaTransition.ToPgArray` | extension/src/lib.rs:288-305 | the array has an entry for exactly the windows that end by the greatest time, each computed from exactly its non-stale samples |
| `MatrixWindow.RetainOverlap` | pkg/promql/engine.go:1564-1580 | what is kept of the previous points is exactly the overlap with the new window |
| `MatrixWindow.MatrixIterSlice` | pkg/promql/engine.go:1564-1616 | reused points plus buffered ones are exactly the non-stale samples of the window, in order and without duplicates |
| `MatrixWindow.MatrixSeries` | pkg/promql/engine.go:1199-1262 | across all steps, with the buffer reduced to the step, one series gets at each step what its window alone would give |
| `Pushdown.PromAggregate` | extension/src/lib.rs:35-64 | run over a series in time order the aggregate yields one batch entry per window, and aborts exactly on a row outside the bounds |
| `Pushdown.PushdownSeries` | pkg/pgmodel/query_builder.go:300-330 | executing the generated query for one series and reading the two arrays back gives the specified outcome, the error case included |
| `Pushdown.SameLength` | pkg/pgmodel/query_builder.go:319-323 | the array of generated times and the array of values always have the same length |
| `Pushdown.EntryIsStep` | extension/src/lib.rs:173-305 | entry k over the filtered rows is the value of the engine's k-th step over the whole series |
| `Pushdown.PushdownPreservesMeaning` | pkg/promql/engine.go:1072-1092 | without an offset the points read back are exactly those of the engine's own loop, for every series, range query and instant query |
| `Pushdown.OffsetBreaksPushdown` | pkg/pgmodel/query_builder.go:309-323 | for every offset above zero there is a series whose pushed-down points are wrong |
| `Pushdown.OffsetOutcome` | pkg/pgmodel/query_builder.go:300-330 | with an offset the query fails exactly if a sample lies after the shifted end and up to the end, and otherwise yields what the query without it yields at the shifted times |
| `Pushdown.PushdownExactlyWithoutOffset` | pkg/pgmodel/query_builder.go:300-330 | pushdown is right for every series if and only if the offset is zero |
| `Pushdown.RateDiffersByUnit` | extension/src/lib.rs:280-282 | the aggregate's rate is a millionth of the engine's, so the two agree exactly on zero |
| `PushdownNode.PushdownRows` | pkg/promql/engine.go:1072-1092 | the matrix read back for a node has at each step the value of that step's window, for every series |
| `PushdownNode.SameNameNoClash` | pkg/promql/engine.go:1304-1306 | series of one metric do not become equal by losing the metric name |
| `PushdownNode.EvalPushedDown` | pkg/promql/engine.go:1103-1123 | replacing a `delta` node by the pushed-down result represents the same expression, and the evaluator would not have failed there |
| `Grid.AlignUpIsNext` | pkg/promql/engine.go:1427-1432 | the subquery's start is the first multiple of its step not before the requested time, for negative times too |
| `Grid.AlignedGrid` | pkg/promql/engine.go:1427-1432 | two subqueries with one step visit the same times wherever both are defined |
| `Grid.GridMeans` | pkg/promql/engine.go:967 | the steps are the start and every whole number of intervals after it up to the end |
| `StepLoops.HeadIsSlice` | pkg/promql/engine.go:972-992 | looking at the first remaining point of a row and moving past it gives the row's value at every step |
| `StepLoops.RangeEval` | pkg/promql/engine.go:934-1052 | the step loop yields at each step exactly the function of the arguments' slices there, and fails exactly when some step does |
| `StepLoops.VectorSelectorSingle` | pkg/promql/engine.go:1477-1503 | the buffered lookup finds the latest sample within the lookback, nothing if it is stale |
| `StepLoops.SelectSeries` | pkg/promql/engine.go:1375-1400 | one iterator moved along all steps selects at each what a fresh one would |
| `Evaluator.SelectorRows` | pkg/promql/engine.go:1371-1400 | the rows of a selector hold, for every series and step, its latest sample there |
| `Evaluator.RangeRows` | pkg/promql/engine.go:1199-1290 | the rows of a range call hold, for every series and step, the function of that step's window |
| `Evaluator.ScalarLookup` | pkg/promql/engine.go:1225-1233 | a scalar argument indexed by step number is its value at that step |
| `Evaluator.SubqueryOnce` | pkg/promql/engine.go:1056-1070 | a subquery evaluated once for all steps serves each with exactly the points it would get on its own |
| `Evaluator.EvalRangeArg` | pkg/promql/engine.go:1183-1198 | the data prepared for a range argument has the right window for every step, and fails exactly when the argument does |
| `Evaluator.DropNames` | pkg/promql/engine.go:1304-1324 | dropping metric names fails exactly when two rows become equal and otherwise renames every slice |
| `Evaluator.EvalStepCall` | pkg/promql/engine.go:1328-1369 | an operator or function of vectors represents its meaning at every step |
| `Evaluator.EvalNegate` | pkg/promql/engine.go:1313-1326 | negation fails or represents its meaning exactly as stated; at every step it has the label sets of its operand without the name, and each value with the operand's adds up to zero |
| `Evaluator.EvalRangeCall` | pkg/promql/engine.go:1183-1305 | a call with a range argument represents its meaning at every step |
| `Evaluator.Eval` | pkg/promql/engine.go:1095-1442 | evaluation of any expression fails exactly under a condition on its steps, and otherwise its slice at each step is the meaning there |
| `MeaningLaws.SliceMeans` | pkg/promql/engine.go:972-992 | the vector at a step has exactly the points of the rows at that time |
| `MeaningLaws.SelectorMeans` | pkg/promql/engine.go:1477-1503 | a selector has a series exactly with the number that is its last sample up to the shifted time, within the lookback |
| `MeaningLaws.NegationMeans` | pkg/promql/engine.go:1313-1326 | a negation has the opposite value of its operand for every label set, without the name, and nothing else |
| `MeaningLaws.ScalarMeans` | pkg/promql/engine.go:1225-1233 | a scalar expression has one value without labels, that of its function |
| `MeaningLaws.ScalarRowMeans` | pkg/promql/engine.go:1225-1233 | the scalar looked up by step number is the value of the row at that step's time |
| `MeaningLaws.StepCallMeans` | pkg/promql/engine.go:994-1030 | an operator or function of vectors has exactly the samples of its output |
| `MeaningLaws.CallOutputMeans` | pkg/promql/engine.go:1199-1262 | a range function gets, for each series, exactly the points of its window in order: the stored ones, or those of the inner expression at the multiples of the subquery's step |
| `MeaningLaws.RangeCallMeans` | pkg/promql/engine.go:1304-1306 | a call has these outputs under the label sets without the name |
| `MeaningLaws.SelectorsNeverFail` | pkg/promql/engine.go:1371-1400 | a selector never fails, parentheses and scalar functions exactly with what is in them |
| `MeaningLaws.StepCallFails` | pkg/promql/engine.go:994-1030 | an operator or function fails exactly with an argument, on an error, or on a repeated label set |
| `MeaningLaws.NegationFails` | pkg/promql/engine.go:1313-1326 | a negation fails exactly with its operand, or if label sets of it, at whatever steps, only differ in the name |
| `MeaningLaws.RangeCallFails` | pkg/promql/engine.go:1183-1306 | a call fails exactly with its subquery, evaluated once over all steps, with a scalar, or if two outputs only differ in the name |
| `RangeVsInstant.RangeOkNarrows` | pkg/promql/engine.go:1095-1442 | a query without error has none on part of its steps, through all nested subqueries |
| `RangeVsInstant.CompareModes` | pkg/promql/test.go:518-549 | when a range query succeeds, the instant query at each of its steps succeeds and returns the slice there |
| `RangeVsInstant.RangeCanFailAlone` | pkg/promql/engine.go:1304-1306 | a range query can fail where the instant query succeeds at every step, by two names at different steps |
| `RangeVsInstant.RangeExactly` | pkg/promql/engine.go:1095-1442 | a range query succeeds if and only if the instant query at each step does, no two output series of a call or a negation clash across steps, and every subquery succeeds between the windows too |
| `RangeVsInstant.GapCanFailAlone` | pkg/promql/engine.go:1409-1436 | a subquery can fail at a time that no step's window contains, and the range query with it |
| `NodeHelper.EvalNodeHelper.CachedDropName` | pkg/promql/engine.go:898-911 | the cache returns what dropping the name would, in any state it can be in |
| `NodeHelper.EvalNodeHelper.CachedSignature` | pkg/promql/engine.go:913-928 | the cached signature is the signature |
| `NodeHelper.EvalNodeHelper.CachedResultMetric` | pkg/promql/engine.go:1808-1854 | the cached result labels are those of the pair, for one operator and matching |
| `NodeHelper.SignatureExactly` | pkg/promql/engine.go:1792-1804 | signatures are equal exactly if, with `on`, every label listed is absent from both or the same in both, and otherwise if that holds of every label that is neither listed nor the name |
| `NodeHelper.ResultLabels` | pkg/promql/engine.go:1808-1854 | the result labels, label by label: taken over from the one side, or kept from the many side unless dropped as the name or by one-to-one matching |
| `NodeHelper.EvalNodeHelper.IndexOneSide` | pkg/promql/engine.go:1704-1721 | indexing the "one" side fails exactly when two samples share a signature, and then finds every partner |
| `NodeHelper.PartnerUnique` | pkg/promql/engine.go:1704-1721 | with distinct signatures the partner found is the one sample with that signature |
| `NodeHelper.ContributionExactly` | pkg/promql/engine.go:1723-1759 | a sample has an output exactly when the one sample with its signature exists on the other side and the operator does not filter the pair out |
| `NodeHelper.ConflictDetected` | pkg/promql/engine.go:1761-1781 | the maps kept along the way tell exactly whether a match conflicts with an earlier one |
| `NodeHelper.ConflictExactly` | pkg/promql/engine.go:1761-1781 | samples conflict exactly if they give outputs with the same sample of the one side and matching is one-to-one or the labels are equal |
| `NodeHelper.EvalNodeHelper.VectorBinop` | pkg/promql/engine.go:1681-1787 | fails exactly if two samples of the one side agree on the matching labels or two outputs conflict; otherwise the samples are exactly what agreeing samples of the two operands give, in operand order, said label by label, whatever earlier steps left in the caches |
| `NodeHelper.EvalNodeHelper.VectorScalarBinop` | pkg/promql/engine.go:1858-1889 | an operation with a scalar yields what each sample alone would give, whatever the caches hold |
| `NodeHelper.ScalarOpExactly` | pkg/promql/engine.go:1858-1889 | the samples are exactly what each gives with the scalar in the order written, a comparison keeping the sample's value |
| `NodeHelper.EvalNodeHelper.VectorAnd` | pkg/promql/engine.go:1618-1638 | the samples of the left side that agree with one of the right, in order, whatever the signature cache holds |
| `NodeHelper.EvalNodeHelper.VectorOr` | pkg/promql/engine.go:1640-1659 | the left side, and the samples of the right that agree with none of it |
| `NodeHelper.EvalNodeHelper.VectorUnless` | pkg/promql/engine.go:1661-1679 | the samples of the left side that agree with none of the right |
| `NodeHelper.EvalNodeHelper.FillBuckets` | pkg/promql/functions.go:603-631 | after truncating and refilling the slices kept from earlier steps, each histogram has exactly the buckets of this step's samples |
| `NodeHelper.BucketsExactly` | pkg/promql/functions.go:611-632 | a histogram has exactly the buckets whose bound `le` parses, of the samples with its other labels |
| `NodeHelper.EvalNodeHelper.HistogramQuantile` | pkg/promql/functions.go:598-643 | one quantile for each histogram with a bucket at this step, that of its buckets, although the slices were sorted and merged in place at earlier steps |
| `NodeOrder.PermutationSame` | pkg/promql/engine.go:934-1052 | a permutation of a step's output has equal label sets exactly if the output has, and is the same vector |
| `NodeSteps.OrderIrrelevant` | pkg/promql/engine.go:1328-1369 | operators and histogram quantiles fail or give the same vector in whatever order the samples of their arguments come |
| `NodeSteps.CallMeans` | pkg/promql/engine.go:1328-1369 | what each operation gives, said of the samples of its operands |
| `NodeSteps.Step` | pkg/promql/engine.go:1328-1369 | one step with a helper that served any number of others has the outcome of the operation without caches |
| `NodeSteps.EvalNode` | pkg/promql/engine.go:934-1052 | the step loop with one helper for all steps has the outcome of the step loop with a function of each step's vectors alone |
| `NodeSteps.EvalCall` | pkg/promql/engine.go:1328-1369 | a whole node evaluated with one helper fails or represents its meaning at every step exactly as the evaluator does with the pure function |
| `TimeRange.FetchCoversHints` | pkg/promql/engine.go:668-762 | the range fetched for a query covers the hinted range of every selector, however deeply nested |
| `TimeRange.FetchIsTight` | pkg/promql/engine.go:646-695 | a range that starts any later misses a hinted range |
| `TimeRange.HintsSuffice` | pkg/promql/engine.go:697-762 | evaluation reads nothing outside the hinted ranges: any data that agrees there gives the same meaning |
| `TimeRange.HintsAreRead` | pkg/promql/engine.go:697-762 | a sample at either end of a selector's hinted range is read at the first or last step |
| `TimeRange.RangeHintsAreRead` | pkg/promql/engine.go:697-762 | so is one at either end of a matrix selector's hinted range |
| `TimeRange.HintsDecideErrors` | pkg/promql/engine.go:697-762 | whether a range query fails is decided by the samples in the hinted ranges |
| `TimeRange.FetchSuffices` | pkg/promql/engine.go:646-695 | over the rows between the minimal time and the query end every expression means what it means over all data, and a query fails exactly when it does over all data |
| `Quantile.CoalesceBuckets` | pkg/promql/quantile.go:115-129 | merging in place leaves one bucket per bound, bounds strictly increasing, with all bounds and the total count of each kept |
| `Quantile.MergedCount` | pkg/promql/quantile.go:115-129 | a merged bucket has the total of the counts with its bound, in whatever order they came |
| `Quantile.CoalescedUnique` | pkg/promql/quantile.go:115-129 | there is only one way to merge given buckets |
| `Quantile.EnsureMonotonic` | pkg/promql/quantile.go:164-174 | every count but the last becomes the largest up to it; bounds and the last bucket stay |
| `Quantile.EnvelopeNonDecreasing` | pkg/promql/quantile.go:164-174 | the part that is searched does not decrease, and the whole does not if and only if the last count is the largest |
| `Quantile.Search` | pkg/promql/quantile.go:90-91 | the binary search finds the first bucket whose count reaches the rank |
| `Quantile.BucketsMakeHistogram` | pkg/promql/quantile.go:78-84 | non-negative counts with a bucket up to infinity make a histogram fit for searching |
| `Quantile.BucketQuantile` | pkg/promql/quantile.go:71-110 | sorting, merging and searching in place gives the quantile of the buckets, a function of what they were, in every special case |
| `Quantile.QuantileCases` | pkg/promql/quantile.go:71-81 | quantiles below 0 and above 1, and buckets without one up to infinity |
| `Quantile.QuantileInterpolates` | pkg/promql/quantile.go:89-109 | within the bucket its rank falls into, a quantile divides the bucket as the rank divides its count; the first bucket begins at zero, and above the last finite bound the answer is that bound |
| `Quantile.WithinBucket` | pkg/promql/quantile.go:93-109 | with a positive rank the quantile is a number within the bounds of the chosen bucket |
| `Quantile.MonotoneInQ` | pkg/promql/quantile.go:90-109 | in one histogram a higher rank never gives a smaller number |
| `Quantile.QuantileOfPermutation` | pkg/promql/quantile.go:78-84 | the order of the buckets does not matter |
| `Quantile.QuantileMonotone` | pkg/promql/quantile.go:71-110 | of two calls on the same buckets in any order, the one with the higher quantile never returns the smaller number |
| `Statistics.WelfordStep` | pkg/promql/functions.go:437-448 | one more value keeps the running mean a mean and the running sum its squared deviation |
| `Statistics.DeviationFromMean` | pkg/promql/functions.go:437-448 | the mean minimises the squared deviation |
| `Statistics.AvgOverTime` | pkg/promql/functions.go:352-361 | the running mean is the mean |
| `Statistics.StdvarOverTime` | pkg/promql/functions.go:437-448 | the one-pass variance is the population variance |
| `Statistics.GroupedAggregation.Add` | pkg/promql/engine.go:2072-2093 | a group's mean and sum are those of all samples it has seen |
| `Statistics.VarXPositive` | pkg/promql/functions.go:554 | the variance of the times is positive if and only if two of them differ |
| `Statistics.FittedIsBest` | pkg/promql/functions.go:536-559 | no line has a smaller squared error than the fitted one, and no other has the same |
| `Statistics.SlopeOfPoints` | pkg/promql/functions.go:562-578 | the slope does not depend on the time the intercept is taken at |
| `Statistics.LinearRegression` | pkg/promql/functions.go:539-559 | the accumulating loop returns the least-squares line exactly when two times differ |
| `Matchers.FillInParameters` | pkg/pgmodel/query_builder.go:134-153 | the k-th placeholder of a query is numbered to resolve to the k-th new argument, all else stays, and a wrong number of arguments is an error |
| `Matchers.FinalizeQuery` | pkg/pgmodel/query_builder.go:293-297 | in the finished query the time and value clauses receive their own parameters and the rest goes on resolving as before, unless the number of parameters is wrong |
| `Matchers.TranslatesExtended` | pkg/pgmodel/query_builder.go:134-153 | arguments added later do not change what a clause says |
| `Matchers.ClauseBuilder.AddClause` | pkg/pgmodel/query_builder.go:155-169 | a clause is appended with its arguments, or nothing changes |
| `Matchers.FilledTranslates` | pkg/pgmodel/query_builder.go:24-31 | each of the eight clause forms holds of exactly the series whose label passes its test in the database, a missing label counting as empty |
| `Matchers.EightForms` | pkg/pgmodel/query_builder.go:24-31 | what each of the eight clauses says of the labels a series has |
| `Matchers.AcceptedMeans` | pkg/pgmodel/query_builder.go:65-132 | what each kind of matcher accepts, said of the stored labels |
| `Matchers.FaithfulExactly` | pkg/pgmodel/query_builder.go:24-31 | a clause holds of exactly the series its matcher accepts if and only if the database's regular expression agrees with PromQL's on every value |
| `Matchers.BuildSubQueries` | pkg/pgmodel/query_builder.go:65-132 | every clause translates its matcher; it fails exactly without matchers; a metric is named exactly when one equality on the name is demanded |
| `Matchers.OneMetric` | pkg/pgmodel/query_builder.go:65-132 | one metric is named exactly if one equality on the name demands it and no other is there |
| `Matchers.PathsAgree` | pkg/pgmodel/sql_reader.go:271-354 | the single-metric path selects the same series as the general one, both exactly those that pass every test |
| `Matchers.SelectSeries` | pkg/pgmodel/sql_reader.go:271-354 | a query selects exactly the series that pass every test in the database, by whichever path, and those every matcher accepts where the engines agree |
| `Anchoring.AnchorText` | pkg/pgmodel/query_builder.go:373-393 | the anchors put around a pattern go to its first and last alternative |
| `Anchoring.AnchorMeans` | pkg/pgmodel/query_builder.go:373-393 | each anchor is added exactly if it is missing |
| `Anchoring.AgreesExactlyWhenHeld` | pkg/pgmodel/query_builder.go:371-393 | for alternations of words the database agrees with PromQL on every value if and only if no alternative is left loose |
| `Anchoring.TwoWordsAreNot` | pkg/pgmodel/query_builder.go:371-393 | `a\|b` is found in "ax" by the database and not matched by PromQL |
| `Anchoring.EnginesExist` | pkg/pgmodel/query_builder.go:371-393 | there are two engines that read alternations of words as assumed |
| `ClockCache.RunSweep` | pkg/clockcache/cache.go:110-155 | the two nested loops walk the ring at most twice, clearing marks, and stop at the first unmarked slot |
| `ClockCache.GivingUpMeansStarved` | pkg/clockcache/cache.go:110-155 | finding no victim takes readers marking every single slot again while the sweep goes around |
| `ClockCache.SweepAlone` | pkg/clockcache/cache.go:110-155 | left alone the sweep takes the first unmarked slot in ring order, or the first of all if every one is marked |
| `ClockCache.HandBehindVictim` | pkg/clockcache/cache.go:128-150 | the hand is left right behind the victim if and only if the sweep began at slot 0 or the victim lay before its start |
| `ClockCache.Cache.Get` | pkg/clockcache/cache.go:190-213 | a lookup returns what the map holds and marks only that key |
| `ClockCache.Cache.Evict` | pkg/clockcache/cache.go:110-155 | the victim and the marks are those of the sweep; contents stay |
| `ClockCache.Cache.Insert` | pkg/clockcache/cache.go:48-108 | an existing key keeps its value; a new one displaces at most one entry and only in a full cache; alone, it always finds room unless the capacity is 0 |
| `ClockCache.Cache.GetValues` | pkg/clockcache/cache.go:162-188 | keys are permuted in place, those found first with their values |
| `ClockCache.Cache.InsertBatch` | pkg/clockcache/cache.go:61-77 | every value left in the batch and in the cache comes from the cache or from the batch for that key; the key inserted last is cached, and with room for all of them all are and nothing is dropped |
| `ClockCache.Cache.ExpandTo` | pkg/clockcache/cache.go:236-268 | contents and marks stay; the capacity never shrinks |
| `LabelLookup.SameIdsSameLabels` | pkg/pgmodel/sql_reader.go:202-225 | permuting ids permutes their labels |
| `LabelLookup.Querier.TakeRow` | pkg/pgmodel/sql_reader.go:240-265 | a result row fills in the labels of its ids even where the cache already held them |
| `LabelLookup.Querier.FetchMissingLabels` | pkg/pgmodel/sql_reader.go:227-269 | the missing labels are those of the database, and the cache goes on agreeing with it |
| `LabelLookup.Querier.GetLabelsForIds` | pkg/pgmodel/sql_reader.go:202-225 | for any cache state, starved or of capacity 0, the result is a permutation of the labels of the ids |
| `LabelStrings.StringRoundTrip` | pkg/pgmodel/labels.go:84-112 | the length-prefixed string decodes to the labels it was made from |
| `LabelStrings.PrefixedMeans` | pkg/pgmodel/labels.go:84-112 | a string stands behind its length, the low byte first |
| `LabelStrings.EncodedMeans` | pkg/pgmodel/labels.go:84-112 | the string of a list is those of its names and values, in turn |
| `LabelStrings.EncodedLength` | pkg/pgmodel/labels.go:69-73 | the expected length is the length of the string built |
| `LabelStrings.SameStringIffPermutation` | pkg/pgmodel/labels.go:56-113 | with distinct names two lists have the same string if and only if one is a permutation of the other |
| `LabelStrings.GetStr` | pkg/pgmodel/labels.go:56-113 | sorts in place, builds the string of the sorted labels, and fails exactly beyond 65535 bytes |
| `LabelStrings.Interner.SetLabels` | pkg/pgmodel/labels.go:39-42 | the label set stored first is kept and returned |
| `LabelStrings.Interner.LabelProtosToLabels` | pkg/pgmodel/labels.go:115-137 | whether found or built, the label set has the string, names, values and metric name of the labels given |
| `Varint.SovIsLength` | pkg/prompb/types.pb.go:1239-1241 | the size computed from the bit length is the length of the varint |
| `Varint.EncodeVarint` | pkg/prompb/types.pb.go:1039-1049 | the varint is written to end at the offset and nothing else changes |
| `Varint.ReadVarint` | pkg/prompb/types.pb.go:1251-1265 | the shifting loop reads a varint with its overflow and end-of-data errors |
| `Varint.VarintRoundTrip` | pkg/prompb/types.pb.go:1251-1265 | every 64-bit value reads back, and reading stops right behind it |
| `Varint.FixedRoundTrip` | pkg/prompb/types.pb.go:671-672 | little-endian fixed values read back |
| `WireFormat.VarintBytes` | pkg/prompb/types.pb.go:1039-1049 | a varint has the value in groups of seven bits, least significant first, without needless groups |
| `WireFormat.VarintMeans` | pkg/prompb/types.pb.go:1251-1265 | reading takes the groups up to the first byte without a top bit, cut to 64 bits, or fails exactly if the data or ten bytes end before |
| `WireFormat.FixedBytes` | pkg/prompb/types.pb.go:1281-1283 | byte k of a fixed value has the weight 256 to the k |
| `WireFormat.TagMeans` | pkg/prompb/types.pb.go:1265-1272 | the wire type is in the low three bits, the field number in the 32 bits above, positive; the end of a group is refused |
| `Wire.SkipTypes` | pkg/prompb/types.pb.go:2290-2367 | the skipping loop, nested groups and overflow included, is the recursive skip |
| `UnknownFields.SkipField` | pkg/prompb/types.pb.go:2290-2367 | skipping an encoded field of any wire type, with groups nested to any depth, ends right behind it |
| `UnknownFields.SkipLocal` | pkg/prompb/types.pb.go:2290-2367 | what follows a field has no influence on where skipping it ends |
| `UnknownFields.EncodedUnknowns` | pkg/prompb/types.pb.go:1308-1322 | encoded fields with numbers a message does not know are read as its unknown fields |
| `Wire.DelimitedRoundTrip` | pkg/prompb/types.pb.go:1363-1387 | a length-delimited field reads back as its tag and its body |
| `Messages.SampleRoundTrip` | pkg/prompb/types.pb.go:1245-1328 | a sample reads back with its unknown fields, a negative zero as zero |
| `Messages.LabelRoundTrip` | pkg/prompb/types.pb.go:1461-1578 | a label reads back with its unknown fields |
| `Messages.SeriesRoundTrip` | pkg/prompb/types.pb.go:1329-1459 | a time series reads back with its labels and samples in order and its unknown fields |
| `Messages.RequestRoundTrip` | pkg/prompb/remote.pb.go:882-974 | decoding an encoded request gives it back, unknown fields at every level included, with negative zeros turned into zeros |
| `Messages.RoundTripExactly` | pkg/prompb/types.pb.go:670 | the round trip is exact if and only if no sample value is a negative zero |
| `Messages.DecodedRoundTrip` | pkg/prompb/remote.pb.go:882-974 | a request decoded from any bytes survives being encoded and decoded again, so unknown fields are passed on |
| `WireFormat.SampleOnWire` | pkg/prompb/types.pb.go:656-677 | a sample is its value as fixed field 1 and its time as varint field 2, each left out if zero, and its unknown fields |
| `WireFormat.SampleWithBoth` | pkg/prompb/types.pb.go:656-677 | the same for a sample with both, with the bytes of its value by weight |
| `WireFormat.LabelOnWire` | pkg/prompb/types.pb.go:749-775 | a label is its name as field 1 and its value as field 2 |
| `WireFormat.SeriesOnWire` | pkg/prompb/types.pb.go:694-731 | a series is its labels as fields 1 and its samples as fields 2, in order |
| `WireFormat.RequestOnWire` | pkg/prompb/remote.pb.go:461-485 | a request is its series as fields 1, in order |
| `WireFormat.SampleFromFields` | pkg/prompb/types.pb.go:1245-1328 | what any sequence of fields decodes to as a sample: the last value and time win, another wire type is an error, unknown ones are kept |
| `WireFormat.LabelFromFields` | pkg/prompb/types.pb.go:1461-1578 | the same for labels |
| `WireFormat.SeriesFromFields` | pkg/prompb/types.pb.go:1329-1459 | the same for series, whose labels and samples add up |
| `WireFormat.RequestFromFields` | pkg/prompb/remote.pb.go:882-974 | the same for requests |
| `WireFormat.SampleInEitherOrder` | pkg/prompb/types.pb.go:1274-1305 | value and time of a sample may come in either order |
| `WireFormat.OneAtOne` | pkg/prompb/types.pb.go:1274-1305 | the eleven bytes of the value 1.0 at time 1 decode to it |
| `Marshalling.SizeTimeSeries` | pkg/prompb/types.pb.go:1068-1090 | the size is the length of the encoding |
| `Marshalling.SizeWriteRequest` | pkg/prompb/remote.pb.go:748-764 | the size is the length of the encoding |
| `Marshalling.WroteBoth` | pkg/prompb/types.pb.go:692-730 | writing one part and then another in front of it writes their concatenation and nothing else |
| `Marshalling.MarshalSample` | pkg/prompb/types.pb.go:656-677 | the encoding is written back to front to end at the given index, nothing else changes |
| `Marshalling.MarshalLabel` | pkg/prompb/types.pb.go:749-775 | the encoding is written back to front to end at the given index, nothing else changes |
| `Marshalling.MarshalTimeSeries` | pkg/prompb/types.pb.go:694-731 | the encoding is written back to front to end at the given index, nothing else changes |
| `Marshalling.MarshalWriteRequest` | pkg/prompb/remote.pb.go:461-485 | marshalling fills the buffer of the computed size exactly |
| `Unmarshalling.UnmarshalTimeSeries` | pkg/prompb/types.pb.go:1329-1459 | decoding into slices used before depends on their contents alone, not on what their arrays still hold |
| `Unmarshalling.WriteRequestMessage.Reset` | pkg/prompb/remote.pb.go:71 | a reset message is empty |
| `Unmarshalling.WriteRequestMessage.Unmarshal` | pkg/prompb/remote.pb.go:882-974 | decoding into a message depends on its contents alone, errors included |
| `Unmarshalling.WriteRequestMessage.Finish` | pkg/pgmodel/insert_ctx.go:19-32 | the request goes back empty, and no label or unknown field of it is kept |
| `Unmarshalling.WriteRequestMessage.UnmarshalRecycled` | pkg/pgmodel/insert_ctx.go:15-32 | a request decoded in a recycled message is the one decoded in a new one |
| `Unmarshalling.Transfer` | pkg/prompb/remote.pb.go:461-485 | a request marshalled and decoded into a recycled message arrives as it was, unknown fields included, exactly if it has no negative zero |
| `SampleRows.MinTimeIsMinimum` | pkg/pgmodel/sql_utils.go:144-152 | the time seen as smallest is the minimum and is that of some row |
| `SampleRows.SampleInfoIterator.ResetPosition` | pkg/pgmodel/sql_utils.go:125-130 | after a reset the iterator stands before the first row with no time seen |
| `SampleRows.SampleInfoIterator.Next` | pkg/pgmodel/sql_utils.go:134-141 | each step takes one row off those that remain, and it ends when none do |
| `SampleRows.SampleInfoIterator.Values` | pkg/pgmodel/sql_utils.go:144-152 | the current row is returned and the smallest time updated, unless the index is out of range |
| `SampleRows.CollectRows` | pkg/pgmodel/sql_ingest.go:506-536 | the rows inserted are all rows of the batch in order, and the panic is unreachable, exactly when no sample set but the first is empty |
| `SampleRows.RowAt` | pkg/pgmodel/sql_utils.go:134-152 | each sample makes one row with the series id of its sample set, in order |
| `SampleRows.InsertWithRetry` | pkg/pgmodel/sql_ingest.go:466-567 | the retry sends the same rows again, only after the compression job was put off and the table decompressed from the smallest time of the batch; which failure stops it where is told apart |
| `SampleRows.DelayBy` | pkg/pgmodel/sql_ingest.go:541-548 | the job is put off by half the age of the data and an hour, never by more than a day, and by at least an hour for data of the past |
| `SampleRows.ParseData` | pkg/pgmodel/ingestor.go:75-108 | every sample set lands in exactly the list of its metric, and parsing fails exactly on unusable labels or a missing metric name |
| `SampleRows.InfosMean` | pkg/pgmodel/ingestor.go:75-108 | the list of a metric is what each of its series with samples adds, in the order of the request |
| `SampleRows.ParsedIsEnumerable` | pkg/pgmodel/ingestor.go:75-108 | what parsing produces never makes the insertion panic, for a batch joined from any number of requests |
| `SampleRows.ParseAndCount` | pkg/pgmodel/ingestor.go:57-69 | the rows counted for insertion are the samples of the request, so the check after it cannot fail |
| `SeriesIds.GroupByLabels` | pkg/pgmodel/sql_ingest.go:605-632 | sorted sample sets fall into one group per label set, each in exactly its group |
| `SeriesIds.InsertHandler.FillKnownSeriesIds` | pkg/pgmodel/sql_ingest.go:414-428 | ids come from the cache where it has them, and none are missing exactly if it has all |
| `SeriesIds.InsertHandler.ReadReplies` | pkg/pgmodel/sql_ingest.go:639-663 | replies are applied in order up to the first failure: exactly which labels reach the cache and which sample sets get which id |
| `SeriesIds.InsertHandler.SetSeriesIds` | pkg/pgmodel/sql_ingest.go:590-664 | exactly one call is queued per distinct unknown label set, it succeeds exactly if all of them do, and the ids and the cache afterwards are told for every case of failure |
| `SeriesCatalog.LostAtTheStop` | pkg/pgmodel/sql_ingest.go:639-663 | a batch loses a commit exactly if its first failing reply is a failed commit of a new series that was not applied |
| `SeriesCatalog.BatchKeepsCache` | pkg/pgmodel/sql_ingest.go:653-661 | after one batch the cache agrees with the database if and only if no new series lost its commit |
| `SeriesCatalog.BatchIdsRight` | pkg/pgmodel/sql_ingest.go:653-661 | after a batch that succeeds every sample set has the id the database committed for its labels |
| `SeriesCatalog.HandleBatch` | pkg/pgmodel/sql_ingest.go:590-664 | one call of the handler is one step of the run, and if it succeeds from a right cache every id is committed |
| `SeriesCatalog.SpoiledForGood` | pkg/pgmodel/sql_ingest.go:653-661 | a label whose cached id is not the committed one is never put right by later batches |
| `SeriesCatalog.CacheWithinDatabase` | pkg/pgmodel/sql_ingest.go:653-661 | over any run of batches, with other writers in between, the cache is what the database committed if and only if no batch lost the commit of a new series |
| `SeriesCatalog.LostCommitMisleads` | pkg/pgmodel/sql_ingest.go:653-661 | a run after which the cache holds another id than the database |
| `IngestSteps.NextKeeps` | pkg/pgmodel/sql_ingest.go:161-462 | every step of every goroutine keeps the invariant on requests, buffers, wait groups and errors |
| `IngestTheorems.NeverPanics` | pkg/pgmodel/sql_ingest.go:569-588 | in no run is anything sent on a closed error channel or a wait group made negative |
| `IngestTheorems.OneHolder` | pkg/pgmodel/sql_ingest.go:379-462 | in no state is a buffer held in two places |
| `IngestTheorems.PooledAreEmpty` | pkg/pgmodel/sql_ingest.go:569-588 | a pooled buffer is empty and held by nobody |
| `IngestTheorems.RequestInOnePlace` | pkg/pgmodel/sql_ingest.go:161-462 | a request is never in two places, nor twice in one |
| `IngestTheorems.WaitGroupCounts` | pkg/pgmodel/sql_ingest.go:161-203 | a call's wait group counts exactly its requests that are somewhere in the pipeline |
| `IngestTheorems.InsertDataSound` | pkg/pgmodel/sql_ingest.go:161-203 | when a call returns, every row is in the database or its request failed, and an error is returned exactly if one did |
| `IngestTheorems.DoneOnce` | pkg/pgmodel/sql_ingest.go:569-588 | a request is marked done once: its outcome never changes again |
| `IngestProvenance.FateSealed` | pkg/pgmodel/sql_ingest.go:466-588 | what has been decided for a request is never decided again |
| `IngestProvenance.DatabaseExactly` | pkg/pgmodel/sql_ingest.go:495-536 | in every run the database has exactly the rows it had at the start and those of requests whose batch was inserted, each in its own table |
| `IngestProvenance.FailedAddNothing` | pkg/pgmodel/sql_ingest.go:466-536 | rows of requests that all failed are not added |
| `IngestProvenance.ReturnedErrorIsOwn` | pkg/pgmodel/sql_ingest.go:161-203 | the error a call returns is the one that a request of that call failed with |
| `IngestOrder.FirstInFirstOut` | pkg/pgmodel/sql_ingest.go:258-270 | while a request waits in its channel, so does every one sent after it, behind it and in order |
| `IngestOrder.ChannelsBounded` | pkg/pgmodel/sql_ingest.go:72-74 | in every run the copiers' channel holds at most one batch per copier, and a metric's channel a thousand requests |
| `IngestProgress.CallsProgress` | pkg/pgmodel/sql_ingest.go:161-462 | wherever a call whose requests all have rows has not returned and there is a copier, the run can go on without a new call and without a new fault |
| `Election.LockServer.TryAdvisoryLock` | pkg/util/lock.go:127 | the lock goes to a session exactly when no other holds it, and the holder may take it again |
| `Election.PgAdvisoryLock.Ask` | pkg/util/lock.go:114-144 | the connection is given up exactly on an error of the query or of its rows, not on a missing or unreadable row |
| `Election.PgAdvisoryLock.TryLock` | pkg/util/lock.go:96-144 | true means that this live session holds the lock at that moment, and exactly when that comes about is said |
| `Election.PgAdvisoryLock.Release` | pkg/util/lock.go:170-183 | what is reported and freed in every case: a release without error frees the lock exactly if the statement was executed, one that failed leaves a leader without the lock exactly if it was; the mutex stays locked if and only if the lock was not obtained |
| `Election.AtMostOneLeader` | pkg/util/lock.go:22-31 | of two instances that both lead on live sessions, one had its release fail after the statement was executed |
| `Election.Run` | pkg/util/lock.go:79-183 | whatever calls, failures and session losses happen in whatever order, two instances lead only after a release that failed too late, and never without one |
| `Election.StartGroup` | pkg/util/lock.go:42-53 | instances created against a new server satisfy what the run needs |
| `Election.TwoLeaders` | pkg/util/lock.go:170-183 | from any group with a leader, a release that fails too late and one attempt of another instance make two leaders |
| `Election.SilentlyNotReleased` | pkg/util/lock.go:170-183 | a release can report success while its session keeps the lock, and another instance then does not get it |
| `Election.ScheduledElector.Elect` | pkg/util/election.go:143-154 | an election reports leadership exactly as it stands |
| `Election.ScheduledElector.PrometheusLivenessCheck` | pkg/util/election.go:109-131 | silence beyond the timeout ends leadership if the release returns no error, and a pause is lifted only while not leading |
| `Migration.VersionTotal` | pkg/pgmodel/migrate.go:150-178 | precedence is total, and mutual exactly for versions equal but for build metadata |
| `Migration.VersionTransitive` | pkg/pgmodel/migrate.go:442 | precedence is transitive |
| `Migration.PrecedenceMeans` | pkg/pgmodel/migrate.go:150-178 | major, minor and patch decide as numbers, then a pre-release comes before its release, then the first identifier that differs, numbers before words |
| `Migration.FileVersionsOrdered` | pkg/pgmodel/migrate.go:370-392 | the files of a directory are ordered by their numbers, and come before a release and right after a pre-release |
| `Migration.CollectUpgrades` | pkg/pgmodel/migrate.go:407-438 | the files found are those listed, and a stray file, a name that does not parse or a repeated version is an error and nothing else is |
| `Migration.ListedMeans` | pkg/pgmodel/migrate.go:370-438 | the files listed are exactly those of all directories, with the file number as one more identifier |
| `Migration.UpgradeVersion` | pkg/pgmodel/migrate.go:396-455 | an upgrade runs the sorted files of its range |
| `Migration.PlanThroughMiddle` | pkg/pgmodel/migrate.go:440-453 | going through an intermediate version runs the same files in the same order |
| `Migration.PlanRunsEachOnce` | pkg/pgmodel/migrate.go:440-453 | an upgrade runs exactly the files after its start and up to its end, none twice, in the order of their versions |
| `Migration.MigratedDatabase.Migrate` | pkg/pgmodel/migrate.go:134-211 | all or nothing; what is run and recorded in each case; the recorded version never decreases |
| `Migration.MigrateRepeatedly` | pkg/pgmodel/migrate.go:134-211 | over any number of migrations, by releases that each bring their own files, failing or not, no version's file runs twice, every file run was brought by one of them, and the recorded version never decreases |

## Left out

- MatrixWindow.BufferedIterator.Seek: the buffered iterator is library code; it is known only by what it promises, and how much more than the promised span it buffers is left open.
- StepLoops.RangeEval: the budget of samples per query, and the order of samples within a step's vector, which `topk` ties depend on, are not modelled.
- Evaluator.Eval: `absent_over_time`, `timestamp`, string literals, `label_replace` and `label_join` are not part of the expressions; functions of vectors and of windows are arbitrary parameters.
- NodeHelper.EvalNodeHelper.CachedResultMetric: its key is the pair of label sets. The source combines two hashes into `(lh ^ rh) + lh`, which can be the same for two pairs although hashes of label sets do not collide; such collisions are not modelled.
- NodeHelper.EvalNodeHelper.HistogramQuantile: parsing of the bucket bound, and the float that stands for an infinite or undefined quantile, are parameters.
- NodeSteps.EvalNode: of the operations with a helper, aggregations and the label functions are not among its calls.
- ClockCache.Cache.Evict: concurrent readers are modelled by the marks they set between two visits of the sweep, not by threads.
- LabelLookup.Querier.GetLabelsForIds: that the caller's slice of ids is overwritten with the missed ids is not modelled.
- SeriesIds.InsertHandler.SetSeriesIds: the table name that comes back with an id is not modelled.
- Election.PgAdvisoryLock.Close: the source writes the connection under a read lock; here every call is atomic.
- Election.ScheduledElector.PrometheusLivenessCheck: its two calls on the lock are not interleaved with those of the scheduled election.
- Migration.MigratedDatabase.Migrate: parsing of version strings and file names, and the contents and order of the preinstall and idempotent scripts.
- LabelStrings.Interner.LabelProtosToLabels: calls are atomic; the concurrent map is library code.
- Ingest: shutdown with `Close`, asynchronous acknowledgement, table creation and the worker that completes metrics; when a pending buffer is flushed is left open, so every policy is covered. The pool never loses a buffer to garbage collection.
- Floating-point rounding, infinities and NaN other than the staleness marker, `quantile_over_time` and vector `quantile`, heaps of `topk` and `bottomk`.
- Regular expressions beyond alternations of words of letters, digits and underscores: both engines are parameters, and results about accepted series carry their agreement as a condition.
- Matchers.FinalizeQuery: a query is its list of placeholders and numbered parameters; percent signs in table names, which the source's formatting would interpret, are not modelled.
- IngestProgress.CallsProgress: a request without sample sets stays in its buffer until another one joins it, so calls with one are not covered; parsing produces none (`SampleRows.ParseData`). That a continued run ends, under a fair scheduler, is not stated.
- The PromQL parser, hashing of label sets, PostgreSQL, pgx and connection pools, the SQL text of queries and migrations.
- HTTP handlers, JSON output, flags, logging, metrics and the REST election.
- The other Protocol Buffers messages, which repeat the same codec pattern.
