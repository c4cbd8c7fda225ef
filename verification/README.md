# Verified model of Prometheus: range evaluation, rules, remote-write codec, discovery and notifications

A Dafny model of the parts of Prometheus that replace a simple definition by a fast or concurrent form, with proofs that
the two agree. Everything is about all inputs, all runs or all reachable states.

- `RuleSeries`, `RuleDependencies`, `RuleExecution`: the series rules write, the name-matcher analysis of a rule group, its
  batches, and concurrent runs of the batches against the sequential evaluation. The batches agree with it exactly when
  no rule reads a later rule's output outside the one-by-one batches and rules that can write one series run in the order
  of the group; for every other group a run that differs is constructed.
- `SampleBuffer`, `Windows`, `Slots`, `SlidingWindow`: the ring buffer and buffered iterator of `storage`, and the window
  that slides over a series from step to step and reuses histogram objects, against the window computed from scratch.
- `SharedSlots`, `SharedScrapes`: the same for a series that hands out the objects it holds, as a subquery's result does.
- `RangeEval`, `Subquery`, `TimeFunctions`, `StepInvariant`, `TimeRange`, `TopK`: evaluation step by step with cursors and
  a limit on samples, one aligned pass per subquery, wrapped step-invariant expressions, the time range a query touches,
  and bounded heaps for topk and friends.
- `AlertHistory`, `AlertState`, `Staleness`: the life of an alert over all evaluations of its rule, against what the
  results alone ask for, and the sending of alerts; no recorded series is forgotten over evaluations, cleanups and
  reloads.
- `Wire`, `Messages`, `Format`, `Reading`, `Decoded`, `Marshal`, `Sizes`, `Unmarshal`: the protobuf codec of a remote-write
  request. The first five are fields and messages with their round trip, the bytes written out, what is made of fields in
  any order and of arbitrary bytes; the others are the code's own loops over buffers and indexes.
- `Discovery`, `Notifier`: the concurrent managers with their one-slot signals, as steps that can interleave in any order.
- `Quantile`: classic histogram quantiles and fractions, in exact arithmetic.

Times are whole milliseconds as unbounded integers. A float is a real, an infinity or a NaN that may be a stale marker
(`Prelude`); in the codec it is its bit pattern. Label sets stand for their hashes and fingerprints, which are thus taken
to be collision-free. Clocks, query results, storage answers and the outcome of sending are parameters.

Some promises do not hold of the code on all inputs. Each has its exact condition and an input for which it fails:

- concurrent batches of a group with backward reads, or with several rules that write one series
  (`RuleExecution.BatchesAgreeExactly`; `RuleExecution.BackwardReadDisagrees`, `RuleExecution.TwoWritersDisagree`);
- histogram slots that never share an object, over series that hand out shared ones (`SharedSlots.UnsharedExactly`;
  `SharedScrapes.WrongHistogram`);
- `@` inside a subquery with an offset whose aligned start happens to be the start of the query
  (`StepInvariant.AtSubqueryExactly`; `StepInvariant.AtSubqueryMisreads`);
- parameters of aggregations, which the step-invariant rewrite does not look at (`StepInvariant.ParameterExactly`;
  `StepInvariant.FrozenParameter`, `StepInvariant.MovingParameter`), and the rewrite of any query at all
  (`StepInvariant.RewriteExactly`);
- `info()`, which looks at the evaluation time but is missing from the table of functions that are unsafe with `@`
  (`StepInvariant.InfoExactly`; `StepInvariant.InfoIsFrozen`);
- the round trip of negative zeros (`Messages.RoundTripExactly`; `Messages.NegativeZeroIsLost`);
- the quantile at zero (`Quantile.QuantileAtZero`; `Quantile.NoQuantileAtZero`), and fractions as the inverse of quantiles
  (`Quantile.FractionBelowQuantile`; `Quantile.RepairedIsNotInverse`);
- series whose stale marker the storage refuses (`Staleness.StepKeepsTrack`; `Staleness.RefusedMarker`);
- resending in time after long gaps (`AlertState.ResendExactly`; `AlertState.RunsOut`).

## Model

| member | source | states |
|---|---|---|
| `RuleSeries.AlertLabelValue` | rules/alerting.go:420-427 | every label of an alert: the alertname, else what the rule's label expands to, else that of the result's element |
| `RuleSeries.ForStateValue` | rules/alerting.go:251-272 | every label of an ALERTS_FOR_STATE sample: a rule's label that expands to nothing leaves its own text |
| `RuleSeries.WritesExactly` | rules/alerting.go:229-272 | the series a rule can write, asked label by label, are exactly those that recording and alerting rules build from some element, some expansion of the templates and a pending or firing state |
| `RuleSeries.SharedByKind` | rules/alerting.go:420-427 | two recording rules, or two alerting rules, can write one series exactly when they have one name and every label both set has one text, or, in alerting rules, a template on one side and no empty text |
| `RuleDependencies.NameMatcher` | rules/group.go:1120-1131 | the matcher the analysis uses for a selector: the metric name if it is written out, else the first matcher on the name label |
| `RuleDependencies.NameMatcherAccepts` | rules/group.go:1120-1131 | a series that a selector selects has a metric name its name matcher accepts |
| `RuleDependencies.AddDependents` | rules/group.go:1147-1157 | the inner loop: the rule is appended to the dependents of every other rule whose name the matcher accepts, and to no other |
| `RuleDependencies.InspectRule` | rules/group.go:1113-1161 | one rule's query: indeterminate exactly when some selector has no name matcher or one that accepts ALERTS or ALERTS_FOR_STATE; otherwise its dependencies are all recorded |
| `RuleDependencies.BuildDependencyMap` | rules/group.go:1103-1168 | no map exactly when some query is indeterminate; otherwise a rule is among another one's dependents exactly when one of its selectors matches the other one's name |
| `RuleDependencies.Dependencies` | rules/group.go:1067-1080 | exactly the rules that have the given rule among their dependents |
| `RuleDependencies.AnalysisIsSound` | rules/group.go:1103-1168 | unless the analysis gives up, a rule that can read another one's output is recorded as depending on it |
| `RuleDependencies.Group.AnalyseRules` | rules/manager.go:467-479 | every rule learns exactly its dependents and dependencies, or keeps both unknown when the analysis gives up |
| `RuleDependencies.Group.SplitGroupIntoBatches` | rules/manager.go:515-549 | the three index lists are built in one pass; once the rules are analysed the batches are those of the specification |
| `RuleDependencies.BatchOrder` | rules/manager.go:515-549 | one batch comes before another exactly when the places of their rules say so: no dependencies first, then one by one, no dependents last |
| `RuleDependencies.BatchesPartition` | rules/manager.go:515-549 | every rule index is in exactly one batch, once; no batch is empty; holds for every group |
| `RuleDependencies.BatchesIndependent` | rules/manager.go:515-549 | no batch holds two rules of which one can read the other's output; holds for every group |
| `RuleExecution.BatchesRefineSequential` | rules/group.go:666-691 | every run of the batches, with queries and commits of a batch interleaved in any way, leaves the store of the sequential evaluation, for all rule functions and stores, several rules writing one series included, when backward reads are serial and writers of one series keep the order of the group |
| `RuleExecution.BackwardReadBreaks` | rules/group.go:666-691 | a rule that can read a later rule's output, one of the two outside the one-by-one batches: there are rule functions and a run whose result differs from the sequential one |
| `RuleExecution.WritersOutOfOrderBreak` | rules/group.go:581-617 | two rules that can write one series, not in the order of the group across batches: there are rule functions and a run in which the sample of the later rule is kept, because the storage takes the first sample at a timestamp |
| `RuleExecution.ShareExactly` | rules/recording.go:91-103 | two rules of any kind can write one series exactly when they write under one metric name and what they ask of each label there can be met by one value |
| `RuleExecution.BatchesAgreeExactly` | rules/group.go:666-691 | the batches agree with the sequential evaluation for all rule functions, stores and interleavings if and only if every backward read is between rules that both run in batches of their own and rules that can write one series run in the order of the group |
| `RuleExecution.OrderedGroupAgrees` | rules/group.go:666-691 | if every recorded dependency points from a later rule to an earlier one, the batches agree with the sequential evaluation exactly when writers of one series run in the order of the group |
| `RuleExecution.PairAgrees` | rules/group.go:666-691 | two rules that read nothing run in one batch, and agree with the sequential evaluation exactly when they cannot write one series |
| `RuleExecution.TwoWritersDisagree` | rules/group.go:604-622 | two recording rules of one name without dependencies: they share a batch, and a run differs from the sequential evaluation |
| `RuleExecution.SeveritiesAgree` | rules/alerting.go:420-427 | one alert at two severities, written out as labels: the batches agree with the sequential evaluation |
| `RuleExecution.TemplatesDisagree` | rules/alerting.go:420-427 | with one of the severities a template, a run differs |
| `RuleExecution.BackwardReadDisagrees` | rules/group.go:666-691 | a recording rule that reads the one after it: a run of this group differs from the sequential evaluation |
| `RuleExecution.RunKeepsInv` | rules/group.go:666-691 | at every moment of every run each series written so far has the value of the first committed rule that writes it in the sequential evaluation, and what is pending is the sequential output of its rule |
| `RuleExecution.QuerySeesSequential` | rules/group.go:666-691 | a rule queried in its batch computes what it computes in the sequential run |
| `RuleExecution.CompleteRun` | rules/group.go:666-691 | every run can be completed: all batches finish |
| `SampleBuffer.SampleRing.constructor` | storage/buffer.go:287-305 | an empty ring with the given delta |
| `SampleBuffer.Doubled` | storage/buffer.go:559-567 | a full ring moved to a buffer of twice the size unrolls to the same samples |
| `SampleBuffer.SampleRing.Add` | storage/buffer.go:552-588 | the ring then holds its samples and the new one, without those older than the new one minus delta; growth and wrap-around included |
| `SampleBuffer.DropBeforeExactly` | storage/buffer.go:578-586 | of samples in time order those remain that are not older than the new one minus delta, as they were |
| `SampleBuffer.SampleRing.ReduceDelta` | storage/buffer.go:719-754 | a larger delta is refused and nothing changes; otherwise the samples older than the last one minus the new delta are dropped |
| `SampleBuffer.BufferedSeriesIterator.constructor` | storage/buffer.go:41-66 | a fresh iterator: nothing sought, an empty buffer of the given delta |
| `SampleBuffer.BufferedSeriesIterator.Next` | storage/buffer.go:115-137 | the current sample goes to the buffer; the buffer is the run of the series that ends at the new position |
| `SampleBuffer.BufferedSeriesIterator.Seek` | storage/buffer.go:85-112 | the iterator stands on the first sample at or after t and the buffer is a run of the series ending just before it that misses nothing from t - delta on |
| `SampleBuffer.BufferedSeriesIterator.Buffer` | storage/buffer.go:80-82 | the buffered samples, oldest first, are that run |
| `SampleBuffer.BufferedSeriesIterator.ReduceDelta` | storage/buffer.go:68-70 | the delta becomes the smaller of the two, and all that is known of the buffer still holds |
| `SampleBuffer.BufferedSeriesIterator.AtFloatHistogram` | storage/buffer.go:150-153 | the current histogram: copied into the object that is passed, or, for a series that hands out its own objects, in the series' own object with the other left alone |
| `Windows.WindowIsPrefix` | promql/engine.go:2384-2543 | the window (mint, maxt] computed from scratch is the points after mint of the samples up to maxt |
| `Windows.FloatWindow` | promql/engine.go:2466-2542 | the floats of a window are, in time order, exactly the float samples after mint and up to maxt that are not stale markers |
| `Windows.HistogramWindow` | promql/engine.go:2466-2542 | the histograms of a window are, in time order, exactly the histogram samples after mint and up to maxt that are not stale markers |
| `Windows.CollectedIsComplete` | promql/engine.go:2451-2497 | appending from a buffered run that overlaps what is already there, but only after the last point kept, gives each point once |
| `Windows.CompleteWindow` | promql/engine.go:2384-2543 | the points kept, those of the buffer and that of the sought sample are exactly the window from scratch |
| `Slots.TakeCopyKeeps` | promql/engine.go:2459-2479 | a copy into the first spare slot, or a new one, appends the point unless it is a stale marker; if no two slots have one object it reaches no other point, and so it is afterwards |
| `Slots.TakeRefExactly` | promql/engine.go:2500-2522 | storing an object handed out keeps the slots apart if and only if it is in no other slot |
| `Slots.TakeCopyExactly` | promql/engine.go:2459-2479 | whatever the slots share, a copy changes no point that is shown if and only if no point has the object it goes into, or it shows the same already |
| `Slots.CopiedExactly` | promql/engine.go:2451-2497 | whatever the slots share, while a buffer is copied in the points are at all times those there before and those copied so far if and only if every copy is so |
| `Slots.CopiedKeeps` | promql/engine.go:2451-2497 | all buffered histograms after the resume point are copied in, in order, and the slots stay apart |
| `Slots.SoughtKeeps` | promql/engine.go:2499-2527 | the sought histogram, copied or handed out, completes the points, and objects of the series not yet handed out are in no slot |
| `Slots.RotatedKeeps` | promql/engine.go:2422-2428 | the rotation of dropped slots is a permutation: the points are those not dropped, and no two slots share an object afterwards |
| `SlidingWindow.PushHistogram` | promql/engine.go:2464-2470 | appending a copy reuses the object of a spare slot when there is one; slots and objects are those of the model of numbered slots, shared or not |
| `SlidingWindow.PushCurrent` | promql/engine.go:2506-2518 | appending the sought sample stores whatever object AtFloatHistogram returns: the slot's own with a copy, or that of the series |
| `SlidingWindow.Evaluator.TakeSought` | promql/engine.go:2499-2540 | the sought sample is appended and counted if it lies exactly at maxt and is no stale marker, for iterators that copy and for those that hand out their objects, shared or not |
| `SlidingWindow.RotateOut` | promql/engine.go:2419-2428 | the slice then holds exactly the points after the dropped ones, with the same set of objects |
| `SlidingWindow.KeepHistograms` | promql/engine.go:2412-2437 | exactly the histograms after mint stay; collection resumes at the last of them; the sample count is charged the size of the retained points in the overlapping case |
| `SlidingWindow.Evaluator.KeepFloats` | promql/engine.go:2390-2410 | exactly the floats after mint stay, collection resumes at the last of them, and the sample count goes down by the number dropped |
| `SlidingWindow.Evaluator.AddHistogram` | promql/engine.go:2457-2479 | one buffered histogram point is copied in and counted, unless it is a stale marker, which gives its slot back |
| `SlidingWindow.Evaluator.CollectBuffered` | promql/engine.go:2451-2497 | the slices are what they were followed by the non-stale buffered samples after their resume points, unless the sample limit stops it |
| `SlidingWindow.Evaluator.Fill` | promql/engine.go:2444-2543 | from any retained part to exactly the window (mint, maxt], or the sample limit is exceeded, if the series copies its histograms out or no two of them have one object |
| `SlidingWindow.Evaluator.Retain` | promql/engine.go:2388-2437 | what is kept of an earlier window is the points after the new mint; sample count and weight of the slices then differ by Drift, which is zero when no histogram is retained |
| `SlidingWindow.Evaluator.MatrixIterSlice` | promql/engine.go:2384-2543 | moves the slices of an earlier window to exactly the window (mint, maxt] of the series, with the exact change of the sample count, for series that copy their histograms out or hand out objects that are not shared |
| `SlidingWindow.Evaluator.Step` | promql/engine.go:1832-1878 | one step of the per-series loop: window, call, then a buffer of no more than an interval; the slices are again the window of the step just made |
| `SlidingWindow.Evaluator.EvalSeries` | promql/engine.go:1810-1878 | for every grid, range, offset and series that copies its histograms out or hands out objects that are not shared: at every step up to the end the output has the float, or the histogram, that the range function gives on the window of that step, and no other point; both lists are in order, though slices, slots and buffer carry over and the buffer delta shrinks |
| `SlidingWindow.StepResultIs` | promql/engine.go:1810-1878 | what a step gives is the call on exactly the samples in (t - offset - range, t - offset] that are not stale markers, t being the first step when the selector has an @ modifier; nothing when there are none |
| `SlidingWindow.ShowsMore` | promql/engine.go:1862-1875 | one more step: a float result becomes a float point at the step, a histogram result a histogram point, no result no point |
| `SlidingWindow.OneOutput` | promql/engine.go:1810-1878 | the output is determined by the results of the steps |
| `SharedSlots.UnsharedExactly` | promql/engine.go:2271-2276 | the slots of a series that hands out its objects keep objects of their own through every step of every query if and only if no two of its histograms have one object |
| `SharedSlots.ApartShowsWindows` | promql/engine.go:2384-2543 | in that case every step of every query shows exactly the histograms of its window, as its objects hold them |
| `SharedSlots.SharedMeet` | promql/engine.go:2498-2527 | for any two histograms with one object there is a query whose second window holds that object in two slots |
| `SharedScrapes.WrongHistogram` | promql/engine.go:2498-2527 | a gauge histogram scraped at 0, 120 and 240 s, sum_over_time(h[2m:15s]) at 180, 225, 270 and 315 s: at the last step the point of 225 s shows the scrape of 240 s |
| `RangeEval.GatherVector` | promql/engine.go:3952-3984 | the heads at ts, in order, and every series that had one is moved past it, each counted; fails exactly when that exceeds the sample limit |
| `RangeEval.HeadsAreVector` | promql/engine.go:3952-3984 | the heads of cursors that follow their series are exactly the points of the series at ts |
| `RangeEval.PopsTrack` | promql/engine.go:3952-3984 | cursors moved past ts follow their series from the next step on |
| `RangeEval.AddVector` | promql/engine.go:1347-1361 | fails exactly when the step yields two samples with one labelset; otherwise every sample extends the series of its labels and no other series changes, and the series grow by no more than the size of the vector |
| `RangeEval.ContainsSameLabelset` | promql/value.go:271-288 | true exactly when two samples have the same labels |
| `RangeEval.AddShows` | promql/engine.go:3568-3580 | appending the value of a step to a series that shows all steps before it gives one that shows this one too, still sorted on the grid with floats and histograms apart |
| `RangeEval.StepBuilds` | promql/engine.go:1347-1361 | after a step the output series show exactly the results of the steps so far, one series per labelset seen |
| `RangeEval.FirstNames` | promql/engine.go:1348-1361 | whether a series drops its name is taken from the first step that has a sample of its labelset |
| `RangeEval.Assemble` | promql/engine.go:1371-1376 | the matrix holds each output series once, and its size is that of the series |
| `RangeEval.InstantMatrix` | promql/engine.go:1329-1345 | a single step gives one series with one point per sample, in the order of the result |
| `RangeEval.Step` | promql/engine.go:1291-1362 | one step fails exactly with its first error, too many samples or a duplicate labelset; otherwise inputs, output and the samples held are as after the step |
| `RangeEval.NoErrorExactly` | promql/engine.go:1291-1362 | no step fails if and only if at every step the samples held by inputs and earlier results, the gathered ones and the result fit into the limit, and no two samples of the result have one labelset |
| `RangeEval.RangeEval` | promql/engine.go:1229-1378 | it fails exactly with the first error of its steps; otherwise the matrix shows exactly the per-step results, drops names as the first sample of each series says and satisfies the input condition again, only the output stays counted, and that keeps to the limit; with one step it is that step's vector |
| `Subquery.AlignedStartIsLeast` | promql/engine.go:2072-2077 | with division that truncates toward zero and any sign, the inner start is the least multiple of the step strictly greater than start - offset - range |
| `Subquery.SameInnerSteps` | promql/engine.go:2066-2077 | within the range of one outer step, the shared aligned grid and the grid of a subquery for that step alone have the same times |
| `Subquery.StorageSeriesIterator.constructor` | promql/value.go:435-453 | nothing is yielded yet and everything is ahead |
| `Subquery.StorageSeriesIterator.Next` | promql/value.go:486-532 | yields the next of floats and histograms merged by time, with its kind, until nothing is left |
| `Subquery.StorageSeriesIterator.Seek` | promql/value.go:455-468 | stops at the first sample at or after t of those not passed before; what it passes is before t |
| `Subquery.MergeSorted` | promql/value.go:486-532 | the merged read-back of a series with floats and histograms in order and apart is strictly sorted |
| `Subquery.WindowOfMerge` | promql/value.go:486-532 | a window of the merged read-back holds exactly the float and histogram points in the window that are not stale |
| `Subquery.OnePassServesAllSteps` | promql/engine.go:2051-2090 | for every outer step the shared pass, read back and cut to the step's range, gives the floats and histograms of a subquery evaluated for that step alone |
| `Subquery.OwnIsSeen` | promql/engine.go:2051-2090 | and of that subquery every point that is no stale marker is in the range |
| `Subquery.ReadBackIsSorted` | promql/engine.go:1582-1632 | the result of the pass, read back as a series, is sorted as the sliding window needs it |
| `Subquery.OutputOverSubquery` | promql/engine.go:1810-1878 | an output over the shared pass has at every step of the outer query what the range function gives on the subquery of that step alone, and no other point, if and only if it is the output over the pass |
| `Subquery.EvalOverSubquery` | promql/engine.go:1582-1878 | the sliding window over the pass read back computes that output, or exceeds the sample limit, if no two of its histograms have one object |
| `StepInvariant.InnerTimesExactly` | promql/engine.go:2051-2077 | the inner evaluation times of a subquery are exactly the multiples of its step in its range |
| `StepInvariant.InTimeValue` | promql/engine.go:3720-3802 | a tree of which every selector, subquery and function of time is computed at the time it is about has the value it means, for values of any type |
| `StepInvariant.FreeIsInTime` | promql/engine.go:3720-3802 | and in the interpretation that keeps everything apart only such a tree has |
| `StepInvariant.QualifiesExactly` | promql/engine.go:3720-3802 | what qualifies to be wrapped is exactly what means the same at all times, whatever the functions do: for every expression without parameters other than numbers, info and date functions of an argument |
| `StepInvariant.RewriteExactly` | promql/engine.go:3702-3802 | for every query, with subqueries, @ modifiers and parameters anywhere, the rewrite preserves the meaning at every step, whatever the functions do, if and only if at every step every part of the rewritten tree is computed at the time it is about |
| `StepInvariant.RewritePreserves` | promql/engine.go:3702-3802 | for every sound expression tree and position inside subqueries, the rewritten tree with wrapped nodes evaluated once at the start computes the meaning of the original |
| `StepInvariant.StepInvariantRewriteIsSound` | promql/engine.go:3702-3802 | the whole rewrite of a sound query, parameters pinned by @ included, computes at every step what the query means at that step, for every interpretation in which only functions of time depend on time |
| `TimeFunctions.OfTimeExactly` | promql/functions.go:62-66 | of the functions as they are implemented, exactly time, the date functions without argument, timestamp, predict_linear and info can give different results at different times for the same arguments |
| `StepInvariant.UnsafeExactly` | promql/functions.go:1781-1795 | the table of functions unsafe with @ has exactly the functions that can look at the time, except for info |
| `StepInvariant.CallsOfTime` | promql/engine.go:3749-3772 | a call that looks at the time, other than of info, is never wrapped |
| `StepInvariant.EngineIsSafe` | promql/functions.go:1781-1795 | with the functions as they are implemented, only functions of time look at the time |
| `StepInvariant.EngineRewriteIsSound` | promql/engine.go:3702-3802 | with the functions as they are implemented, the rewrite of a sound query computes at every step what the query means there |
| `StepInvariant.InfoExactly` | promql/info.go:124-198 | info over an argument that is the same at every step is wrapped, and right at every step exactly when the query has one step, since it joins the info series of the evaluation time |
| `StepInvariant.InfoIsFrozen` | promql/info.go:124-198 | info(m @ 10) from 0 to 60: the last step is given the info series of the first |
| `StepInvariant.PlainIsSound` | promql/engine.go:3811-3845 | trees with @ modifiers outside subqueries only, and aggregation parameters with timestamps where they are wrapped and without @ elsewhere, are sound |
| `StepInvariant.FitsInside` | promql/engine.go:2079-2084 | going into a subquery keeps the offsets of @ selectors right exactly when they are set again there or the subquery has no offset |
| `StepInvariant.AtSubqueryExactly` | promql/engine.go:2079-2084 | a selector with @ inside a subquery is read at its time at every step of the query if and only if the subquery has no offset, its aligned start differs from the query's start, or no step has an inner step in its window |
| `StepInvariant.AtSubqueryReads` | promql/engine.go:2079-2084 | in the other case it is read exactly the subquery's offset too late |
| `StepInvariant.AtSubqueryMisreads` | promql/engine.go:2079-2084 | a query from 0 to 15 with steps of 15 over m @ ts in a subquery of range 5, offset 5 and step 10: at 15 it reads m at ts + 5 |
| `StepInvariant.FrozenParameter` | promql/engine.go:3731-3732 | a time-dependent parameter of a wrapped aggregation is computed once: a query for which the rewrite changes the value |
| `StepInvariant.ParameterExactly` | promql/engine.go:3731-3732 | in a wrapped aggregation a parameter without subqueries keeps its meaning at every step of the query, whatever the functions do, if and only if it has neither selectors without @ nor functions of time, or the query has one step, and it has no selectors with @ end(), or start and end are the same |
| `StepInvariant.MovingParameter` | promql/engine.go:3731-3732 | in an aggregation that is not wrapped, a parameter read at a fixed time is right at one step only, because the rewrite does not look at it |
| `StepInvariant.CopyToSteps` | promql/engine.go:2091-2156 | the single point of a wrapped expression is copied to every step of the grid and to no other time |
| `TimeRange.SubqueryTimes` | promql/engine.go:843-866 | offsets and ranges of the subqueries on the path add up, from the innermost @ inwards |
| `TimeRange.GetTimeRangesForSelector` | promql/engine.go:903-942 | the range of one selector as the specification gives it, for instant and range selectors and @ modifiers |
| `TimeRange.Walk` | promql/parser/ast.go:331-347 | the recursive traversal leaves the state of the specification's visit, including the range that a matrix selector leaves for its child |
| `TimeRange.RangeCoversReads` | promql/engine.go:871-901 | every sample timestamp that any selector can use at any inner evaluation time, with nested subqueries, offsets of any sign and @ timestamps on selectors and subqueries, lies within the visited range |
| `TimeRange.FindMinMaxTime` | promql/engine.go:871-901 | the returned range is the visited one, or zero when there is no selector, and covers every read of every expression |
| `TimeRange.EarliestIsRead` | promql/engine.go:871-901 | the lower end is not too early: a read is at most the steps of the subqueries after it, and without subqueries it is itself the time of a read |
| `TimeRange.LatestIsRead` | promql/engine.go:871-901 | the upper end is not too late: a read is at most the steps of the subqueries, and the way from the last step to the end of the query, before it |
| `TopK.NoBetterIsPreorder` | promql/functions.go:1796-1834 | the order of the heap, NaN worst in both directions, is total and transitive, and Less is its strict part |
| `TopK.RootIsWorst` | promql/functions.go:1796-1854 | the root of the heap is no better than any element |
| `TopK.KeepBest` | promql/engine.go:3375-3406 | a heap of the best k of the samples so far becomes one of the best k with the new sample, for topk and bottomk |
| `TopK.SortBestFirst` | promql/engine.go:3463-3485 | the heap is emitted best first, as a permutation |
| `TopK.DemandOf` | promql/engine.go:3293-3327 | unusable exactly for NaN, and for all but limit_ratio infinities and numbers that do not fit into 64 bits; otherwise min(k, number of series) for the integer k below the parameter, or the parameter cut to [-1, 1]; nothing below one, or at zero |
| `TopK.AddSample` | promql/engine.go:3329-3434 | a group holding what it should of the samples so far does so with one more sample; its first sample included |
| `TopK.CompleteIsFinal` | promql/engine.go:3408-3425 | once every group of limitk is complete, the samples still to come change no group |
| `TopK.NextValues` | promql/engine.go:3582-3594 | the head at ts, and the cursor moved past it |
| `TopK.SeriesLoop` | promql/engine.go:3284-3435 | fails exactly on a bad parameter and a non-empty vector; otherwise every group holds what it should of all series, and unless it is the last step every series is moved past ts, also on the early exits |
| `TopK.AggregationK` | promql/engine.go:3267-3494 | an error exactly for a parameter that cannot be used when there is a sample; with k the integer below the parameter every group emits exactly min(k, n) of its n float samples, largest first and none smaller than one left out (topk), smallest first (bottomk), NaN last in both, or its first min(k, n) samples (limitk), and nothing for k < 1; limit_ratio emits the sampled ones for the parameter cut to [-1, 1], nothing at 0; after a step that is not the last no series has a head at its timestamp |
| `TopK.BestIsPicked` | promql/functions.go:1796-1854 | best in the order of the heap is largest for topk, smallest for bottomk, and NaN last |
| `AlertState.Collect` | rules/alerting.go:388-450 | fails exactly when two elements have the same labels; otherwise the map holds each element under its labels |
| `AlertState.Transition` | rules/alerting.go:469-516 | what becomes of one active alert, present or absent, and whether it counts, as the functions of which `AlertState.AfterIsTold` speaks |
| `AlertState.AfterIsJustified` | rules/alerting.go:455-516 | one evaluation keeps, for every alert: Firing only if its labels were in every result from activeAt to firedAt and that lasted the hold duration; Inactive exactly when resolvedAt is set; Pending only if present; resolved at most 15 minutes ago |
| `AlertState.AfterIsTold` | rules/alerting.go:455-516 | one evaluation keeps the alert of a labelset what the results alone ask for: one that is pending or firing since what goes on began, one that is resolved for up to 15 minutes, or none |
| `AlertHistory.InResult` | rules/alerting.go:455-467 | a labelset in the last result has an alert that is not resolved, with the value and annotations of its element, active since its presence began; without keep_firing_for that is a presence without gaps |
| `AlertHistory.FiringAbsent` | rules/alerting.go:469-505 | an alert that was firing and is not in the result is firing still exactly while its absence has lasted less than keep_firing_for, and otherwise Inactive, resolved at this evaluation |
| `AlertHistory.ResolvedStays` | rules/alerting.go:497-499 | a resolved alert that does not come back is there, with the first evaluation at which it was not kept as resolvedAt, exactly until it has been resolved for more than 15 minutes |
| `AlertState.CountingExactly` | rules/alerting.go:506-527 | what counts against the limit are the alerts that are pending or firing after the evaluation |
| `AlertState.AlertingRule.constructor` | rules/alerting.go:152-176 | no active alerts and an empty history |
| `AlertState.AlertingRule.Eval` | rules/alerting.go:374-530 | after any run of evaluations the alert of every labelset is the one its results ask for, there when it has to be and not otherwise, and justified by the whole history; failed queries and duplicate labels change nothing; exceeding the limit drops all alerts and starts over |
| `AlertState.AlertingRule.SendAlerts` | rules/alerting.go:593-611 | exactly the alerts that need sending are handed over, with their new validUntil, and only these are marked as sent: of those sent before, the ones resolved since or sent longer than the resend delay ago |
| `AlertState.AlertingRule.EvalAndSend` | rules/group.go:538-559 | an evaluation and the sending after it: every alert that starts to fire is sent at once, with its start and an end 4 * max(resendDelay, interval) ahead, every alert that ends at once with its end, and no pending one |
| `AlertState.OfferAll` | rules/manager.go:431-454 | each alert handed over carries validUntil as its end, or resolvedAt when it is resolved |
| `AlertState.ResendExactly` | rules/alerting.go:94-105 | a continuously firing alert is always sent again before what was last sent for it runs out if and only if successive evaluations are at most 4 * max(resendDelay, interval) - resendDelay apart |
| `AlertState.TwoMissedEvaluations` | rules/alerting.go:593-611 | evaluations up to three intervals apart, two missed, are always in time |
| `AlertState.RunsOut` | rules/alerting.go:593-611 | with a larger gap there is a schedule on which it runs out |
| `Staleness.AppendResult` | rules/group.go:581-617 | the samples of a result that the storage takes become live, and exactly these are remembered |
| `Staleness.AppendStale` | rules/group.go:625-644 | exactly the remembered series whose stale marker the storage takes stop being live |
| `Staleness.StepKeepsTrack` | rules/group.go:566-644 | a step forgets no live series if and only if every refused stale marker is for a series another rule or the queue knows |
| `Staleness.RefusedMarker` | rules/group.go:625-644 | a rule that writes a series and then returns nothing, with the stale marker refused: the series stays live and the group no longer knows it |
| `Staleness.NoSeriesForgotten` | rules/group.go:566-644 | over any run of evaluations, cleanups and reloads without such refusals, every live series is in some rule's previous result or in the stale queue |
| `Staleness.Group.EvalRule` | rules/group.go:566-644 | one evaluation of one rule is that step of the run, or nothing when the query or the commit fails |
| `Staleness.Group.CleanupStaleSeries` | rules/group.go:710-740 | one cleanup is that step, or nothing when the queue is empty or the commit fails |
| `Staleness.MatchRules` | rules/group.go:466-490 | each rule inherits the series of the old rule of the same name and labels with the same rank among its equals |
| `Staleness.Group.CopyState` | rules/group.go:459-506 | a reload is that step: duplicated, reordered and deleted rules hand every series to a new rule or to the queue |
| `Staleness.ReloadCarriesOver` | rules/group.go:459-506 | matching by rank and queueing the surplus of old rules loses no series |
| `Staleness.Group.MarkStale` | rules/group.go:228-241 | a group that ends queues all it remembers |
| `Notifier.Enqueue` | notifier/manager.go:316-333 | the queue becomes the newest alerts of queue and batch up to the capacity, in order, and the number dropped is returned |
| `Notifier.Manager.constructor` | notifier/manager.go:95-128 | an empty queue, no signal, nothing dropped, the loop waiting |
| `Notifier.Manager.Send` | notifier/manager.go:307-337 | keeps: each accepted alert is in exactly one of queue, batch in flight, delivered, or dropped and counted; the queue is the newest accepted ones; a waiting loop with a non-empty queue has the signal |
| `Notifier.Manager.SetMore` | notifier/manager.go:340-347 | the one-slot signal is set afterwards, whether or not it was before |
| `Notifier.Manager.Wake` | notifier/manager.go:230-235 | the loop takes the signal |
| `Notifier.Manager.NextBatch` | notifier/manager.go:180-195 | the oldest alerts, up to the batch size, leave the queue for the batch in flight |
| `Notifier.Manager.SendAll` | notifier/manager.go:264-270 | a batch is delivered, or counted as dropped |
| `Notifier.Manager.CheckQueue` | notifier/manager.go:237-240 | after a batch the loop waits only if it saw an empty queue; otherwise it sets the signal first |
| `Notifier.Manager.Signal` | notifier/manager.go:237-240 | the loop waits with the signal set |
| `Notifier.Manager.Stop` | notifier/manager.go:223-232 | a loop that waits turns to draining |
| `Notifier.Manager.DrainQueue` | notifier/manager.go:272-289 | draining ends with an empty queue and every accepted alert delivered or dropped; without failures nothing more is dropped; without draining the rest is counted as dropped |
| `Notifier.NewestOfBoth` | notifier/manager.go:316-333 | cutting the batch first and then the queue keeps exactly the newest of both |
| `Discovery.UpdateGroup` | discovery/manager.go:389-409 | groups with targets replace those of the same source, empty ones remove them, nil ones are skipped |
| `Discovery.UpdatedExactly` | discovery/manager.go:396-408 | after an update a source has the last group sent for it, or none if that has no targets; a source that is not mentioned keeps what it had |
| `Discovery.FoldExactly` | discovery/manager.go:389-409 | what is stored for a source is what the provider has last sent about it, over all its updates |
| `Discovery.StepKeepsStore` | discovery/manager.go:204-349 | every step of updaters, ApplyConfig and cleaners keeps: each subscription stores the fold of all updates of its provider, and there are no keys of others |
| `Discovery.StepKeepsRoster` | discovery/manager.go:204-279 | outside ApplyConfig exactly the providers run; inside, also those not yet cleaned |
| `Discovery.StepKeepsTrigger` | discovery/manager.go:335-377 | every step keeps: the trigger is set, or what the sender has read or delivered is current except for providers about to pull the trigger |
| `Discovery.RunKeepsInv` | discovery/manager.go:204-443 | all three hold in every reachable state of every interleaving |
| `Discovery.LateSubscribers` | discovery/manager.go:204-279 | in every reachable state, each subscription of a provider that is not in the middle of an update stores the fold of all updates the provider delivered since it started, whichever reload added it |
| `Discovery.KeysAreCleaned` | discovery/manager.go:276-349 | when no ApplyConfig is under way no stored key belongs to a removed provider or subscription |
| `Discovery.NoLostUpdate` | discovery/manager.go:337-377 | whenever nobody is in the middle of a step and what would be sent differs from what was last delivered, the trigger is set |
| `Discovery.CanDeliver` | discovery/manager.go:351-377 | whenever the trigger is set and no configuration is being applied, the sender can get to deliver what is current, and nothing else changes |
| `Discovery.CanUpdate` | discovery/manager.go:321-349 | a provider that waits can take any update to its end, whatever the others are doing: it is then part of its history and the trigger is set |
| `Discovery.RunKeepsSubscribed` | discovery/manager.go:204-280 | in every reachable state a provider that runs has a subscription |
| `Discovery.CanApply` | discovery/manager.go:204-280 | from every quiescent state a new configuration can be applied to its end: providers and subscriptions are then those that are wanted, those cancelled are cleaned, and the sender is told |
| `Quantile.SortBuckets` | promql/quantile.go:116-125 | sorted by bound, as a rearrangement |
| `Quantile.CoalesceBuckets` | promql/quantile.go:532-546 | in place: each bound once, strictly increasing, with the sum of its counts |
| `Quantile.EnsureMonotonic` | promql/quantile.go:574-601 | in place, for any almost-equal relation: same bounds, each count its level; both flags exactly when a count was raised or ignored |
| `Quantile.LevelsRise` | promql/quantile.go:574-601 | repaired counts do not fall |
| `Quantile.LevelsOfMonotone` | promql/quantile.go:574-601 | counts that rise and are nowhere almost equal are left alone |
| `Quantile.StepsAreLarge` | promql/quantile.go:574-601 | after the repair a count is that of the bucket before, or its own and larger by more than the tolerance |
| `Quantile.UnchangedExactly` | promql/quantile.go:574-601 | the repair changes no count exactly when it raises no flag |
| `Quantile.Search` | promql/quantile.go:142-142 | binary search: the first bucket but the last that reaches the rank, or the last |
| `Quantile.RepairedIsProper` | promql/quantile.go:106-141 | sorting, merging and repairing arbitrary non-negative buckets with a +Inf bound gives buckets on which the quantile is defined |
| `Quantile.QuantileRises` | promql/quantile.go:141-160 | the quantile does not fall as q grows over (0, 1] and is never above the second-highest bound |
| `Quantile.QuantileAbove` | promql/quantile.go:143-145 | a rank above all bounds but the last gives the highest finite bound |
| `Quantile.QuantileInLowest` | promql/quantile.go:146-159 | in the lowest bucket the quantile lies the rank's part of the way from zero to its bound, or at the bound when that is not positive |
| `Quantile.QuantileInside` | promql/quantile.go:149-159 | in any other bucket it lies that part of the way between its bounds |
| `Quantile.QuantileAtZero` | promql/quantile.go:153-160 | at q = 0 it is a number if and only if the lowest bucket is not an empty one with a positive bound |
| `Quantile.NoQuantileAtZero` | promql/quantile.go:153-160 | one observation above an empty bucket up to 1: the quantile at 0 is not a number |
| `Quantile.BucketQuantile` | promql/quantile.go:106-160 | NaN and out-of-range q, a missing +Inf bound, fewer than two bounds and no observations as the code treats them; otherwise the quantile of the repaired buckets, with the flags of the repair |
| `Quantile.BucketFraction` | promql/quantile.go:452-527 | the loop over the buckets gives the fraction of the merged buckets between two values, and its error cases |
| `Quantile.WholeFraction` | promql/quantile.go:452-527 | the fraction between -Inf and +Inf is one |
| `Quantile.FractionsAdd` | promql/quantile.go:452-527 | fractions of adjacent ranges add up |
| `Quantile.FractionAtBounds` | promql/quantile.go:491-500 | between two bounds of buckets lie the observations of the buckets between them |
| `Quantile.FractionInBucket` | promql/quantile.go:487-513 | from the lower bound of a bucket to a value in it lies the part of its observations that the value is of the way |
| `Quantile.FractionOutside` | promql/quantile.go:480-526 | below the lowest bound there is no number, above the highest finite one nothing more |
| `Quantile.RankOfQuantile` | promql/quantile.go:475-516 | reading a quantile back gives its rank if and only if it falls in neither the lowest nor the highest bucket, or exactly fills the lowest |
| `Quantile.FractionOfQuantile` | promql/quantile.go:475-527 | on one list of proper buckets the fraction below the quantile is q if and only if the quantile falls in neither the lowest nor the highest bucket, or exactly fills the lowest |
| `Quantile.PreparedOnce` | promql/quantile.go:116-125 | sorted and merged buckets are determined by the given ones, whatever their order |
| `Quantile.FractionBelowQuantile` | promql/quantile.go:452-527 | for the same given buckets BucketFraction(-Inf, BucketQuantile(q)) is q if and only if there is a quantile and the rank read back from the merged counts, of the bucket it falls in, the one below and the last, is the part q of their total |
| `Quantile.RecoversInside` | promql/quantile.go:452-527 | where the repair leaves those three counts alone, that is the case exactly when the quantile falls in neither the lowest nor the highest bucket, or exactly fills the lowest |
| `Quantile.SettledRecovers` | promql/quantile.go:452-527 | in particular for merged counts that rise and are nowhere almost equal |
| `Quantile.RepairedIsNotInverse` | promql/quantile.go:452-527 | counts 1, 5, 3, 7, 8: the fraction below the 0.75-quantile is 0.625, because only the quantile is taken of repaired counts |
| `Quantile.LowerIsRecovered` | promql/quantile.go:452-527 | and that below the 0.375-quantile of the same counts is 0.375 |
| `Wire.VarintRoundTrip` | prompb/types.pb.go:2020-2030 | every 64-bit number written as a varint, up to ten bytes, is read back, whatever follows |
| `Format.VarintBytes` | prompb/types.pb.go:2020-2030 | a varint has the groups of seven bits of its number, the lowest first, as many as are needed, and the high bit set in every byte but the last |
| `Format.FixedBytes` | prompb/types.pb.go:1313-1318 | a fixed64 has the eight bytes of its number, the lowest first |
| `Wire.SovIsLength` | prompb/types.pb.go:2405-2407 | the precomputed size of a varint is its length |
| `Wire.ZigZagRoundTrip` | prompb/types.pb.go:2408-2410 | zigzag is undone, and keeps 32-bit and 64-bit numbers in range |
| `Wire.SignedRoundTrip` | prompb/types.pb.go:1309-1313 | a negative number written as an unsigned 64-bit one is read back as a 64-bit or 32-bit one |
| `Wire.VarintsRoundTrip` | prompb/types.pb.go:1431-1449 | packed varints are read back in order, exactly to the end of the record |
| `Wire.FieldRoundTrip` | prompb/types.pb.go:2773-3352 | every field of an expected kind is read back with its number, whatever follows |
| `Wire.UnknownRoundTrip` | prompb/types.pb.go:4437-4515 | a field that is not expected is skipped as a whole and kept byte for byte |
| `Wire.UnexpectedIsWhole` | prompb/types.pb.go:4437-4515 | fields that a newer sender writes after those expected are such elements: they are kept whole |
| `Wire.SkipIsStable` | prompb/types.pb.go:4437-4515 | what is skipped, fields, nested groups and overlong varints alike, depends on its own bytes only |
| `Wire.UnrecognizedIsWhole` | prompb/types.pb.go:3336-3345 | from whatever bytes, what a message keeps as unrecognized is a sequence of whole elements that are skipped again |
| `Wire.MessageRoundTrip` | prompb/types.pb.go:2773-3352 | a message written as its fields followed by whole unknown ones is read as those fields applied in order, with the same unknown bytes |
| `Messages.LabelRoundTrip` | prompb/types.pb.go:3631-3745 | every Label that fits its types, with whole unknown fields, is read back as it was written |
| `Messages.SampleRoundTrip` | prompb/types.pb.go:2577-2657 | every Sample that fits its types, with whole unknown fields, is read back as it was written, but for negative zeros in singular floats |
| `Messages.ExemplarRoundTrip` | prompb/types.pb.go:2658-2772 | every Exemplar that fits its types, with whole unknown fields, is read back as it was written, but for negative zeros in singular floats |
| `Messages.BucketSpanRoundTrip` | prompb/types.pb.go:3353-3443 | every BucketSpan that fits its types, with whole unknown fields, is read back as it was written |
| `Messages.MetadataRoundTrip` | prompb/types.pb.go:2411-2576 | every MetricMetadata that fits its types, with whole unknown fields, is read back as it was written |
| `Messages.HistogramRoundTrip` | prompb/types.pb.go:2773-3352 | every Histogram that fits its types, with whole unknown fields, is read back as it was written, but for negative zeros in singular floats |
| `Messages.TimeSeriesRoundTrip` | prompb/types.pb.go:3444-3630 | every TimeSeries that fits its types, with whole unknown fields, is read back as it was written, but for negative zeros in singular floats |
| `Messages.WriteRequestRoundTrip` | prompb/remote.pb.go:913-1031 | the same for the whole request tree |
| `Format.LabelFormat` | prompb/types.pb.go:1730-1754 | the bytes of a label: 0x0a and the name, 0x12 and the value, each with its length and left out when empty, then what is not known |
| `Format.SampleFormat` | prompb/types.pb.go:1300-1321 | the bytes of a sample: 0x09 and the value as fixed64, 0x10 and the timestamp as varint, left out when zero |
| `Format.ExemplarFormat` | prompb/types.pb.go:1338-1373 | the bytes of an exemplar: a record 0x0a for each label, 0x11 and the value, 0x18 and the timestamp |
| `Format.BucketSpanFormat` | prompb/types.pb.go:1610-1630 | the bytes of a span: 0x08 and the zigzag offset, 0x10 and the length |
| `Format.MetadataFormat` | prompb/types.pb.go:1247-1283 | the bytes of metadata: 0x08 and the type, 0x12, 0x22 and 0x2a with family name, help and unit |
| `Format.HistogramFormat` | prompb/types.pb.go:1390-1583 | the bytes of a histogram, field by field from 0x08 or 0x11 for the count to the two-byte tag 0x82 0x01 of the custom values |
| `Format.TimeSeriesFormat` | prompb/types.pb.go:1647-1713 | the bytes of a series: records 0x0a, 0x12, 0x1a and 0x22 for labels, samples, exemplars and histograms |
| `Format.WriteRequestFormat` | prompb/remote.pb.go:472-510 | the bytes of a request: a record 0x0a for each series, 0x1a for each metadata |
| `Reading.LabelReads` | prompb/types.pb.go:3631-3745 | from fields in any order and number, name and value are those of the last field 1 and the last field 2 |
| `Reading.SampleReads` | prompb/types.pb.go:2577-2657 | from fields in any order and number, value and timestamp are those of their last fields |
| `Reading.BucketSpanReads` | prompb/types.pb.go:3353-3443 | from fields in any order and number, offset and length are those of their last fields, cut to 32 bits |
| `Reading.MetadataReads` | prompb/types.pb.go:2411-2576 | from fields in any order and number, each of the four values is that of its last field |
| `Reading.ExemplarReads` | prompb/types.pb.go:2658-2772 | from fields in any order and number: it fails exactly when some label does, else it has all labels in order and the last value and timestamp |
| `Reading.HistogramReads` | prompb/types.pb.go:2773-3352 | from fields in any order and number: it fails exactly when some span does, else single values are those of their last fields, oneofs that of the last member, and spans, deltas, counts and custom values those of all their fields in order |
| `Reading.TimeSeriesReads` | prompb/types.pb.go:3444-3630 | from fields in any order and number: it fails exactly when a record does, else it has the records of each kind in order |
| `Reading.WriteRequestReads` | prompb/remote.pb.go:913-1031 | from fields in any order and number: it fails exactly when a record does, else it has the series and the metadata in order |
| `Reading.WriteRequestFrom` | prompb/remote.pb.go:913-1031 | the bytes of such fields, followed by fields that are not known, are read as that request, with what is not known kept |
| `Messages.RoundTripExactly` | prompb/remote.pb.go:913-1031 | reading back gives the same request if and only if no singular float in it is a negative zero |
| `Messages.NegativeZeroIsLost` | prompb/types.pb.go:1300-1321 | a request with one sample of -0 is written as the bytes 10, 2, 18, 0 and read back with a sample of 0 |
| `Decoded.FieldInRange` | prompb/types.pb.go:2773-3352 | whatever the bytes, the values of an expected field are in the range of its type |
| `Decoded.DecodedIsGood` | prompb/remote.pb.go:913-1031 | whatever the bytes, a request that is accepted is one the round trip is about, down to its nested messages and unknown bytes |
| `Decoded.RelayExactly` | prompb/remote.pb.go:457-1031 | a request read from any bytes and written again is read as it was if and only if it has no negative zero |
| `Decoded.SecondRelayIsExact` | prompb/remote.pb.go:457-1031 | after one round trip, reading and writing again changes neither request nor bytes |
| `Marshal.PutVarint` | prompb/types.pb.go:2020-2030 | the varint stands just before the offset, its start is returned and no other byte changes |
| `Marshal.PutTag` | prompb/types.pb.go:1406-1409 | a tag constant of one or two bytes is the varint of field number and wire type |
| `Marshal.PackDeltas` | prompb/types.pb.go:1432-1443 | the scratch buffer, ten bytes a number, is never overrun and starts with the packed zigzag varints |
| `Marshal.PutFixedsField` | prompb/types.pb.go:1399-1410 | packed floats from the last to the first, then length and tag; left out when there are none |
| `Marshal.PutDeltasField` | prompb/types.pb.go:1431-1449 | packed deltas, then length and tag; left out when there are none |
| `Marshal.PutLabel` | prompb/types.pb.go:1730-1754 | MarshalToSizedBuffer: the encoding stands just before the end, its size is returned and no other byte changes |
| `Marshal.PutSample` | prompb/types.pb.go:1300-1321 | MarshalToSizedBuffer: the encoding stands just before the end, its size is returned and no other byte changes |
| `Marshal.PutExemplar` | prompb/types.pb.go:1338-1373 | MarshalToSizedBuffer: the encoding stands just before the end, its size is returned and no other byte changes |
| `Marshal.PutBucketSpan` | prompb/types.pb.go:1610-1630 | MarshalToSizedBuffer: the encoding stands just before the end, its size is returned and no other byte changes |
| `Marshal.PutMetadata` | prompb/types.pb.go:1247-1283 | MarshalToSizedBuffer: the encoding stands just before the end, its size is returned and no other byte changes |
| `Marshal.PutHistogram` | prompb/types.pb.go:1390-1543 | MarshalToSizedBuffer: the encoding stands just before the end, its size is returned and no other byte changes |
| `Marshal.PutTimeSeries` | prompb/types.pb.go:1647-1713 | MarshalToSizedBuffer: the encoding stands just before the end, its size is returned and no other byte changes |
| `Marshal.PutHistograms` | prompb/types.pb.go:1657-1670 | one record per element, written from the last to the first |
| `Marshal.PutWriteRequest` | prompb/remote.pb.go:472-510 | MarshalToSizedBuffer of a request: the encoding stands just before the end and no other byte changes |
| `Sizes.SizeLabel` | prompb/types.pb.go:2258-2277 | Size is the length of the encoding |
| `Sizes.SizeSample` | prompb/types.pb.go:2058-2075 | Size is the length of the encoding |
| `Sizes.SizeExemplar` | prompb/types.pb.go:2076-2099 | Size is the length of the encoding |
| `Sizes.SizeBucketSpan` | prompb/types.pb.go:2204-2221 | Size is the length of the encoding |
| `Sizes.SizeMetadata` | prompb/types.pb.go:2031-2057 | Size is the length of the encoding |
| `Sizes.SizeHistogram` | prompb/types.pb.go:2100-2167 | Size is the length of the encoding |
| `Sizes.SizeTimeSeries` | prompb/types.pb.go:2222-2257 | Size is the length of the encoding |
| `Sizes.SizeDeltas` | prompb/types.pb.go:2127-2133 | the sum of the sizes is the length of the packed varints |
| `Sizes.SizeWriteRequest` | prompb/remote.pb.go:773-796 | Size is the length of the encoding |
| `Sizes.MarshalWriteRequest` | prompb/remote.pb.go:457-466 | Marshal fills exactly Size() bytes with the encoding |
| `Unmarshal.ReadVarintAt` | prompb/types.pb.go:2778-2793 | the inline loop reads what the specification reads: errors, ten-byte limit and bits lost above 64 included |
| `Unmarshal.ReadVarintsAt` | prompb/types.pb.go:2997-3015 | the loop over packed varints, the last of which may run past the record but not past the message |
| `Unmarshal.SkipAt` | prompb/types.pb.go:4437-4515 | skipTypes: nested groups, elements that run past the end and all errors as specified |
| `Unmarshal.ReadFieldAt` | prompb/types.pb.go:2776-2803 | tag, wire type and body of one field, or its error |
| `Unmarshal.Unmarshal` | prompb/types.pb.go:3631-3745 | the field loop of a message without messages in it computes the decoding of the specification, given its field kinds and what a field does |
| `Unmarshal.UnmarshalExemplar` | prompb/types.pb.go:2658-2772 | the field loop, with the nested messages unmarshalled by their own loops, computes the decoding of the specification, errors included |
| `Unmarshal.UnmarshalHistogram` | prompb/types.pb.go:2773-3352 | the field loop, with the nested messages unmarshalled by their own loops, computes the decoding of the specification, errors included |
| `Unmarshal.UnmarshalTimeSeries` | prompb/types.pb.go:3444-3630 | the field loop, with the nested messages unmarshalled by their own loops, computes the decoding of the specification, errors included |
| `Unmarshal.UnmarshalWriteRequest` | prompb/remote.pb.go:913-1031 | the field loop, with the nested messages unmarshalled by their own loops, computes the decoding of the specification, errors included |
| `Unmarshal.Transmit` | prompb/remote.pb.go:457-1031 | marshalling a request and unmarshalling the bytes gives the request with negative zeros made positive; the same request if and only if there are none |

## Left out

- RuleExecution.BatchesAgreeExactly: a rule function sees what the selectors of its query select; the `query` function in templates of alert labels, and `info()`, read series beyond these, and a rule that uses them can read what a concurrent one writes; a store holds one sample a series and evaluation time, the first one committed is kept, and which of the others the storage reports is not modelled.
- RuleSeries.WritesExactly: a label with a template is taken to be able to expand to anything, each label on its own; a template that always gives one text is not told apart.
- StepInvariant.RewriteExactly: "whatever the functions do" ranges over functions that look at the evaluation time only if they are functions of time; a function is given the values of its arguments, so that `timestamp()` of a plain selector, which has an evaluation path of its own, is a call on a vector whose elements have timestamps.
- TimeFunctions.OfTimeExactly: labels and annotations are left out, numbers are exact, dates of a Unix time and the join with the info series are parameters; that the other functions do not look at the time, and rate and its like only at the end of their window, is read off the source.
- StepInvariant.StepInvariantRewriteIsSound: `Sound` is a condition on the tree alone, which leaves out some queries that are right at their steps; the exact condition is that of `StepInvariant.RewriteExactly`.
- SlidingWindow.Evaluator.EvalSeries: for series whose histograms share objects the slots are modelled by `SharedSlots`, on values; subtracting range and offset from the first timestamp is taken not to underflow 64 bits; the other arguments of the call, annotations and slice pools are not modelled.
- SharedSlots.UnsharedExactly: the series has no stale markers, which evaluating an expression leaves out; an object stands for a histogram with its bucket slices, so that the shallow copies made where a counter reset hint is cleared count as the same object; what the ring forgets is left in `seen`, where it is too old to be copied.
- SlidingWindow.Evaluator.Retain: the sample count follows the code, which takes off the retained size of histograms; how far it drifts from the weight of the slices is stated, not that it does not.
- RangeEval.RangeEval: per-series helpers, statistics of the peak and the reuse of slices are not modelled.
- TimeRange.FindMinMaxTime: what is read is what the expression means; where the offsets of an `@` modifier are wrong (`StepInvariant.AtSubqueryExactly`), evaluation reads elsewhere.
- TopK.SortBestFirst: an insertion sort stands for the library's sort, of which only the result matters; the heap operations are those of the standard heap.
- TopK.AggregationK: annotations and the output matrix are not modelled; the ratio sampler is a parameter.
- Quantile.SortBuckets: an insertion sort stands for the library's sort; rounding is not modelled.
- AlertState.AlertingRule.Eval: templates, label building, the ALERTS samples and restoring the for-state are not modelled; alerts are values in a map rather than shared objects.
- Staleness.Group.CopyState: the copying of active alerts and of evaluation times is not modelled.
- Discovery.RunKeepsInv: what registerProviders decides is a parameter of the step that begins ApplyConfig; StartCustomProvider and shutdown are not modelled; updates, targets and subscriptions are values in a state that the steps change.
- Notifier.Manager.Stop: a stop that arrives while the queue is being sent is taken when the loop waits next.
- Unmarshal.Unmarshal: which of two errors is reported when an end index overflows 64 bits, and what is left in the message after an error, are not modelled.
- Messages.RoundTripExactly: messages of 2^63 bytes and more are excluded; all that is read from bytes is covered (`Decoded.DecodedIsGood`).
- Negative packed enums and the read path (ReadRequest, ReadResponse, Query, chunks) of the codec.
- InstantSelector evaluation and the memoised iterator, binary operators, and all functions other than as parameters.
- The scrape loop, configuration, HTTP, logging and metrics.
- Native histogram arithmetic and interpolation.
