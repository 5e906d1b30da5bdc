# Cardinality Guardian, verified

This project models the two components of the OpenTelemetry cardinality processor that carry its
logic, and proves what they promise, with Dafny 4.11:

* **The tracker registry** (`shouldDrop`, `rotate` and the tracker they share). Its specification is a
  function of the calls and rotations seen so far, with no map, no eviction and no cached field
  (`Registry.Epoch`, `Registry.Specified`). The 256-shard object with its counters, lazily refreshed
  estimates and stale sweep (`Processor`, `Trackers`) refines it over every sequential run. A third
  layer (`Interleaving` and what follows it) interleaves any number of goroutines with one rotator at
  the granularity of locks, map accesses and atomic counters.
* **Spatial reaggregation** (`reaggregateNumberDataPoints`). The three-phase algorithm on a slice of
  references (`PointSlices`) refines a group-by and fold (`Reaggregation`), whose laws are proved in
  `MergeLaws`.

`Pipeline` joins them: for delta sums in strip mode, a query that groups by protected labels gives the
same answer before and after the processor, whatever was decided about all other labels and in
whatever interleaving.

`dafny verify dfyconfig.toml` checks everything.

## How it is modelled

* A sketch is known by the sequence of hashes inserted into it; its estimate is an arbitrary function
  of that sequence. Results about true counts use the ideal sketch (`SlidingWindow.Distinct`).
* `xxhash`, the seeded `maphash` of metric names and float64 addition and conversion are arbitrary
  functions (`Settings.Env`, `DataPoints.Floats`). int64 addition is 64-bit wrap-around. XOR is that of
  64-bit words.
* Objects that the source updates in place are classes (`Sketch`, `Tracker`, `TrackerShard`,
  `CardinalityProcessor`, `NumberDataPoint`, `NumberDataPointSlice`); their methods are proved against
  functions on values, which the lemmas are about. Log lines are counted by ghost fields.
* The iteration order of a Go map is a nondeterministic choice.
* In the concurrent model each step of a goroutine makes one access to shared state; releasing a lock is
  merged with the access before it where nothing comes between. The second lookup under the write lock
  belongs to this layer; sequentially it can never succeed.
* `Interleaving.Next` asks for the invariant `Sound` of the state it starts from. This restricts
  nothing: `ConcurrentRuns.Exec` runs any schedule from the initial state and stops only at a step
  that is not enabled.
* In the concurrent model the epochs of a pair are counted by the rotations of its trackers, as the
  source has it: an untracked pair is not rotated.

## Where code and documentation differ

The model follows the code. Each of these is proved.

* Stable labels are said never to be penalised (`FAQ.md:11`, `README.md:118`). With an ideal sketch this
  is so exactly when the limit is at least 63: `SlidingWindow.StableNeverPenalised`, and for whole runs
  `Registry.StablePairsPassExactly`. The same
  comparison of counts means that a complete turnover of the values goes unnoticed:
  `SlidingWindow.TurnoverIsInvisible`.
* `MaxTrackerCount` is called an absolute maximum (`cardinalityprocessor/config.go:114-116`).
  Concurrent callers overshoot it by exactly one less than the goroutines or the shards in use,
  whichever are fewer, so by up to 255 (`CapWitness.ExactOvershoot`). It is an absolute maximum if and
  only if there are no two goroutines or all metrics route to one shard (`CapWitness.CapHoldsExactly`).
* The comments on `trackers` say that trackers are never removed
  (`cardinalityprocessor/processor.go:323-325`); the stale sweep removes them. It is invisible
  sequentially (`Registry.DecisionsAreSpecified`), but concurrently an insert that falls between the
  last rotation of a tracker and its deletion is lost: `EvictionWitness.CompletedInsertCanBeLost`.
  Exactly two kinds of step lose an insert (`ConcurrentRuns.OnlyTwoStepsStrand`). A tracker with an
  insert in at least one of any two consecutive epochs stays (`ConcurrentRuns.BusyTrackersStay`), and
  once no goroutine holds an older one of its pair it loses nothing, whatever was evicted or lost before
  (`Settling.BusyTrackersRecover`). With rotations only while no call is in flight the eviction is
  invisible again (`Separation.SeparatedRunsRefine`).
* A gauge group is said to keep the value with the latest timestamp
  (`cardinalityprocessor/reaggregation.go:15`). A latest point without a value takes over the timestamp
  but not the value: `MergeLaws.LastValueWins` gives the exact condition, `MergeLaws.EmptyWinnerKeepsOldValue`
  an input.
* The summary of suppressed warnings at rotation never appears when there is a cap, and without one it
  appears whenever anything was dropped although everything was logged (`Enforcement.SummaryIsInverted`).
  In sequential runs it is right if and only if the drops of the epoch do not exceed the cap
  (`Enforcement.SummaryIsRight`); `Enforcement.SummaryIsWrong` has runs for each failure. Concurrently,
  a drop between the two swaps of a rotation is reported as suppressed under any cap
  (`WarningCounters.SplitRotationReports`); `WarningCounters.SummaryRightExactly` has the condition.
* Points that share an attribute identity are said to be merged
  (`cardinalityprocessor/reaggregation.go:10-12`); those that share a hash are. Queries by the protected
  labels survive, whatever values the points of a batch carry, if and only if no two of its points that
  hash alike after enforcement differ in a protected label: `Pipeline.QueryPreservedExactly`. Keys that
  contain NUL bring such points about under every xxhash: `Pipeline.NulBreaksQuery`.

## Model

| member | source | states |
|---|---|---|
| SlidingWindow.InsertHolds | cardinalityprocessor/processor.go:233-242 | after an insert every cached field is still the function of this epoch's and the previous epoch's inserts that `LazyEstimate` describes, for any estimator |
| SlidingWindow.FreshEstimate | cardinalityprocessor/processor.go:236-240 | the cached estimate is up to date after each of the first 64 inserts of an epoch and after every 64th |
| SlidingWindow.LagBound | cardinalityprocessor/processor.go:233-242 | the cached count never exceeds the true number of distinct values and trails it by at most 63 |
| SlidingWindow.LagIsReached | cardinalityprocessor/processor.go:236-240 | some epoch does trail by 63 |
| SlidingWindow.DropBounds | cardinalityprocessor/processor.go:1023-1031 | a drop proves growth above limit - 63, and growth above limit + 63 forces a drop on that call |
| SlidingWindow.DropNeedsNewValues | cardinalityprocessor/processor.go:1023-1031 | a drop needs more than limit - 63 values absent from the previous epoch |
| SlidingWindow.StableNeverPenalised | cardinalityprocessor/processor.go:1023-1031 | no epoch whose values all occurred in the epoch before is ever penalised, if and only if the limit is at least 63 |
| SlidingWindow.TurnoverIsInvisible | cardinalityprocessor/processor.go:1023-1031 | with limit at least 63, an epoch with no more distinct values than the one before is never penalised, even if all of them are new |
| SlidingWindow.DropPersists | cardinalityprocessor/processor.go:233-242 | further inserts in an epoch never turn a drop back into a keep |
| SlidingWindow.EarliestDrop | cardinalityprocessor/processor.go:233-242 | no drop happens before insert number cachedPrev + limit + 1 of the epoch |
| Registry.RunIsExact | cardinalityprocessor/processor.go:755-827 | in every reachable state the tracked pairs and every field of every tracker are determined by which accepted calls fell in the current epoch and in the two before it |
| Registry.DecisionsAreSpecified | cardinalityprocessor/processor.go:982-1032 | the decision on every call of every run is the one the stateless specification reads off the history: caching, eviction and re-creation do not show |
| Registry.PairsAreIndependent | cardinalityprocessor/processor.go:982-1032 | without a cap, the decision for a pair depends only on its own calls and the rotations |
| Registry.LiveAfterRotation | cardinalityprocessor/processor.go:786-811 | just after a rotation the tracked pairs are exactly those with an accepted call in one of the last two epochs, none of them due for eviction, and the previous sketch holds exactly the hashes of the epoch that ended |
| Registry.LagAlways | cardinalityprocessor/processor.go:233-270 | in every reachable state both cached counts of every tracker trail the true ones by 0 to 63 |
| Registry.StablePairsPass | cardinalityprocessor/processor.go:1023-1031 | in every run, a pair whose values of this epoch all occurred in the one before passes when its limit is at least 63 |
| Registry.StablePairsPassExactly | cardinalityprocessor/processor.go:1023-1042 | over all runs, no such call is ever dropped if and only if the override for the metric, or without one the global limit, is at least 63 |
| Registry.DecisionInBounds | cardinalityprocessor/processor.go:1023-1031 | in every run, an answer to an admitted call is within the bounds: a drop proves growth and new values above limit - 63 and cachedPrev + limit + 1 inserts, growth above limit + 63 forces a drop |
| Registry.OverridesDecide | cardinalityprocessor/processor.go:1037-1042 | the limit in these bounds is the override for the metric if there is one and the global one if not |
| Registry.OverridesAreLocal | cardinalityprocessor/processor.go:1037-1042 | an override for one metric changes no decision on another |
| Registry.FirstEpochThreshold | cardinalityprocessor/processor.go:1023-1042 | in the first epoch of a pair alone in the registry, one of the first 64 calls is dropped exactly when it makes the number of different values exceed that limit |
| Registry.CapRespected | cardinalityprocessor/processor.go:1002-1018 | sequential runs never track more pairs than the cap |
| Registry.DropsUntilRotation | cardinalityprocessor/processor.go:982-1032 | once dropped, a pair is dropped on each of its calls until the next rotation, whatever calls on other pairs intervene |
| Offenders.TopIsPrefixOfFullSort | cardinalityprocessor/processor.go:767-778 | a sorted bounded top-N shows exactly the first N deltas of the fully sorted list |
| Offenders.Offer | cardinalityprocessor/processor.go:850-874 | one turn of the bounded scan keeps the buffer a top-N of everything offered so far |
| Offenders.SinkSorts | cardinalityprocessor/processor.go:905-915 | an entry lifted out and sunk past its smaller predecessors leaves the prefix sorted |
| Offenders.SortOffenders | cardinalityprocessor/processor.go:905-915 | the slice ends up in descending order with the same entries |
| EpochRotation.GrowthOfList | cardinalityprocessor/processor.go:836-876 | whatever order a shard's trackers are listed in, they contribute the same positive deltas |
| EpochRotation.GrowthInRuns | cardinalityprocessor/processor.go:840-849 | in every run, the deltas are exactly those by which the estimate of a tracked pair exceeds the one for the epoch before |
| EpochRotation.NextBucket | cardinalityprocessor/processor.go:771-811 | rotating the pairs of one more shard and deleting the stale ones advances the whole registry by one shard |
| EpochRotation.RotationEnds | cardinalityprocessor/processor.go:771-826 | after 256 shards every pair has been rotated once and the buffer is a top-N of the positive deltas of all pairs before the rotation |
| Trackers.Tracker.Insert | cardinalityprocessor/processor.go:233-242 | the mutable tracker takes exactly the window step and answers its cached counts, touching no other tracker's sketches |
| Trackers.Tracker.Rotate | cardinalityprocessor/processor.go:255-270 | current becomes previous, the fresh sketch becomes current, and the tracker reports whether the epoch was idle |
| Processor.CardinalityProcessor.constructor | cardinalityprocessor/processor.go:409-436 | a new processor has 256 empty shards and is well-formed |
| Processor.CardinalityProcessor.ShouldDrop | cardinalityprocessor/processor.go:982-1032 | on the sharded heap, decision and complete new state are those of the flat machine |
| Processor.CardinalityProcessor.HandleAttributesWithMode | cardinalityprocessor/processor.go:647-695 | attributes and processor end up as enforcement on values prescribes |
| Processor.CardinalityProcessor.CollectShardDeltas | cardinalityprocessor/processor.go:836-876 | folds the positive deltas of a shard into a top-N of all deltas seen |
| Processor.CardinalityProcessor.SweepShard | cardinalityprocessor/processor.go:784-811 | rotating one shard's listed trackers and deleting the stale ones under its lock advances the registry by exactly that shard |
| Processor.CardinalityProcessor.PublishTopOffenders | cardinalityprocessor/processor.go:882-898 | an empty buffer keeps the previous snapshot, another one replaces it sorted |
| Processor.CardinalityProcessor.Rotate | cardinalityprocessor/processor.go:755-827 | all shards are rotated and swept, the per-epoch counters reset, and the published offenders are a descending top-N of the deltas before the rotation |
| Processor.CardinalityProcessor.ProcessMetric | cardinalityprocessor/processor.go:550-589 | dispatch by type and mode: data points and processor end up as `Pipeline.Process` prescribes |
| Runs.Answer | cardinalityprocessor/processor.go:982-1032 | driving a new processor object through any sequence of calls and rotations yields exactly the answers of the stateless specification |
| Attributes.HashAttributes | cardinalityprocessor/reaggregation.go:123-136 | the loop computes the XOR of the pair hashes |
| Attributes.SameIdentitySameHash | cardinalityprocessor/reaggregation.go:117-136 | attribute sets that agree as multisets of rendered pairs hash alike, in whatever order they are listed |
| Attributes.EncodeInjective | cardinalityprocessor/reaggregation.go:129-131 | key, NUL, value loses no information for NUL-free keys |
| Attributes.OneLabelTells | cardinalityprocessor/reaggregation.go:123-136 | replacing one label changes the identity hash exactly when xxhash tells the two texts key, NUL, value apart |
| Attributes.EncodeAmbiguous | cardinalityprocessor/reaggregation.go:123-136 | with NUL in a key or value, two different attribute sets hash alike whatever xxhash does |
| Enforcement.EnforceByFlags | cardinalityprocessor/processor.go:647-695 | which attributes are flagged does not depend on the mode; strip mode keeps exactly the others, tag mode adds the tag if any is flagged, overflow mode keeps all keys and rewrites the first attribute of each flagged key (with unique keys, exactly the flagged ones); `labelsStripped` and, in strip mode, `dropsThisEpoch` grow by the number flagged |
| Pipeline.EnforceAllByFlags | cardinalityprocessor/processor.go:647-704 | over a whole batch, in every mode: each point changes as its flags say and in nothing else, no protected attribute is flagged, and `labelsStripped` grows by the flags of the batch |
| Enforcement.FlagsAreSpecified | cardinalityprocessor/processor.go:655-661 | in every run of the whole processor an attribute is flagged exactly when it is unprotected and the stateless specification drops it |
| Dispatch.BatchFlagsAreSpecified | cardinalityprocessor/processor.go:655-661 | and so is every attribute of every point of a batch, after all values before it |
| Enforcement.CountersAreExact | cardinalityprocessor/processor.go:655-681 | in every sequential run each counter counts what it is named for: refused calls ever, a rejection warning in each epoch with a refusal, flagged attributes ever, stripped ones since the last rotation |
| Enforcement.StripTakesFlagged | cardinalityprocessor/processor.go:655-684 | stripping takes out exactly the flagged attributes and keeps the others in their order |
| Enforcement.PutTouchesOneKey | cardinalityprocessor/processor.go:649-652 | tagging changes no attribute with another key |
| Enforcement.StripKeepsProtected | cardinalityprocessor/processor.go:655-661 | stripping leaves every protected label with its value, whatever is decided for the others |
| Pipeline.ProtectedLabelsSurvive | cardinalityprocessor/processor.go:647-695 | in every mode, at every point of a batch, protected labels survive with their values, but for one with the key of the tag in tag mode |
| Enforcement.LogAlways | cardinalityprocessor/processor.go:676-681 | in every sequential run, with a cap the strip warnings of an epoch number min(drops, cap), without one all drops are logged; at most one rejection warning per epoch |
| Enforcement.SummaryIsInverted | cardinalityprocessor/processor.go:816-824 | the summary of suppressed warnings appears exactly when there is no cap and something was dropped, and then all of it was logged |
| Enforcement.SummaryIsRight | cardinalityprocessor/processor.go:816-824 | the summary appears just when warnings were suppressed, if and only if the drops of the epoch do not exceed the cap |
| Enforcement.SummaryIsWrong | cardinalityprocessor/processor.go:816-824 | for the ideal sketch and every configuration in strip mode, after any run that leaves a pair over its limit, cap + 1 more data points make it wrong: suppression without a summary if there is a cap, a summary without suppression if there is none |
| Enforcement.OtherModesDropNothing | cardinalityprocessor/processor.go:663-681 | in runs without strip mode nothing counts as a drop and no summary appears |
| Enforcement.ManyValuesDrop | cardinalityprocessor/processor.go:655-661 | more than limit + 63 values with different hashes make such a run |
| WarningCounters.WarningsAlways | cardinalityprocessor/processor.go:676-681 | in every interleaving of drops and rotations the warnings since `dropLogCount` was last swapped number min(asked for, cap), and with a cap the figures of all summaries add up to the drops under way less what the counters hold |
| WarningCounters.SummaryRightExactly | cardinalityprocessor/processor.go:816-824 | in every interleaving a summary appears just when warnings were suppressed, if and only if the drops taken exceed the warnings asked for exactly when these exceed the cap (without a cap: no drops were taken) |
| WarningCounters.SplitRotationReports | cardinalityprocessor/processor.go:816-824 | a drop between the two swaps of a rotation is reported as suppressed by the next although its warning was emitted |
| Reaggregation.SingleWriter | cardinalityprocessor/reaggregation.go:60-114 | for any hash function and any input, surviving points have pairwise distinct hashes |
| Reaggregation.DistinctIdentities | cardinalityprocessor/reaggregation.go:60-136 | and, with the XOR hash, pairwise distinct attribute sets |
| Reaggregation.FastPath | cardinalityprocessor/reaggregation.go:22-50 | when all hashes differ the full algorithm would change nothing |
| Reaggregation.Idempotent | cardinalityprocessor/reaggregation.go:103-114 | reaggregating an already reaggregated slice changes nothing |
| Reaggregation.SplitIndependent | cardinalityprocessor/reaggregation.go:63-114 | reaggregating two batches and then their concatenation equals reaggregating all at once, in every field and in order, for int delta sums and for gauges of which the points that hash alike all have a start time or all have none, and all have a value or all have none |
| MergeLaws.DeltaGroup | cardinalityprocessor/reaggregation.go:88-100 | a merged delta group has the leader's attributes, the left fold of addNumberValue, the latest timestamp, the earliest start and all exemplars in index order |
| MergeLaws.IntDelta | cardinalityprocessor/reaggregation.go:151-154 | a delta group of ints adds up in int64, in index order |
| MergeLaws.MixedDelta | cardinalityprocessor/reaggregation.go:155-176 | from the first other value on it adds up in float64, left to right: an empty value counts as 0, an int by its conversion, the ints before by the conversion of their sum |
| MergeLaws.DoubleDelta | cardinalityprocessor/reaggregation.go:155-158 | doubles add up in index order |
| MergeLaws.GaugeGroup | cardinalityprocessor/reaggregation.go:76-87 | a merged gauge group has the timestamp of the earliest-indexed latest point, the value and start of the last overtaking point that has one, and all exemplars |
| MergeLaws.LastValueWins | cardinalityprocessor/reaggregation.go:76-85 | the survivor has the winner's value if and only if the winner carries one or no overtaking point did |
| MergeLaws.EmptyWinnerKeepsOldValue | cardinalityprocessor/reaggregation.go:140-147 | an input on which the latest point does not win |
| MergeLaws.SumPreserved | cardinalityprocessor/reaggregation.go:151-165 | for int delta sums the sum modulo 2^64 over every selection that splits no hash class is unchanged |
| MergeLaws.TotalPreserved | cardinalityprocessor/reaggregation.go:52-114 | the total of an int delta sum is unchanged, whatever the hash function does |
| MergeLaws.MergedSum | cardinalityprocessor/reaggregation.go:60-103 | in every int delta batch, whatever the hash does, after the merge a query gets the sum of the points whose leaders it selects |
| MergeLaws.CollisionMovesSums | cardinalityprocessor/reaggregation.go:60-103 | of two points that hash alike, the later passes its value to the earlier |
| MergeLaws.SumsPreservedExactly | cardinalityprocessor/reaggregation.go:52-114 | for points with given attributes, a selection keeps its sum whatever int deltas they carry if and only if no two of them that hash alike are selected differently |
| MergeLaws.ExemplarsPreserved | cardinalityprocessor/reaggregation.go:86-100 | over the whole batch no exemplar is lost or duplicated |
| PointSlices.NumberDataPoint.MergeInto | cardinalityprocessor/reaggregation.go:75-101 | the setter calls on the leader amount to the merge of the two points |
| PointSlices.NumberDataPointSlice.DetectCollisions | cardinalityprocessor/reaggregation.go:38-46 | computes every hash, and reports no collision only if all differ |
| PointSlices.NumberDataPointSlice.MergeGroups | cardinalityprocessor/reaggregation.go:57-104 | walking the slice with aliased leaders leaves in each leader the fold of its whole group, and marks exactly the others |
| PointSlices.NumberDataPointSlice.RemoveMarked | cardinalityprocessor/reaggregation.go:106-114 | compaction keeps exactly the leaders, in order |
| PointSlices.NumberDataPointSlice.Reaggregate | cardinalityprocessor/reaggregation.go:21-115 | in place, the slice becomes the group-by and fold of what it was, held by the objects that came first |
| PointSlices.LeadsMeansFirst | cardinalityprocessor/reaggregation.go:60-73 | the survivors are exactly the first occurrences of their hash |
| Pipeline.StripAndMergeKeepsQueries | cardinalityprocessor/processor.go:557-568 | for int delta sums and any choice of attributes to strip that spares some labels, if the points that then hash alike agree on these labels, the sum of the points carrying any assignment of them is the same before and after |
| Pipeline.CollisionFreeLabelsAgree | cardinalityprocessor/reaggregation.go:60-136 | they agree when no two different attribute sets of the batch hash alike |
| Pipeline.StripAndMergeExactly | cardinalityprocessor/processor.go:557-568 | and the condition is exact: for points with given attributes and any such choice, all these queries are kept whatever the points carry if and only if points that then hash alike agree on the labels |
| Pipeline.StripAndMergeKeepsTotal | cardinalityprocessor/processor.go:557-568 | and the total is the same whatever is stripped and whatever the hash does |
| Pipeline.CollisionBreaksQuery | cardinalityprocessor/processor.go:557-568 | two labels that encode alike, the first protected and neither flagged: the sum over the points without a protected label goes from 1 to 0, whatever xxhash does |
| Pipeline.NulBreaksQuery | cardinalityprocessor/processor.go:557-568 | a key with NUL brings that about: two points, named, that lose a value through the whole processor |
| Pipeline.QueryPreserved | cardinalityprocessor/processor.go:557-568 | the processor, in every state it can be in, keeps the answer of every query by the protected labels, for int delta sums in strip mode in which points that hash alike after enforcement agree on these labels |
| Pipeline.QueryPreservedExactly | cardinalityprocessor/processor.go:557-568 | for points with given attributes it keeps them whatever int deltas the points carry if and only if the points that hash alike after enforcement agree on the protected labels |
| Pipeline.BatchTotalPreserved | cardinalityprocessor/processor.go:557-568 | and the total, without any assumption on the hash |
| Pipeline.OneWriterPerIdentity | cardinalityprocessor/processor.go:550-568 | what leaves the processor in strip mode has at most one point per attribute set |
| Pipeline.FallbackOnlyTags | cardinalityprocessor/processor.go:560-588 | the tag_only fallback keeps every point's value, times, exemplars and attributes other than the tag |
| Dispatch.OtherModesOnlyEnforce | cardinalityprocessor/processor.go:550-589 | outside strip mode every metric type is enforced in the configured mode and nothing else happens |
| Dispatch.FallbackTags | cardinalityprocessor/processor.go:557-586 | in tag mode, and in strip mode for all but gauges and delta sums, every point stays with its value, times, exemplars and attributes, and is tagged exactly when one of its attributes is flagged |
| Dispatch.OverflowRewrites | cardinalityprocessor/processor.go:550-589 | in overflow mode every point stays and exactly the values of its flagged attributes are overwritten |
| Dispatch.GaugeSurvivor | cardinalityprocessor/processor.go:552-556 | in strip mode a gauge survivor has the latest timestamp, and the last value and start among the overtaking points, of the points that hash like it after enforcement |
| Dispatch.DeltaSurvivor | cardinalityprocessor/processor.go:557-568 | a delta survivor has the earliest start, the latest timestamp, all exemplars and the sum of that group |
| Dispatch.SurvivorsInOrder | cardinalityprocessor/reaggregation.go:103-114 | survivors come in the order in which their hashes first occur, with the attributes of that point |
| Dispatch.NoGroupLost | cardinalityprocessor/reaggregation.go:60-114 | every hash after enforcement has a survivor |
| Dispatch.ApartSurvive | cardinalityprocessor/reaggregation.go:123-136 | two points that differ in one label, which xxhash tells apart, both leave the processor as enforcement left them |
| Dispatch.ProcessIsRun | cardinalityprocessor/processor.go:550-589 | what a metric does to trackers and counters is what handling its points one by one does, in the configured mode or in tag mode where strip mode falls back |
| Interleaving.ExclusiveAlways | cardinalityprocessor/processor.go:991-1019 | the shard locks exclude writers from writers and readers in every interleaving, the rotator included |
| Interleaving.OtherPcOk | cardinalityprocessor/processor.go:998-1017 | what a goroutine has found under a shard's write lock, no step of any other goroutine can change |
| Interleaving.SoundAlways | cardinalityprocessor/processor.go:982-1032 | every step keeps routing, locking and each goroutine's knowledge of its tracker intact |
| CapBound.WritersPerShard | cardinalityprocessor/processor.go:1002-1017 | at most as many goroutines as shards in use are between check and counter at once |
| CapBound.CountedAlways | cardinalityprocessor/processor.go:801-807 | the counter differs from the map size by exactly the goroutines between a map update and its counter update, and the cap is overshot by less than the goroutines that can be past the check |
| Linearization.WindowsAlways | cardinalityprocessor/processor.go:1021-1023 | in every interleaving each tracker holds exactly what its own inserts and rotations, in lock order, prescribe |
| Retirement.LivesAlways | cardinalityprocessor/processor.go:786-811 | in every interleaving a tracker is the mapped one of its pair from its creation until its eviction and never again, only it is rotated meanwhile, it counts exactly its last idle epochs, and it is listed as stale exactly when they are as many as the sweep asks for |
| Stranding.KeptIsAlone | cardinalityprocessor/processor.go:998-1017 | a pair that has not been evicted has had one and the same tracker for all its inserts |
| Stranding.StrandingStep | cardinalityprocessor/processor.go:801-804 | from a state with nothing lost, a step loses an insert of the current or previous epoch if and only if it deletes a tracker with inserts since its last rotation or inserts into a tracker that is mapped no longer |
| Stranding.WholeUnlessStranded | cardinalityprocessor/processor.go:1021-1023 | a mapped tracker holds exactly the inserts of its pair in this epoch and the one before if and only if none of them is stranded in an evicted tracker |
| Linearization.FatedAlways | cardinalityprocessor/processor.go:991-1023 | every step keeps each call in exactly one place: in flight, refused, or inserted once |
| ConcurrentRuns.CapOvershoot | cardinalityprocessor/processor.go:1005-1016 | in every interleaving the live trackers exceed the cap by less than the number of goroutines and by less than the number of shards in use, hence by at most 255 |
| ConcurrentRuns.CounterIsExact | cardinalityprocessor/processor.go:801-807 | `trackerCount` is the total map size whenever nobody is between a map update and its counter update |
| ConcurrentRuns.OneLiveTracker | cardinalityprocessor/processor.go:998-1017 | each pair has at most one live tracker, shared with no other pair, in the shard its metric routes to |
| ConcurrentRuns.ExactlyOnce | cardinalityprocessor/processor.go:991-1023 | each call that has begun is in flight in one goroutine, refused, or inserted once, and exactly one of these |
| ConcurrentRuns.LagAlways | cardinalityprocessor/processor.go:233-270 | in every interleaving both cached counts of every tracker, live or evicted, trail the true ones by 0 to 63 |
| ConcurrentRuns.AnswersInBounds | cardinalityprocessor/processor.go:1021-1031 | in every interleaving every answer is within the bounds for the inserts and rotations of its tracker |
| ConcurrentRuns.DecisionsLinearize | cardinalityprocessor/processor.go:1021-1032 | every concurrent answer of a tracker that was not retired, when no insert of its pair in these two epochs went elsewhere, is the sequential one for the inserts and rotations of that pair in lock order |
| ConcurrentRuns.NoInsertLost | cardinalityprocessor/processor.go:991-1023 | in every reachable state the live tracker of a pair, evicted before or not, holds exactly its completed inserts of this epoch and the one before if and only if none of them is stranded |
| ConcurrentRuns.OnlyTwoStepsStrand | cardinalityprocessor/processor.go:801-804 | in every reachable state, exactly two kinds of step strand an insert |
| ConcurrentRuns.CleanRunsStrandNothing | cardinalityprocessor/processor.go:801-804 | a run without such a step strands nothing |
| ConcurrentRuns.EvictedWhenIdle | cardinalityprocessor/processor.go:786-804 | in every interleaving each eviction of a pair, the first or a later one, follows two full epochs without an insert into its one live tracker |
| ConcurrentRuns.NoneIdleAtRest | cardinalityprocessor/processor.go:786-811 | and when the rotator is at rest no live tracker has been idle for two full epochs |
| ConcurrentRuns.BusyTrackersStay | cardinalityprocessor/processor.go:786-804 | a tracker with an insert in at least one of any two consecutive epochs stays the live one of its pair, whatever was evicted before it was created |
| ConcurrentRuns.BusyPairsLoseNothing | cardinalityprocessor/processor.go:982-1032 | a pair with an insert in at least one of any two consecutive epochs is never evicted, its live tracker holds every insert, and all its answers are the sequential ones |
| Settling.SettledPairsLoseNothing | cardinalityprocessor/processor.go:991-1023 | from a state in which no goroutine holds another tracker of the pair, for as long as its live tracker is not evicted: if nothing of the pair was stranded, or after two more rotations, it holds every insert and is alone, so that its answers are the sequential ones |
| Settling.BusyTrackersRecover | cardinalityprocessor/processor.go:991-1023 | so a pair that was swept and tracked again loses nothing from then on, if its tracker is busy |
| Separation.SeparatedRunsRefine | cardinalityprocessor/processor.go:982-1032 | in every interleaving of calls with rotations only while no call is in flight, every answer, evictions and all, is the sequential one for the inserts and rotations in lock order, and without a cap that of the sequential registry |
| CapWitness.CapOvershootIsReached | cardinalityprocessor/processor.go:1002-1017 | for every cap, n metrics in different shards and n of any set of goroutines reach cap + n - 1 live trackers |
| CapWitness.ExactOvershoot | cardinalityprocessor/processor.go:1002-1017 | the most live trackers reachable are the cap plus one less than the goroutines or shards in use, whichever are fewer |
| CapWitness.FullOvershoot | cardinalityprocessor/processor.go:507-509 | with a hash that spreads metrics over all shards and 256 goroutines they are the cap plus 255 |
| CapWitness.CapHoldsExactly | cardinalityprocessor/processor.go:1002-1017 | the cap holds in every reachable state if and only if there are no two goroutines or all metrics route to one shard |
| EvictionWitness.CompletedInsertCanBeLost | cardinalityprocessor/processor.go:792-807 | in every configuration and for every pair some run ends with a completed insert of the current epoch stranded, in no live tracker |
| Progress.NoDeadlock | cardinalityprocessor/processor.go:991-1019 | unless nobody is under way, some goroutine in a call or the rotator can take a step |
| Progress.Advances | cardinalityprocessor/processor.go:991-1023 | each such step brings its own call or the rotation strictly closer to the end and delays nothing else |
| Progress.NoEndlessRun | cardinalityprocessor/processor.go:755-1023 | no scheduler keeps calls and rotation going for ever: an infinite run has a point where it does not continue by a step of one under way |
| Progress.Drain | cardinalityprocessor/processor.go:755-811 | from every reachable state the rotation and all calls can be finished without a new call, and every call has then been refused or has inserted |

## Left out

- HyperLogLog, xxhash, maphash and sync.Pool internals: arbitrary functions and fresh objects here.
- Floating point: no law of float64 is used, so double and mixed sums are stated as left folds only.
- Counters (`insertCount`, `idleEpochs`, `labelsStripped`, ...), estimates, timestamps and limits are unbounded: their wrap-around after 2^63 or more steps is not modelled.
- Telemetry callbacks, log texts, the savings estimate, `Start`, `Shutdown`, the ticker, `ConsumeMetrics` and the downstream consumer: rotation is a step that may happen at any time.
- `Config.Validate` and `ResolvedEnforcementMode`: modes are the three valid ones; limits of 0 are covered too.
- Contents of histograms, exponential histograms and summaries: only their attributes matter, so one data point class stands for all.
- The in-place compaction of an attribute map during `RemoveIf`, a library function: the kept attributes are collected and assigned at its end. That of the data point slice is modelled in place.
- The offender scan in the concurrent model: it only reads trackers, so it is left to the sequential one.
- LogAlways: sequential runs only, like `SummaryIsInverted`, `SummaryIsRight` and `SummaryIsWrong`; what is left of it when a rotation falls between the separate atomics is in `WarningCounters`, which models the two counters and no tracker.
- Uniqueness of identities in overflow_attribute mode: the source reaggregates in strip mode only.
