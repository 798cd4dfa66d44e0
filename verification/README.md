# LayaWatch: a verified model of the observability write path

LayaWatch records one trace per request, queues it, writes it to SQLite in batches and keeps
rollup rows of 10, 60 and 3600 seconds. Dashboards read the rollups, a live stream pushes events,
retention prunes. This project models the stateful parts of that path in Dafny and proves what
they keep over every run, every interleaving and every input.

How the pieces are put together:

- A component whose state is shared between threads is a state machine: one action is one region
  the source runs under its lock, or one transaction. `Execute` runs any list of actions from the
  start, so a theorem about it covers all interleavings. Beside it stands a class with the
  source's fields whose methods are proved to be those steps.
- SQLite tables are maps or lists with atomic transactions that succeed, are busy, or fail.
- Floats are reals, epoch buckets are integers. Clocks that the source reads under a lock do not
  run backwards. Waits, timeouts and scheduling are choices made by the list of actions.
- A spec function says what a loop computes; the laws are proved about the function.

| file | component |
|---|---|
| `Options.dfy`, `Common.dfy` | optional values, rounding, sizes |
| `Rollup.dfy` | bucket starts, percentiles, summaries, the merge of stat rows and its algebra |
| `RollupTable.dfy` | the rollup table and the cascade of one closed bucket into its parents |
| `Subsequences.dfy` | order-preserving subsequences |
| `WriterModel.dfy`, `WriterLaws.dfy`, `WriterRollupLaws.dfy`, `Writer.dfy` | the writer: queue, eviction, batches, requeue, open buckets, commit |
| `WriterTables.dfy`, `WriterCounts.dfy` | the writer's tables, eviction, counters, rollup keys and requeues, said over the fields of traces and logs |
| `WriterLoop.dfy` | the writer thread: flush acknowledgement and exit |
| `Retention.dfy` | the retention pass and what survives a lost open bucket |
| `Upkeep.dfy` | commits, retention passes and crashes of one database over its lifetime |
| `Series.dfy`, `SeriesReading.dfy`, `ModelMix.dfy`, `MixReading.dfy` | metric series and the model mix read from the rollups, and that they agree |
| `Paging.dfy` | keyset pagination of traces and logs, and the log export |
| `RateLimit.dfy`, `RateLimitSweep.dfy`, `RateLimitEdits.dfy` | token buckets, what their sweep does, and policies that change |
| `LoginLimit.dfy`, `LoginLaws.dfy`, `LoginCounts.dfy` | login failure backoff, and what it answers over a run |
| `Stream.dfy`, `StreamDelivery.dfy`, `StreamPulse.dfy`, `StreamReconnect.dfy` | the SSE hub, what its clients are sent, its pulse timer, and two connections of one client |
| `StreamBridge.dfy`, `StreamBridgeClose.dfy` | the thread-to-event-loop bridge of one stream, and its close |
| `Recorder.dfy`, `RecorderReports.dfy` | the span stack of one trace, and what it reports of each observation |
| `Redact.dfy` | `scrub_text` and UTF-8 |

Places where the code does less than its documentation, or a reader, might expect. Where a claim is
false a concrete input shows it and the exact condition is proved beside it:

- `docs/architecture.md:101` says errors are never dropped by backpressure. An error whose producer
  times out on a full queue is dropped and counted (`WriterLaws.ErrorsCanBeDropped`,
  `WriterLaws.ErrorIsLostIff`).
- `obs_dropped` counts a sampled-out trace when it is offered and again if it is lost, so the
  conservation law carries the sampled-out offers on its left side (`WriterLaws.Conservation`).
- `layawatch/store/writer.py:12-13` says a drop is never silent. A producer still waiting for room when
  the writer thread leaves its loop can put its trace into a queue nobody reads any more, uncounted
  (`WriterLoop.WaiterCanBeStranded`). Something can be left behind iff a producer was waiting at the
  exit (`WriterLoop.StrandsIff`), and how much is exact (`WriterLoop.StrandedExactly`).
- `layawatch/store/writer.py:170-171` lets a flush return at once when the writer has stopped. A flush that
  found the thread alive and gets the lock after its end is never acknowledged and times out
  (`WriterLoop.FlushCanTimeOut`, `WriterLoop.FlushTimesOutIff`).
- `layawatch/store/writer.py:163-165` says a flush closes every open bucket. It is acknowledged, with
  buckets still open, when its own batch fails (`WriterLoop.FlushCanLeaveBucketsOpen`,
  `WriterLoop.ClosesAllIff`).
- `layawatch/auth/ratelimit.py:275-279` says the sweep drops fully refilled buckets. It looks at
  stored, un-refilled tokens, so it drops almost nothing, and with capacity 1 it can drop a bucket
  that is not full (`RateLimitSweep.SweepsCanBeDishonest`, `RateLimitSweep.DecisionsAreRightIff`).
- `layawatch/auth/ratelimit.py:14-15` says minting subjects cannot grow the map without bound. Distinct
  subjects all keep their buckets (`RateLimitSweep.MapGrowsWithSubjects`); a call leaves the map
  within its bound iff it was small or few enough subjects survive the sweep
  (`RateLimitSweep.MapBoundedIff`).
- `layawatch/auth/login_limit.py:39-41` says Retry-After always names the real unblock time. It can
  be too short (`LoginLaws.RetryCanBeTooShort`, `LoginLaws.RetrySufficesIff`).
- `layawatch/auth/login_limit.py:9-13` says minting subjects cannot grow the map without bound. Failures
  of distinct subjects within one window all stay (`LoginLaws.FailuresGrowTheMap`); a counted call
  leaves the map within its bound iff no more subjects than that are live (`LoginLaws.MapBoundedIff`).
- A client that was delivered no trace event and brought no id loses on reconnect even what the
  ring still holds (`StreamReconnect.FirstEventCanBeLost`,
  `StreamReconnect.ReconnectLosesOnlyTheGapIff`).
- End of stream does not imply that every chunk was delivered (`StreamBridge.EofCanLoseAChunk`,
  `StreamBridge.EofIsCompleteIff`).
- The rollup prune never leaves a parent without its children, but a child at the horizon can lose
  its parent (`Upkeep.ChildCanOutliveItsParent`, `Retention.PrunedParentCompleteIff`).

## Model

| member | source | states |
|---|---|---|
| `Rollup.FloorBucketIsTheBucket` | layawatch/obs/rollup.py:27-34 | the floor is the one aligned bucket whose half-open window contains the timestamp |
| `Rollup.FloorBucketsNest` | layawatch/obs/rollup.py:27-34 | flooring to 10 s first never changes the 60 s or 3600 s bucket |
| `Rollup.PercentileIsNearestRank` | layawatch/obs/rollup.py:37-49 | the percentile is a sample, and the least value with at least ceil(q*n) samples at or below it |
| `Rollup.SummarizePermuted` | layawatch/obs/rollup.py:52-64 | a summary depends on the bag of samples, not on their order |
| `Rollup.SummarizeWellFormed` | layawatch/obs/rollup.py:52-64 | min <= p50 <= p90 <= p95 <= p99 <= max and count*min <= sum <= count*max for every non-empty sample |
| `Rollup.SummaryColumns` | layawatch/obs/rollup.py:14-64 | the four percentile columns of a summary are samples, and the least with at least 1/2, 9/10, 19/20 and 99/100 of the samples at or below them |
| `Rollup.SummaryTotals` | layawatch/obs/rollup.py:52-64 | count, least, greatest and total of the samples |
| `Rollup.MergeRowsLoop` | layawatch/obs/rollup.py:67-98 | the merge loop computes the count-weighted merge, zero-count rows contributing only their sum |
| `Rollup.MergeIsWeightedMean` | layawatch/obs/rollup.py:67-98 | of two rows: counts and sums add, extremes stay, each percentile column times its count adds |
| `Rollup.JoinCommutes` | layawatch/store/queries.py:171-182 | merging two stored rows (absent rows included) does not depend on their order |
| `Rollup.JoinAssociates` | layawatch/store/queries.py:171-182 | merging is associative, weighted percentiles included, so close order and batching cannot show |
| `Rollup.JoinWellFormed` | layawatch/store/queries.py:171-182 | merging keeps percentile order and the bounds on the sum, and counters stay exact counters |
| `Rollup.FoldIsListMerge` | layawatch/store/retention.py:165-183 | folding pairwise merges gives exactly the one-pass list merge of the read path |
| `RollupTable.CascadeRows` | layawatch/store/writer.py:454-484 | one closed bucket changes exactly its own row and the two parents covering it, by one merge of the increment each |
| `RollupTable.CascadeKeepsComplete` | layawatch/store/writer.py:454-484 | after a cascade every 60 s and 3600 s row is again the merge of its stored 10 s rows |
| `Writer.Writer.EvictKeptNonError` | layawatch/store/writer.py:230-236 | removes the oldest kept non-error trace and nothing else, or reports there is none |
| `Writer.Writer.MakeRoom` | layawatch/store/writer.py:195-203 | a kept success evicts and counts one droppable trace; sampled-out and error traces never evict |
| `Writer.Writer.Enqueue` | layawatch/store/writer.py:181-206 | the offer step: rejected when stopping, queued, queued by eviction, or waiting; counters follow |
| `Writer.Writer.Recheck` | layawatch/store/writer.py:238-250 | a waiting producer appends when there is room, gives up and is counted when stopping or timed out, else waits on |
| `Writer.Writer.EnqueueLog` | layawatch/store/writer.py:208-217 | logs never wait: queued, dropped and counted, or rejected |
| `Writer.Writer.Collect` | layawatch/store/writer.py:287-326 | a batch is what that many Pop steps take: the front of the queue in order, as long as batch size, window and queue allow |
| `Writer.Writer.AccumulateBatch` | layawatch/store/writer.py:424-452 | the working copy is the open buckets plus the batch; the open buckets stay as they are |
| `Writer.DueKeys` | layawatch/store/writer.py:344-347 | exactly the buckets that have ended, or all of them when closing, each once |
| `Writer.CloseBucket` | layawatch/store/writer.py:454-484 | reading all three rows before writing any gives the same table as three merges in turn |
| `Writer.RunAttempt` | layawatch/store/writer.py:349-378 | an attempt that succeeds closed every due bucket of its own copy |
| `Writer.Writer.Commit` | layawatch/store/writer.py:331-409 | committed, requeued or dropped as the attempts decide; without a commit the open buckets and tables are untouched |
| `Writer.Writer.DropBatch` | layawatch/store/writer.py:411-422 | every trace and log of a failed batch is counted as dropped |
| `WriterLaws.Conservation` | layawatch/store/writer.py:181-217 | after any actions: offered traces + sampled-out offers = queued + in flight + committed + waiting + obs_dropped; likewise for logs |
| `WriterLaws.QueueInvAlways` | layawatch/store/writer.py:287-326 | after any actions: queue + batch within queue_max + batch_rows; committed, in-flight and queued items a subsequence of append order; every accepted item in exactly one place; the tables hold the committed items |
| `WriterLaws.ErrorsCanBeDropped` | layawatch/store/writer.py:195-206 | a run of three actions that drops an error trace under backpressure |
| `WriterLaws.ErrorIsLostIff` | layawatch/store/writer.py:195-250 | an error trace is lost iff its producer gives up on a full queue or its batch is dropped; eviction never takes one |
| `WriterLaws.WaiterIsDroppedIff` | layawatch/store/writer.py:238-250 | a waiting trace is lost iff the queue is still full and the writer is stopping or the wait is over |
| `WriterLaws.RequeueIsOneShot` | layawatch/store/writer.py:385-399 | between two requeues some batch was committed or dropped |
| `WriterTables.StoredAsGiven` | layawatch/store/writer.py:362-376 | after any actions the log table is exactly the committed log lines and the trace table the committed traces not sampled out, each as it was given, in order |
| `WriterTables.StoredCounters` | layawatch/store/writer.py:454-484 | after any actions a stored counter row has sum = count, min = max = 1 and no percentiles |
| `WriterTables.EvictsIff` | layawatch/store/writer.py:195-236 | an offer evicts the oldest queued success that was not sampled out iff the queue is full, one is there, and the offered trace is itself one |
| `WriterTables.NothingAcceptedAfterStop` | layawatch/store/writer.py:181-217 | whatever happens after stop has begun, nothing more is accepted |
| `WriterTables.WritesAreTransactions` | layawatch/store/writer.py:398-403 | after any actions the write counter is the number of transactions that went through |
| `WriterTables.DecideIs` | layawatch/store/writer.py:379-396 | committed iff one of four attempts succeeds with only busy ones before it, requeued iff all four were busy for the first time |
| `WriterTables.DueIffOver` | layawatch/store/writer.py:344-345 | a bucket is due iff the present lies in a later one |
| `WriterCounts.ConservationByItems` | layawatch/store/writer.py:181-217 | the conservation law with every list counted by the traces and logs in it: offered plus offered and sampled out = queued + in flight + committed + waiting + obs_dropped |
| `WriterCounts.CountersCountTraces` | layawatch/store/writer.py:424-452 | after any actions stored row plus open bucket count exactly the committed traces whose start lies in the bucket and whose model and route (errors: status from 400 on) are the key's |
| `WriterCounts.SamplesAddUp` | layawatch/store/writer.py:424-452 | and for latency and queue they count and add up the durations and the queue times of those traces |
| `WriterCounts.RequeuesIff` | layawatch/store/writer.py:385-399 | in any run a busy batch goes back to the front of the queue iff every batch requeued before has been committed or dropped since |
| `WriterLoop.SignalMeansSettled` | layawatch/store/writer.py:252-275 | in every interleaving, when a flush is acknowledged in the loop or the loop is left, queue and batch are empty, all accepted items are committed, dropped and counted, or still waiting, and buckets are open only after a dropped batch |
| `WriterLoop.ExitKeepsOpenOnlyIfDropped` | layawatch/store/writer.py:264-275 | after the exit buckets are still open only if the last batch was dropped |
| `WriterLoop.ClosesAllIff` | layawatch/store/writer.py:264-275 | a flush or an exit closes every bucket iff its batch is not dropped or none was open |
| `WriterLoop.FlushCanLeaveBucketsOpen` | layawatch/store/writer.py:162-177 | a run in which a flush is acknowledged with a bucket still open |
| `WriterLoop.NothingAfterExit` | layawatch/store/writer.py:252-285 | whatever the other threads do after the exit, nothing more is committed |
| `WriterLoop.StrandedExactly` | layawatch/store/writer.py:238-275 | at any time after the exit the queue holds as many items as producers waiting then have moved on, up to its size |
| `WriterLoop.StrandsIff` | layawatch/store/writer.py:238-275 | something can be left in the queue iff a producer was waiting at the exit |
| `WriterLoop.LeavingAcknowledges` | layawatch/store/writer.py:252-285 | a flush acknowledged on the way out leaves unsettled exactly what producers moved into the queue since the exit |
| `WriterLoop.FlushTimesOutIff` | layawatch/store/writer.py:162-177 | once the thread has been through its `finally` every earlier flush is acknowledged and no later one ever is |
| `WriterLoop.FlushCanTimeOut` | layawatch/store/writer.py:162-177 | a run in which a flush that found the thread alive is never acknowledged, whatever comes later |
| `WriterLoop.WaiterCanBeStranded` | layawatch/store/writer.py:238-275 | a run that leaves an accepted trace in the queue of a stopped writer, uncounted |
| `WriterRollupLaws.IncrementalEqualsBatch` | layawatch/store/writer.py:454-484 | after any actions every 60 s and 3600 s row equals the merge of its stored 10 s rows in every column |
| `WriterRollupLaws.RollupConservation` | layawatch/store/writer.py:331-452 | after any actions stored row plus open bucket account for exactly the committed traces of the key, in count, sum, min and max, through any closing and refilling |
| `WriterRollupLaws.StoredRowsAreOrdered` | layawatch/obs/rollup.py:52-98 | every row the writer ever stores keeps its percentile chain and its bounds |
| `Retention.RawTable.DeleteChunk` | layawatch/store/retention.py:186-221 | one statement deletes at most a chunk of doomed rows, in any choice, and fewer only when none are left |
| `Retention.RawTable.Prune` | layawatch/store/retention.py:186-221 | chunked deletion ends with exactly the newest rows within cap and cutoff and reports how many went |
| `Retention.DoomedIsTheTail` | layawatch/store/retention.py:186-203 | the rows meeting the delete predicate are exactly those behind the first keepable ones |
| `Retention.DeletingKeepsCount` | layawatch/store/retention.py:186-203 | deleting any doomed row leaves the set of rows to keep as it was |
| `Retention.GroupingAgrees` | layawatch/store/retention.py:96-130 | retention's WHERE clause selects the traces the writer's grouping assigns to the key |
| `Retention.Pass.PendingKeys` | layawatch/store/retention.py:64-93 | exactly the keys of rows about to be pruned whose own bucket outlives the pass |
| `Retention.Pass.BuildPending` | layawatch/store/retention.py:132-145 | missing 10 s rows appear with the stats of their raw traces; existing rows are untouched |
| `Retention.Pass.CascadeParents` | layawatch/store/retention.py:148-183 | each stale parent becomes the merge of its children, the others stay, and the count says how many |
| `Retention.MergeChildren` | layawatch/store/retention.py:165-183 | expected count and fold of the child rows |
| `Retention.RollUpKeepsComplete` | layawatch/store/retention.py:132-183 | build and cascade keep every parent from any horizon on the merge of its children, also the ones the count check skips |
| `Retention.PassKeepsComplete` | layawatch/store/retention.py:297-338 | a pass that begins with complete parents from some horizon on ends with them from its own, so passes compose |
| `Retention.RollUpBeforePrune` | layawatch/store/retention.py:320-330 | each trace about to be deleted has all its 10 s rows and both parents, whose counts are the sum of their children |
| `Retention.PassRollsUp` | layawatch/store/retention.py:320-330 | a pass leaves every deleted trace rolled up within the horizon and every older 10 s row as it was |
| `Retention.ExistingRowsUntouched` | layawatch/store/retention.py:132-145 | a 10 s row that was there is the same after both phases |
| `Retention.RollUpIsIdempotent` | layawatch/store/retention.py:132-183 | running build and cascade again builds nothing |
| `Retention.Pass.PruneRollups` | layawatch/store/retention.py:224-237 | chunked deletion by bucket ends with exactly the rows at or past the horizon |
| `Retention.NoParentOutlivesItsChildren` | layawatch/store/retention.py:224-237 | when a child row is pruned every parent covering it is pruned |
| `Retention.PruneKeepsComplete` | layawatch/store/retention.py:224-237 | a parent at or past the horizon is still the merge of all its children |
| `Retention.PrunedParentCompleteIff` | layawatch/store/retention.py:224-237 | a complete parent is complete after the prune iff it is at or past the horizon or none of its children survives |
| `Retention.Pass.Apply` | layawatch/store/retention.py:297-338 | one pass: raw tables exactly within their caps, and the rollup table the result of build, cascade and prune on the pending keys |
| `Retention.CrashEquivalence` | layawatch/store/retention.py:96-145 | if the open bucket of a never-closed key is lost and its traces were all kept and are still stored, the row rebuilt from the raw rows is the row the writer would have written |
| `Upkeep.CompleteForLife` | layawatch/store/retention.py:297-338 | over any commits, passes and crashes every parent at or past the last horizon is the merge of its stored 10 s rows |
| `Upkeep.PassBuildsNothing` | layawatch/store/retention.py:132-145 | in a lifetime in which no open bucket was lost a pass finds every 10 s row it looks for, so nothing is counted twice |
| `Upkeep.ConservationForLife` | layawatch/store/writer.py:331-452 | through any passes and restarts that lose no open bucket, stored row plus open bucket of a key within the horizon account for exactly its committed traces |
| `Upkeep.NeverCountedTwice` | layawatch/store/retention.py:96-145 | through any passes and crashes, stored row plus open bucket of a key never count more than its committed traces |
| `Upkeep.PassLeaves` | layawatch/store/retention.py:297-338 | a pass leaves exactly the raw traces within cap and cutoff, no rollup row before its horizon, and the writer as it was |
| `Upkeep.CrashLeaves` | layawatch/store/writer.py:252-285 | a crash leaves a new writer over the tables there were |
| `Upkeep.ChildCanOutliveItsParent` | layawatch/store/retention.py:224-237 | a lifetime of one commit and one pass after which a child row is there and its parent is not |
| `Series.PointIsOverTenSecondRows` | layawatch/store/queries.py:704-726 | at any step a point (rate, count, average or merged percentiles) is the one given by the 10 s rows beneath its bucket |
| `Series.StepIndependence` | layawatch/store/queries.py:729-801 | over a 3600-aligned window at or past the horizon points times step, or error points, add up to the counts of the stored 10 s rows at every step |
| `Series.SeriesOfAnyRun` | layawatch/store/queries.py:729-801 | for the table of any writer run, any two steps give the same window total |
| `Upkeep.SeriesForLife` | layawatch/store/queries.py:729-801 | from the last horizon on any two steps give the same window total, whatever was pruned before it |
| `Series.GridHasNoGaps` | layawatch/store/queries.py:778-784 | emitted buckets are consecutive multiples of the step up to the end of the window |
| `Series.Buckets` | layawatch/store/queries.py:778-784 | the bucket loop emits the grid, or refuses iff it has more than 100000 buckets |
| `Series.ReadSeries` | layawatch/store/queries.py:729-801 | the loop form computes the series, with both refusals |
| `SeriesReading.SeriesTells` | layawatch/store/queries.py:704-794 | at each bucket of a series: rate times step, count, average times count, or percentiles times count are the sums over the rows selected there |
| `SeriesReading.SeriesCovers` | layawatch/store/queries.py:756-784 | the first bucket holds `since`, each next starts where the one before ends, the last reaches `until` |
| `SeriesReading.RefusedIff` | layawatch/store/queries.py:753-784 | refused iff the window is empty or reaches past 100000 buckets |
| `SeriesReading.SeriesOfModel` | layawatch/store/queries.py:760-770 | the series filtered by a model is the unfiltered one over the rows that carry the model |
| `SeriesReading.SeriesOfRoute` | layawatch/store/queries.py:760-770 | the same for a route |
| `SeriesReading.RowsUnfiltered` | layawatch/store/queries.py:740-770 | without a filter, and for errors with any, every stored row of the metric is read |
| `ModelMix.MetricsModels` | layawatch/store/queries.py:893-948 | step by window length, one pass over the query's rows, then every bucket emitted, with both refusals |
| `ModelMix.MixTotalIsItsBuckets` | layawatch/store/queries.py:911-948 | the total equals the sum over the emitted gap-free buckets and listed models |
| `ModelMix.MixOfTable` | layawatch/store/queries.py:907-948 | for the rows the query selects from any table of stored rows, the total equals the sum over the emitted buckets |
| `ModelMix.StepIsFinest` | layawatch/store/queries.py:402-408 | ten seconds while a window has at most 90 such buckets, a minute while it has at most 360 |
| `MixReading.MixAgreesWithSeries` | layawatch/store/queries.py:704-948 | bucket by bucket the mix's count of a model is what the requests series filtered by that model amounts to, in whatever order the rows are read |
| `Paging.CursorCutsTheOrder` | layawatch/store/queries.py:563-588 | the SQL keyset clause of either order is true exactly of the rows sorted behind the cursor's row |
| `Paging.PageIsSlice` | layawatch/store/queries.py:590-630 | a page asked for behind k rows is the next slice of the sorted filtered list; next_cursor is null iff nothing follows; the total ignores the cursor |
| `Paging.CursorCarriesItsOrder` | layawatch/store/queries.py:508-523 | a next_cursor continues in its own order when sent alone and is refused with the other order |
| `Paging.FirstPageIsNewest` | layawatch/store/queries.py:508-630 | without cursor and order, or for the newest: min(limit, n) matching rows, later first and at one moment the greater id first, none left out comes before one listed |
| `Paging.FirstPageIsSlowest` | layawatch/store/queries.py:508-630 | the same by duration, then time, then the smaller id first |
| `Paging.TextLessIs` | layawatch/store/queries.py:302-305 | text ids compare at the first character where they differ, a prefix before what it begins |
| `Paging.FollowTraces` | layawatch/store/queries.py:490-630 | following next_cursor through the trace list, the order sent along or not, yields the matching rows in that order |
| `Paging.FollowPages` | layawatch/store/queries.py:490-630 | following next_cursor to the end yields exactly the filtered list in sort order |
| `Paging.NoRowTwiceNoneLost` | layawatch/store/queries.py:951-1018 | with inserts and deletes between pages no id appears twice and every matching row present throughout appears |
| `Paging.Export` | layawatch/api/logs.py:59-78 | the export is the newest min(10000, n) matching lines |
| `RateLimit.BucketRegistry.Consume` | layawatch/auth/ratelimit.py:178-226 | the in-place call gives the decision, retry and registry of the functional form; a limit of 0 or less tracks nothing |
| `RateLimit.BucketRegistry.Sweep` | layawatch/auth/ratelimit.py:275-279 | drops exactly the buckets whose stored tokens are within the slack of their capacity |
| `RateLimit.BucketRegistry.Reset` | layawatch/auth/ratelimit.py:252-273 | drops the matching buckets, keeps the others, counts them |
| `RateLimit.Envelope` | layawatch/auth/ratelimit.py:178-226 | a token is there iff one more call keeps every window ending now within burst + (limit/window) * length |
| `RateLimit.DecisionIsEnvelope` | layawatch/auth/ratelimit.py:178-226 | each decision in a run over any subjects is the envelope's decision on the subject's own admitted calls, as long as sweeps only drop buckets that are full by then |
| `RateLimitSweep.DecisionsAreRightIff` | layawatch/auth/ratelimit.py:197-226 | after such a run the decisions at a time are right for every subject iff the sweep at that time drops only full buckets |
| `RateLimitSweep.OrdinaryRunsAreHonest` | layawatch/auth/ratelimit.py:197-199 | runs of at most 1024 calls, and runs where every capacity is at least 2, never sweep a bucket too early |
| `RateLimit.RetryIsOfLevel` | layawatch/auth/ratelimit.py:224-226 | the retry of a refusal in a run is that of the subject's own admitted calls |
| `RateLimit.RefusedCallsAreInvisible` | layawatch/auth/ratelimit.py:178-226 | deleting a refused call from a run leaves every subject's admitted calls as they were |
| `RateLimit.RetryIsLeast` | layawatch/auth/ratelimit.py:221-226 | in a run, the subject of a refused call is admitted n whole seconds later iff n is at least the returned retry, whatever others call in between |
| `RateLimitEdits.EditsApplyOnTheNextUse` | layawatch/auth/ratelimit.py:178-226 | with policies that change from call to call, a call is admitted iff the account of its subject's own calls holds a token: each stretch refills at the rate and up to the burst the call before it brought |
| `RateLimitEdits.RetryIsAtTheNewRate` | layawatch/auth/ratelimit.py:224-226 | the retry of a refusal is the least number of seconds at the rate the refused call brings |
| `RateLimitSweep.SweepDropsIff` | layawatch/auth/ratelimit.py:275-279 | a used bucket is swept iff its capacity is 1 and it is within the slack of its token |
| `RateLimitSweep.SubjectsLeft` | layawatch/auth/ratelimit.py:197-223 | after any run and any call exactly which subjects are in the map: a large one loses just the capacity-1 buckets within the slack of their token |
| `RateLimitSweep.MapBoundedIff` | layawatch/auth/ratelimit.py:197-210 | a call leaves at most 1025 subjects iff there were at most 1024 or no more than that survive the sweep |
| `RateLimitSweep.MapGrowsWithSubjects` | layawatch/auth/ratelimit.py:275-279 | distinct subjects all keep their buckets, at any capacity |
| `RateLimitSweep.SweepsCanBeDishonest` | layawatch/auth/ratelimit.py:197-226 | a run of 1026 calls after which a refused call is admitted because its bucket is swept |
| `RateLimitSweep.SweepCanAdmitEarly` | layawatch/auth/ratelimit.py:197-223 | the step behind it: such a sweep admits a call that lacks part of its token |
| `LoginLimit.LoginBackoff.PruneSubject` | layawatch/auth/login_limit.py:85-91 | the subject's stored list becomes its pruned list and the caller holds that very list |
| `LoginLimit.LoginBackoff.Refuse` | layawatch/auth/login_limit.py:36-53 | the refusal step, its own attempt counted through the shared list |
| `LoginLimit.LoginBackoff.Record` | layawatch/auth/login_limit.py:55-63 | the record step and the count it returns |
| `LoginLimit.LoginBackoff.DropStale` | layawatch/auth/login_limit.py:93-99 | a large map loses exactly its wholly aged subjects |
| `LoginLimit.LoginBackoff.ForgetAll` | layawatch/auth/login_limit.py:70-77 | every subject of the email goes, no other, and their number is returned |
| `LoginLimit.AnswersAreThePlainCount` | layawatch/auth/login_limit.py:36-99 | on every run of a nondecreasing clock all answers equal those of a log that never prunes or sweeps |
| `LoginLaws.RefusedIffLimitReached` | layawatch/auth/login_limit.py:44-48 | after any run, refused iff failures and refusals since the last clear inside the window reach the limit |
| `LoginCounts.RefusedIffSoMany` | layawatch/auth/login_limit.py:36-99 | in any run, refused iff at least `limit` wrong passwords and refused attempts of the run lie in the window with no clear after them |
| `LoginCounts.AnswersAreTheNumber` | layawatch/auth/login_limit.py:55-83 | the counting calls answer that number, a new failure included |
| `LoginLaws.WaitIsBounded` | layawatch/auth/login_limit.py:51-53 | every wait a run is answered lies between 1 and ceil(window) |
| `LoginLaws.FirstRefusalIsTwo` | layawatch/auth/login_limit.py:44-53 | the first refusal at the limit answers two seconds, or the ceiling of what caps it |
| `LoginLaws.WaitDoubles` | layawatch/auth/login_limit.py:44-53 | of two refusals with nothing aged out in between and nothing capping them the second answers twice the first |
| `LoginLaws.ClearLetsIn` | layawatch/auth/login_limit.py:65-77 | after a clear of the subject or of its email in any run the subject is let in |
| `LoginLaws.BlockedUntil` | layawatch/auth/login_limit.py:44-48 | after a refusal in any run, with others calling in between, the subject is let in exactly from the time its limit-th newest entry ages out |
| `LoginLaws.LockoutEndsWithTheWindow` | layawatch/auth/login_limit.py:36-53 | asked again a window after a refusal that was left alone, the subject is let in |
| `LoginLaws.RetrySufficesIff` | layawatch/auth/login_limit.py:51-53 | asked again after the answered wait, the subject is let in iff the remaining lockout is at most a second or covered by both the doubling term and the oldest entry's time |
| `LoginLaws.RetryCanBeTooShort` | layawatch/auth/login_limit.py:51-53 | five failures, a refusal answered 2 s, and a refusal 2 s later |
| `LoginLaws.SubjectsLeft` | layawatch/auth/login_limit.py:36-99 | after any run and any call exactly which subjects are in the map: swept down to the live ones only by a counted call on a large map |
| `LoginLaws.MapBoundedIff` | layawatch/auth/login_limit.py:93-99 | a recorded failure or a refusal leaves at most 1024 subjects iff at most 1024 have a live entry |
| `LoginLaws.FailuresGrowTheMap` | layawatch/auth/login_limit.py:55-63 | failures of any number of distinct subjects within one window all stay in the map |
| `LoginLaws.ChecksGrowTheMap` | layawatch/auth/login_limit.py:85-91 | checks of distinct subjects each leave an entry behind until something is counted |
| `Stream.StreamHub.PublishTrace` | layawatch/api/stream.py:126-139 | the publish step: next id, ring of the newest events, every client's queue |
| `Stream.StreamHub.FanOut` | layawatch/api/stream.py:167-170 | the event is appended to every client's queue |
| `Stream.StreamHub.Connect` | layawatch/api/stream.py:172-194 | replay window and registration in one step, refused iff the client limit is reached |
| `Stream.StreamHub.TickBatch` | layawatch/api/stream.py:243-310 | the whole queue leaves as one batch, none when stopping |
| `Stream.StreamHub.ClaimPulse` | layawatch/api/stream.py:243-310 | the caller computes iff nobody else is computing |
| `Stream.StreamHub.ArmPrefetch` | layawatch/api/stream.py:333-346 | at most one timer, none when stopping or without clients |
| `Stream.StreamHub.Prefetch` | layawatch/api/stream.py:348-365 | a superseded timer does nothing; otherwise it claims iff the claim is free |
| `Stream.ExactlyOnce` | layawatch/api/stream.py:126-310 | after any interleaving each client has delivered, pending and queued exactly the trace events from its start id on, once, in order |
| `StreamDelivery.SentIsGiven` | layawatch/api/stream.py:126-139 | after any interleaving the i-th published event is a trace event with the i-th summary and id i + 1 |
| `StreamDelivery.TracesOnceWithTheirSummaries` | layawatch/api/stream.py:126-310 | so each client has delivered, pending and queued exactly those events with their summaries, from its start on, once and in order |
| `StreamDelivery.EveryEventOnce` | layawatch/api/stream.py:126-194 | after any interleaving a client has delivered, pending and queued its replay and then every event published since it connected, logs and models too, once and in order |
| `Stream.StartIsFirstOwed` | layawatch/api/stream.py:172-210 | a connection starts at max(last_id + 1, oldest ring id), or at the next id |
| `StreamReconnect.ReconnectLosesOnlyTheGapIff` | layawatch/api/stream.py:172-210 | for two connections of one run and the id the client really holds: the second delivery lies behind the first, at least max(0, missed - replay) events are lost, and just those iff the client knows its place |
| `StreamReconnect.OneDeliveryIsEnough` | layawatch/api/stream.py:172-210 | a client that was delivered a trace event loses exactly max(0, missed - replay) |
| `StreamReconnect.NothingDeliveredLosesAll` | layawatch/api/stream.py:189-194 | a client without an id loses everything published since it connected |
| `StreamReconnect.FirstEventCanBeLost` | web/src/lib/stream.ts:101-113 | a run that loses an event the ring still holds |
| `Stream.OneProviderCall` | layawatch/api/stream.py:243-365 | never two provider calls at once, and a waiter without a frame waits for a running one |
| `StreamPulse.PrefetchIff` | layawatch/api/stream.py:333-365 | in any run a firing timer calls the provider iff it was armed with a client connected, has neither fired nor been stopped since, and now a client is connected and no call runs |
| `StreamPulse.NothingArmedAfterStop` | layawatch/api/stream.py:333-346 | whatever happens after a stop, no timer is armed |
| `StreamPulse.NeedIff` | layawatch/api/stream.py:286-304 | in any run a client that needs a frame calls the provider iff no call is running, and else waits |
| `StreamPulse.WaiterMovesOnIff` | layawatch/api/stream.py:292-297 | a waiting client moves on iff no call runs or the hub was stopped |
| `StreamPulse.ConnectIff` | layawatch/api/stream.py:172-194 | in any run a new client is refused iff the hub is at its limit, which is never exceeded |
| `StreamBridge.NoLostWakeup` | layawatch/app.py:133-184 | a parked consumer with a clear event and something to see has a wake scheduled or about to be |
| `StreamBridge.WakeArrives` | layawatch/app.py:150-184 | letting the producer finish its call and one callback run brings it back to its poll, queue untouched |
| `StreamBridge.DeliveredIsPrefix` | layawatch/app.py:133-170 | delivered chunks are a prefix of the written ones, the queue being the rest until close; at most 64 wait |
| `StreamBridge.EofIsCompleteIff` | layawatch/app.py:161-166 | at end of stream everything ever written was delivered iff the queue is empty at the done check |
| `StreamBridge.DoneBeforePollIsComplete` | layawatch/app.py:161-166 | if done was set before the poll that found nothing, nothing is lost |
| `StreamBridge.EofCanLoseAChunk` | layawatch/app.py:161-166 | a run in which the last chunk is not delivered |
| `StreamBridgeClose.AtMostOneMoreChunk` | layawatch/app.py:133-192 | in any interleaving after a close at most the chunk in the producer's hand is still put, and every later write breaks |
| `StreamBridgeClose.ProducerEnds` | layawatch/app.py:133-148 | from wherever it is the producer thread ends after a close |
| `StreamBridgeClose.CloseEmptiesTheQueue` | layawatch/app.py:186-192 | a close after a chunk, while parked, or past the end empties the queue and delivers nothing more |
| `StreamBridge.Bridge.TryPut` | layawatch/app.py:143-147 | the chunk goes to the back of the queue iff there is room |
| `StreamBridge.Bridge.ReadUntilYield` | layawatch/app.py:152-170 | the stretch without a yield: a chunk, end of stream, or clear and park |
| `Recorder.Context.Exit` | layawatch/obs/recorder.py:243-253 | duration and status are set; the stack is popped only if the span is on top |
| `Recorder.Context.CloseLeaked` | layawatch/obs/recorder.py:388-389 | every span still on the stack is closed at the trace's end |
| `Recorder.Context.SumTopLevel` | layawatch/obs/recorder.py:390-393 | the sum over observations without a parent |
| `Recorder.Context.Finish` | layawatch/obs/recorder.py:361-441 | the assembled trace, once; a second finish returns nothing |
| `Recorder.IntervalsFormATree` | layawatch/obs/recorder.py:219-400 | whatever the exit order, kept intervals nest or do not overlap, siblings are disjoint, children lie inside their parents |
| `Recorder.FrameworkIsTheRest` | layawatch/obs/recorder.py:386-400 | framework + top-level durations = duration exactly for kept traces, so the clamp never fires |
| `RecorderReports.SpanIsReported` | layawatch/obs/recorder.py:243-253 | a span has failed iff its body raised, whatever comes later; exited from the top its interval stays from enter to exit |
| `RecorderReports.EventIsReported` | layawatch/obs/recorder.py:309-333 | an event has failed iff it says so, takes no time and stays with the innermost span |
| `RecorderReports.TraceIsReported` | layawatch/obs/recorder.py:361-441 | the one trace lasts to the finish, is kept as asked, and shows every observation, those still on the stack ending with it |
| `Redact.ScrubIsLongestFit` | layawatch/obs/redact.py:67-80 | the result is the longest prefix of the stripped text whose UTF-8 encoding fits the limit |
| `Redact.ScrubTwice` | layawatch/obs/redact.py:67-80 | scrubbing twice is scrubbing once at the smaller limit |
| `Redact.StripKeepsPrintable` | layawatch/obs/redact.py:67-80 | stripping keeps the tabs, newlines and characters outside U+0000-001F and U+007F-009F in their order, and no others |
| `Redact.UnchangedIff` | layawatch/obs/redact.py:67-80 | a text comes back as it is iff all of it is such and it fits |
| `Redact.RoundTrip` | layawatch/obs/redact.py:36-38 | decoding an encoded text gives it back |
| `Redact.CutKeepsWhatFits` | layawatch/obs/redact.py:77-79 | cutting the bytes anywhere and decoding leniently keeps exactly the whole characters before the cut |

## Left out

- DecisionIsEnvelope: asks that no sweep drops a bucket that is not full by then, because the law is false otherwise; `DecisionsAreRightIff` shows the condition exact and `OrdinaryRunsAreHonest` covers the usual runs.
- RefusedCallsAreInvisible: the same condition, on the run with and without the refused call.
- RetryIsLeast: the same condition.
- EditsApplyOnTheNextUse: asks that no more than 1024 subjects have called, so that no sweep runs; what a sweep drops is `RateLimitSweep.SweepDropsIff`.
- RetryIsAtTheNewRate: the same condition.
- EofIsCompleteIff: delivery of everything at end of stream is false in general; the condition is exact.
- CrashEquivalence: asks that none of the key's committed traces was sampled out, since those leave no raw row, and that the key was never closed.
- ChecksGrowTheMap: is about the object alone; its one caller, `layawatch/api/auth.py:92-127`, follows every check that lets a login through with a recorded failure or a clear, so `FailuresGrowTheMap` is the run that matters there.
- PassLeaves: a lifetime does not prune the log table; `Retention.Pass.Apply` does.
- CompleteForLife: a retention pass is one event and is not interleaved with a commit, and its pending keys are not open in the writer.
- Collect: how long the time window is left open, and the waits between items, are the caller's choice of a count.
- TickBatch: the cadence, the pulse and ping frames and the age of a cached frame are decided outside; a stream that ends while it waits for a frame is a disconnect with a batch still pending.
- ClaimPulse: whether the cached frame is too old is decided outside.
- Prefetch: a superseded timer callback is no step at all, so one flag stands for the registered timer.
- Finish: whether a trace is kept, and the trace fields other than durations and observations, are given.
- Methods that make one assignment and are a step by that (marking done, scheduling a wake, registering a span, and the like) have no row of their own.
- ValueErrors for arguments no caller in the repository passes (unknown step, q outside (0, 1], constructor bounds) are types or preconditions.
- Float rounding, wall-clock jumps and clocks read before a lock is taken: reals, and clocks that do not run backwards.
- Percentile columns are NULL together or not at all; they are one optional value.
- SQLite internals, statement order inside a transaction, busy timeouts and migrations: an attempt succeeds, is busy or fails.
- Retention's payload nulling, session pruning, checkpoint and vacuum: single statements.
- The writer's `on_flush`, latency counters, the timeouts of flush and stop, and a crash of its thread: waits and timeouts are actions here.
- `StreamHub.attach` runs once before everything else, and the content of pulse frames, pings and SSE framing is not modelled.
- No span exits after `finish`, and a span exits at most once, as `with` guarantees.
- Parsing of query parameters, cursor encoding and the shape of JSON answers: cursors are the values they decode to, filters are predicates.
- The sorted model list of the model mix is a set; the law holds for any order of it.
- Lone surrogates, which `encode` rejects, cannot occur: a character is a Unicode scalar value.
- Key and pattern redaction of captured payloads, users, sessions, key rotation, HTTP handlers, the UI and the engine adapter: guards and plumbing.
