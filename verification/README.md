# Operator health report: a verified model

The health report checks the operators of a fleet of managed clusters. This project models, in Dafny, the
parts of it that are algorithms or protocols rather than plumbing, and proves what they guarantee.

* **Promotion pipeline** (`PipelineEdges`, `PipelineLevels`, `StageNames`, `PipelineStages`,
  `PipelineTheorems`, `PipelineNames`). Publish and subscribe channels are joined into edges; nodes are
  layered by repeated waves, cyclic leftovers are appended one by one; levels are cut into stages by
  environment and kind; and repeated stage names are numbered.
* **Concurrent runs.** The pool that checks clusters under a semaphore and a wait group (`Scheduler`,
  `SchedulerProofs`), the central checks that run once per environment and are replayed on every cluster
  (`Central`, with the result counters in `Results`), and the elevation and audit state that all checks of
  a cluster share (`Elevation`, `ElevationRuns`). Each is a state machine over atomic steps, and the
  theorems range over every run.
* **Time series.** The sawtooth leak detector (`Sawtooth`), event deduplication (`Events`), merging and
  adding series (`SeriesModel`, `Timeline`, `Aggregation`), the top-n selection (`TopSeries`), and the
  ingestion balance statistic (`Balance`, `BalanceSizes`, with real arithmetic in `Reals`).
* **Bounded retry** (`Retry`), around an operation and around one HTTP round trip.

`Sequences`, `Sums`, `Text` and `Runs` hold shared facts about sequences, sums, strings and runs of a state
machine.

Loops of the program are methods with loops, in-place algorithms work on arrays, and objects are classes;
each method is tied to a specification function or predicate, and the theorems are about those. Go's map
iteration is an arbitrary choice of a remaining key. Floating-point numbers are reals; where the program
takes a square root and compares it with 1.5, the model compares the square with 2.25.

What the proofs found in the code:

* An edge of the pipeline can be lost when a node name and a channel both contain a colon, because the
  remembered key is ambiguous. No other pair of names can clash, and in particular arrows in names are
  harmless.
* A node name that occurs twice and depends on a cycle is staged only once.
* A stage name stays ambiguous if an environment is itself called like a numbered stage of a repeated name.
* The sawtooth test `sharpDrops >= 3` is implied by the growth-segment test. The comment beside it speaks
  of 50% and 30% drops; the code uses 40%.
* The 40% share test of the balance check matters only from ten clusters on, and its warning can fire only
  from four on.
* The reason for which elevation was denied is not settled by the first refusal: the flag is tested and set,
  and the reason written, without a lock, while a cluster's operators share one client. Of two tasks refused
  together the later one replaces the reason of the other. After the flag is set, the reason can still change
  exactly while a task past the test holds another one; no more reasons are written than there are tasks.
* A connected client can come to report a denial reason exactly when its elevated login did not fail. So one
  whose login failed never reports a reason, even if a later error names one; and one that must not elevate at
  all can report a reason, because the error of a call is inspected whenever elevation was asked for.
* An audit entry can name the check of another operator: the check name is a field of the shared client, and
  the entry takes whatever name was set last.
* Whenever a list names a cluster twice and there are operators, some uncancelled run writes a report with a
  skip record and a result for it.

## Model

| member | source | states |
|---|---|---|
| `PipelineEdges.BuildEdges` | pkg/saas/pipeline.go:276-308 | the returned list is the first-per-key selection of the joins, and both ends of every edge are nodes of the pipeline |
| `PipelineEdges.PublisherIsLast` | pkg/saas/pipeline.go:278-283 | the channel index holds exactly the published channels, each with the name of its last publisher |
| `PipelineEdges.JoinsAreJoined` | pkg/saas/pipeline.go:288-303 | a triple is a candidate exactly when it leads from the last publisher of a channel to a subscriber of it |
| `PipelineEdges.EdgesAreSound` | pkg/saas/pipeline.go:276-308 | every edge is such a triple, and no edge occurs twice |
| `PipelineEdges.EdgesInOrder` | pkg/saas/pipeline.go:287-303 | edges are listed by subscriber in input order, and for one subscriber in the order of its subscriptions |
| `PipelineEdges.EdgesAreCompleteIff` | pkg/saas/pipeline.go:294-298 | every triple becomes an edge if and only if no two triples share the text key |
| `PipelineEdges.SameChannelNoClash` | pkg/saas/pipeline.go:294 | two triples over one channel never share a key |
| `PipelineEdges.ColonFreeNoClash` | pkg/saas/pipeline.go:294 | no two triples share a key when no node name holds a colon, or when no channel does |
| `PipelineEdges.ColonsCanLoseAnEdge` | pkg/saas/pipeline.go:294-298 | a pipeline with colons in both, one of whose subscriber edges is lost |
| `PipelineLevels.CountDependencies` | pkg/saas/pipeline.go:316-333 | after the edge loop every in-degree is the number of distinct dependencies, and the dependency sets are those of the edges |
| `PipelineLevels.RunWaves` | pkg/saas/pipeline.go:340-373 | the wave loop ends (the number of unplaced nodes falls) with the run of nonempty waves and the set of nodes they place |
| `PipelineLevels.BuildLevels` | pkg/saas/pipeline.go:315-381 | in-degree seeding, waves and appended leftovers together give the specified level list |
| `PipelineLevels.WavePlacesIffNoCycle` | pkg/saas/pipeline.go:351-373 | a wave places a node if and only if no cycle, self-loops included, lies on it or among its transitive dependencies |
| `PipelineLevels.LeftoversAreCyclic` | pkg/saas/pipeline.go:375-381 | the nodes appended at the end are exactly those on or downstream of a cycle, each once, and every level past the waves holds one of them alone |
| `PipelineTheorems.LeftoversInOrder` | pkg/saas/pipeline.go:375-381 | the leftovers come in the order in which the input first names them |
| `PipelineLevels.LevelIsLongestChain` | pkg/saas/pipeline.go:351-373 | the level of a wave-placed node is the length of the longest dependency chain ending at it: no chain is longer, and one is as long |
| `PipelineLevels.DependencyEarlier` | pkg/saas/pipeline.go:355-371 | every dependency of a wave-placed node lies in a strictly earlier wave |
| `PipelineLevels.DependencyJustBefore` | pkg/saas/pipeline.go:355-371 | a node past wave 0 has a dependency in the wave just before its own |
| `PipelineLevels.EdgeIntoWaveAscends` | pkg/saas/pipeline.go:351-381 | the source of an edge into a wave-placed node lies on a strictly earlier level, so no leftover points into a wave |
| `PipelineLevels.LevelUnique` | pkg/saas/pipeline.go:351-381 | no node name is on two levels |
| `PipelineLevels.UnplacedWalk` | pkg/saas/pipeline.go:375-381 | when the waves stop, dependency walks of unplaced nodes can be followed for any length without leaving them |
| `PipelineStages.EmitLevel` | pkg/saas/pipeline.go:404-425 | one level becomes one stage per nonempty (environment, e2e) group: known environments in fixed order, the rest after them in any order |
| `PipelineStages.BuildStages` | pkg/saas/pipeline.go:315-441 | the result is the staging of the specified levels for some admissible order of the unknown groups, under the final names |
| `PipelineTheorems.BuildPipeline` | pkg/saas/pipeline.go:176-180 | the pipeline as built: the stages extend the edges linearly exactly when there is no cycle, and permute the nodes when names are distinct |
| `PipelineTheorems.LinearExtensionIffAcyclic` | pkg/saas/pipeline.go:315-426 | for every order of the unknown groups, each edge leads to a strictly later stage if and only if the graph has no cycle |
| `PipelineTheorems.StageIsOneGroup` | pkg/saas/pipeline.go:387-425 | all members of a stage share one level and one (environment, e2e) pair, no other stage has both, and no stage is empty |
| `PipelineTheorems.LevelInPromotionOrder` | pkg/saas/pipeline.go:385-418 | of two stages on one level, integration comes before stage, stage before production, and these before any other environment; within one of the three, e2e nodes come after the others |
| `PipelineTheorems.LookupIsLast` | pkg/saas/pipeline.go:335-338 | of nodes that share a name the last one decides environment and kind |
| `PipelineTheorems.StageInInputOrder` | pkg/saas/pipeline.go:355-400 | every stage lists its members in the order of the input |
| `PipelineTheorems.StagesPermuteNodesIff` | pkg/saas/pipeline.go:315-426 | all stages together are a permutation of the node names if and only if no repeated name depends on a cycle; distinct names suffice |
| `PipelineTheorems.StagedCount` | pkg/saas/pipeline.go:315-426 | a name is staged as often as it was given, but only once when it depends on a cycle |
| `PipelineTheorems.RepeatedCyclicNameIsLost` | pkg/saas/pipeline.go:375-381 | a self-dependent node listed twice is staged once by every staging |
| `StageNames.Disambiguate` | pkg/saas/pipeline.go:428-439 | renaming in place: members stay, and the name of stage i is its base name or that name with its wave number |
| `StageNames.RepeatedNamesAreNumbered` | pkg/saas/pipeline.go:433-439 | a base name used k > 1 times receives the waves 1 to k, each once and in stage order; a name used once stays |
| `StageNames.NamesDistinctIff` | pkg/saas/pipeline.go:428-439 | the final names are pairwise distinct if and only if no single-use name reads like a numbered one |
| `StageNames.SameFinalName` | pkg/saas/pipeline.go:428-439 | two stages with one final name are one numbered and one single-use stage |
| `StageNames.WaveNameInjective` | pkg/saas/pipeline.go:437 | a numbered name determines its base name and its number |
| `StageNames.StageTexts` | pkg/saas/pipeline.go:437-467 | the literal stage names of the known environments, of any other one, and of a numbered stage |
| `StageNames.NoClashWithoutClosingParenthesis` | pkg/saas/pipeline.go:445-467 | no clash is possible when no environment name ends in a closing parenthesis |
| `PipelineNames.WavesFollowLevels` | pkg/saas/pipeline.go:387-467 | with known environments, stages that share a first name belong to one group on ascending levels, so wave numbers count the levels on which the group occurs |
| `PipelineNames.StageNamesDistinct` | pkg/saas/pipeline.go:428-467 | the stages that are built have pairwise distinct names when no node's environment ends in a closing parenthesis |
| `PipelineNames.StageNamesDistinctIff` | pkg/saas/pipeline.go:428-439 | counting, over the levels of the graph, the groups that give each first name: the stages have pairwise distinct names if and only if no name counted once reads like number w of a name counted k > 1 times, 1 <= w <= k |
| `PipelineNames.OrderDoesNotMatter` | pkg/saas/pipeline.go:417-439 | two stagings of the same nodes and edges agree on whether stage names are distinct, whatever order the map hands out the groups in |
| `PipelineNames.StageNamesCanClash` | pkg/saas/pipeline.go:433-467 | three nodes for which every staging, whatever the edges and the group order, gives two stages one name |
| `Scheduler.Clamp` | cmd/healthcheck/main.go:766-771 | of the limits that are at least 1 and at most the number of clusters, if any, the one nearest to what was asked for |
| `SchedulerProofs.InvReached` | cmd/healthcheck/main.go:772-989 | every state of every interleaving satisfies the pool's invariant |
| `SchedulerProofs.InvKept` | cmd/healthcheck/main.go:778-989 | each atomic step of main, a worker or an operator task keeps it |
| `SchedulerProofs.AtMostParallelWorkers` | cmd/healthcheck/main.go:774-792 | the workers holding a slot number exactly the slots in use, never more than the limit |
| `SchedulerProofs.SkippedOrChecked` | cmd/healthcheck/main.go:795-961 | a cluster listed once never has both a skip record and results, nor two skip records, nor more results than operators |
| `SchedulerProofs.CompleteRun` | cmd/healthcheck/main.go:772-992 | when an uncancelled run writes its results, each cluster has one skip record and no result, or no skip record and one result per operator; the audit totals are the sums over the clients, and every record of a cluster listed once carries its client's operations |
| `SchedulerProofs.NoDeadlock` | cmd/healthcheck/main.go:778-992 | before the results are written some pool step is always enabled |
| `SchedulerProofs.RunsAreBounded` | cmd/healthcheck/main.go:778-992 | no run takes more than (11 + 4 per operator) pool steps per cluster, plus 3 |
| `SchedulerProofs.StepsUseUpWork` | cmd/healthcheck/main.go:778-992 | every pool step uses up remaining work, and interrupts and API calls add none |
| `SchedulerProofs.InterruptStopsStarting` | cmd/healthcheck/main.go:778-895 | in every run from an interrupted state, clusters not yet begun stay that way, but for one that main already waits for a slot for, and no worker starts another task |
| `SchedulerProofs.SkippedIffFailed` | cmd/healthcheck/main.go:795-845 | a cluster is skipped if and only if its metadata was not usable or its connection failed |
| `SchedulerProofs.AuditTotalIsCallsMade` | cmd/healthcheck/main.go:974-984 | the audit total of an uncancelled run is the number of elevated calls its checks made |
| `SchedulerProofs.AttachReachesCluster` | cmd/healthcheck/main.go:963-972 | attaching an audit list reaches every record made so far that names the cluster, and no other |
| `SchedulerProofs.AttachedOnce` | cmd/healthcheck/main.go:963-972 | in every run records stay in place and an attached audit list is never replaced |
| `SchedulerProofs.EveryRunCanFinish` | cmd/healthcheck/main.go:778-992 | from every reachable state pool steps alone lead to the writing of the results, and no record is lost on the way |
| `SchedulerProofs.MixesIffRepeated` | cmd/healthcheck/main.go:778-992 | for every cluster list and limit, the report written by some uncancelled run gives one cluster both a skip record and a result if and only if there are operators and the list names a cluster twice |
| `Central.OneExecutionPerEnvironment` | pkg/checks/rlr/central.go:35-80 | in every interleaving at most one execution per environment takes place |
| `Central.FinishedHasReplayed` | pkg/checks/rlr/central.go:65-88 | a finished cluster past the guards has appended exactly its environment's one result list, in order, and counters still agree; one stopped by the guards has appended nothing |
| `Central.SameEnvironmentSameResults` | pkg/checks/rlr/central.go:76-88 | two finished clusters of one environment have appended the same list |
| `Central.NoDeadlock` | pkg/checks/rlr/central.go:65-88 | while a cluster is unfinished some task can move |
| `Central.RunsAreBounded` | pkg/checks/rlr/central.go:35-88 | no interleaving takes more than seven steps per cluster plus, for each, the length of the longest list found |
| `Central.InvKept` | pkg/checks/rlr/central.go:41-88 | each step keeps the agreement of gates, cache, executions and replays |
| `Results.ClusterContext.AddResult` | pkg/checks/types.go:183-191 | appends the result, raises the counter of its status, and keeps the counters equal to a scan of the list |
| `Results.ClusterContext.AddAll` | pkg/checks/rlr/central.go:83-87 | replaying a list appends it in order and keeps the counters equal to a scan |
| `Results.ClusterContext.OverallStatus` | pkg/checks/types.go:254-266 | critical exactly with a failed result, warning exactly with a warning and no failure, healthy otherwise |
| `Results.ClusterContext.Summary` | pkg/checks/types.go:269-292 | the reported status and counters agree: critical iff the critical count is positive, warning iff only the warning count is |
| `Results.CountersDecide` | pkg/checks/types.go:183-266 | running counters and scanned status never contradict each other |
| `Results.CountersAreNumbers` | pkg/checks/types.go:183-191 | the two counters are the numbers of failed and of warning results |
| `Elevation.ClusterClient.constructor` | pkg/kube/client.go:289-325 | elevation is available only if wanted, justified and granted; a refused login leaves it broken with no reason |
| `Elevation.ClusterClient.CheckElevatedError` | pkg/kube/client.go:399-421 | run without interference, the first refusal disables elevation and names its reason, and later ones change nothing |
| `Elevation.ClusterClient.RecordElevatedOp` | pkg/kube/client.go:423-431 | counter and log grow together, the entry tagged with the current check unless it carries a tag |
| `Elevation.ClusterClient.Call` | pkg/kube/client.go:455-492 | run without interference, a get or list records itself exactly when it goes elevated, and inspects its error exactly when elevation was asked for |
| `Elevation.RefusalTexts` | pkg/kube/client.go:399-421 | the literal texts that disable elevation, and that a request for access takes precedence |
| `ElevationRuns.RunsAreAudited` | pkg/kube/client.go:384-492 | over any interleaving of unlocked tests and writes, log and counter agree, nothing is counted under NoElevate or without an elevated client, broken elevation stays broken, the log only grows, and once elevation is broken or every task is past the test a reason is written only by a task that held it already |
| `ElevationRuns.StepIsMonotone` | pkg/kube/client.go:384-431 | a reason changes only by the write of a task that holds it, after the flag is set; a new log entry carries a check tag whenever a check is set |
| `ElevationRuns.PlainCallsLeaveNoTrace` | pkg/kube/client.go:455-492 | a run in which no call asks for elevation records nothing, breaks nothing and names no reason |
| `ElevationRuns.CallsAfterBreaking` | pkg/kube/client.go:399-492 | once elevation is broken, recorded calls plus tasks between check and record stay constant, and so do written reasons plus tasks between test and write |
| `ElevationRuns.LateRecordsIff` | pkg/kube/client.go:455-473 | from any broken client, k further calls can be recorded if and only if at least k tasks are between check and record |
| `ElevationRuns.LateRecordIsPossible` | pkg/kube/client.go:455-473 | two tasks reach such a state: one records after the refusal of the other broke elevation |
| `ElevationRuns.OneNamePerTask` | pkg/kube/client.go:399-421 | in a run that starts unbroken, no more reasons are written than there are tasks, and none before the flag is set |
| `ElevationRuns.ReasonsIff` | pkg/kube/client.go:399-421 | any client in any sound state can come to show a reason if and only if it shows it already, a task past the test holds it, or elevation is unbroken, some task is not past the test, and it is one of the two reasons |
| `ElevationRuns.ReasonCanChangeIff` | pkg/kube/client.go:399-421 | the reason can still change if and only if a task past the test holds another one, or elevation is unbroken and some task is not past the test |
| `ElevationRuns.ReasonCanBeReplaced` | pkg/kube/client.go:399-421 | a run of two tasks from the connected client in which access_request is replaced by forbidden |
| `ElevationRuns.ConnectedCanShowIff` | pkg/kube/client.go:289-325 | as connected, a client shared by n tasks can come to name either reason if and only if n > 0 and its elevated login did not fail, which includes clients that never attempted one |
| `ElevationRuns.BrokenAtLoginStaysSilent` | pkg/kube/client.go:299-323 | from the connection on, a client whose elevated login failed never names a denial reason nor records a call, in any interleaving of any number of tasks |
| `ElevationRuns.TagIsOwnIff` | pkg/checks/types.go:173-180 | a recorded call is tagged with its own task's check if and only if the last task to set a check was that task or set the same name, or the text carries its own tag |
| `ElevationRuns.TagCanBeForeign` | pkg/checks/types.go:173-180 | a run in which a call is recorded under the check of another operator |
| `ElevationRuns.CallIsARun` | pkg/kube/client.go:399-492 | the client's complete call is one task's run of the interleaved steps |
| `Sawtooth.Detect` | pkg/checks/hcp/hcp.go:785-833 | series of fewer than 8 points are not judged; otherwise the verdict is that three growth-then-drop cycles exist, and the reported number is that of all sharp drops |
| `Sawtooth.DropsAreCounted` | pkg/checks/hcp/hcp.go:808-828 | the drop counter is the number of indices with a sharp drop |
| `Sawtooth.Thresholds` | pkg/checks/hcp/hcp.go:814-824 | a sharp drop is a fall below three fifths of a positive value, growth a rise above 51 fiftieths |
| `Sawtooth.SegmentsAreOptimal` | pkg/checks/hcp/hcp.go:808-828 | the growth-segment count is the largest k for which g1 < d1 < ... < gk < dk exist, and never exceeds the drop count |
| `Sawtooth.ScanIsLongest` | pkg/checks/hcp/hcp.go:808-828 | no alternating chain of growth steps and drops is longer than the one the scan has counted |
| `Sawtooth.ScanRealised` | pkg/checks/hcp/hcp.go:808-828 | such a chain of the counted length exists |
| `Sawtooth.VerdictMeansThreeCycles` | pkg/checks/hcp/hcp.go:829-833 | the two-fold test means exactly that three cycles exist; the drop count adds nothing to it |
| `Sawtooth.ScanIsScaleFree` | pkg/checks/hcp/hcp.go:808-828 | multiplying all values by a positive factor changes no counter |
| `Events.Dedup` | pkg/checks/hcp/hcp.go:716-740 | the result is the specified selection of the events, cut to its first 80 |
| `Events.Kept` | pkg/checks/hcp/hcp.go:724-737 | the kept events are given by strictly increasing positions, so their order is the input order |
| `Events.KeptIsFirst` | pkg/checks/hcp/hcp.go:724-737 | the kept event of a (type, workload, hour) is the first of its kind |
| `Events.HoursAreWhole` | pkg/checks/hcp/hcp.go:720 | hours are whole hours of 3600 seconds from the epoch on |
| `Events.KeptPerBucket` | pkg/checks/hcp/hcp.go:716-737 | at most one event per (type, workload, hour), and no restart in an hour with an OOM of its workload |
| `Events.CoveredIff` | pkg/checks/hcp/hcp.go:716-737 | every event is covered by a kept one of its bucket or, for a restart, by a kept OOM, if and only if equal keys mean equal buckets and an OOM and a restart with equal OOM keys share workload and hour |
| `Events.DroppedIsCovered` | pkg/checks/hcp/hcp.go:586-737 | for times that are not negative, as those of the past week are, every event is covered |
| `Events.DedupIsIdempotent` | pkg/checks/hcp/hcp.go:716-737 | deduplicating twice is deduplicating once |
| `Events.KeysSeparateWhen` | pkg/checks/hcp/hcp.go:720-731 | that condition on keys holds when no hour is negative, or when no workload ends in a dash |
| `Timeline.SortPoints` | pkg/thanos/thanos.go:199-206 | sorts by time in place and keeps the multiset of points |
| `Timeline.Timeseries` | pkg/thanos/thanos.go:77-109 | lists, in strictly ascending time order, the last value written per time over all series, for any map order |
| `Timeline.DecodedRows` | pkg/thanos/thanos.go:84-98 | exactly the rows that decode to a finite sample are merged, in their order |
| `Timeline.LastWriteIsLast` | pkg/thanos/thanos.go:84-100 | the value kept for a time is the one of the last sample of that time |
| `Timeline.ListingUnique` | pkg/thanos/thanos.go:102-108 | such a listing is unique, so neither map order nor the sorting method shows |
| `Timeline.TrendComparesExtremes` | pkg/thanos/thanos.go:159-170 | trend over a merged timeline takes the values at the least and the greatest time, and its percentage leads from one to the other |
| `Timeline.TrendOfLittle` | pkg/thanos/thanos.go:159-170 | trend of fewer than two points is zero, and its percentage is zero when the first value is |
| `SeriesModel.PeakOf` | pkg/thanos/thanos.go:148-156 | the running maximum is the peak |
| `SeriesModel.PeakIsMaximum` | pkg/thanos/thanos.go:148-156 | the peak bounds every value, is never negative, and is attained unless it is zero |
| `Timeline.SumTimeseries` | pkg/checks/hcp/hcp.go:1311-1325 | lists in ascending order the map left by overwriting with a and adding b |
| `Timeline.SumIsPointwise` | pkg/checks/hcp/hcp.go:1311-1325 | the sum has the times of both series and adds pointwise; a time repeated in a counts with its last value only |
| `Timeline.SumConservesMass` | pkg/checks/hcp/hcp.go:1311-1325 | the total of the sum is the total of both series when the first has distinct times |
| `Timeline.AggregateByWorkload` | pkg/checks/hcp/hcp.go:609-619 | one series per workload: exactly the times of its series, each once and, for ascending series, in ascending order, with the sum of their values at each |
| `Aggregation.TopWorkloads` | pkg/checks/hcp/hcp.go:609-630 | the whole aggregation: of the merged series, listed in any map order, the best 15 by peak in falling order, or all of them if there are no more than 15 |
| `Timeline.AggregateIgnoresOrder` | pkg/checks/hcp/hcp.go:609-619 | two aggregations of the same series in different orders give the same timelines |
| `TopSeries.TopByPeak` | pkg/checks/rlr/rlr.go:2258-2291 | more than n series: the result is a top-n choice by peak from distinct positions, in falling order; otherwise all of them unchanged |
| `TopSeries.TopByWorstRatio` | pkg/checks/rlr/rlr.go:2293-2325 | the dual for the smallest minima, capped at 1: any value below 1 of a series left out is matched by one no larger in every chosen series |
| `TopSeries.WorstIsMinimum` | pkg/checks/rlr/rlr.go:2303-2309 | the score of a series bounds all its values from below, is at most 1, and is attained unless it is 1 |
| `TopSeries.SelectMax` | pkg/checks/rlr/rlr.go:2276-2284 | one round swaps the best remaining entry to the front and settles it |
| `TopSeries.TopScoresAgree` | pkg/checks/rlr/rlr.go:2258-2291 | two top-n choices from one list show the same scores in the same order |
| `TopSeries.SortedCutIsTop` | pkg/checks/hcp/hcp.go:624-629 | sorting all aggregated series by peak and cutting gives a top-n choice too, whatever the sort does with ties |
| `Balance.Collect` | pkg/checks/rlr/rlr.go:1345-1372 | the positive readings with their total, largest and smallest, and the clusters of the first largest and the first smallest |
| `Balance.RatesAreThose` | pkg/checks/rlr/rlr.go:1354-1358 | exactly the readings that parse to a positive number are counted, in order |
| `Balance.MinBounds` | pkg/checks/rlr/rlr.go:1368-1371 | the running minimum is the smallest rate |
| `Balance.CheckIngestionBalance` | pkg/checks/rlr/rlr.go:1345-1407 | fewer than 3 rates are not judged; otherwise the figures satisfy their defining equations, the extremes are named by their first clusters, and skewed means CV >= 1.5 and share > 40% |
| `Balance.CvBetweenShares` | pkg/checks/rlr/rlr.go:1381-1387 | for n positive rates, n share^2 <= CV^2 + 1 <= n share |
| `BalanceSizes.WarningPossibleIff` | pkg/checks/rlr/rlr.go:1374-1404 | some n positive rates are called skewed if and only if n is at least 4 |
| `Balance.UpToThreeNeverSkewed` | pkg/checks/rlr/rlr.go:1374-1404 | no list of up to three positive rates is |
| `Balance.ShareTestImpliedUpToNine` | pkg/checks/rlr/rlr.go:1400 | for up to nine clusters the share test is implied by the CV test |
| `BalanceSizes.ShareTestImpliedIff` | pkg/checks/rlr/rlr.go:1400 | for lists of n positive rates the share test adds nothing to the CV test if and only if n is at most 9 |
| `Retry.WithRetry` | pkg/kube/client.go:129-159 | at most 4 calls, stopping at the first success, denial, permanent error or interrupt; success iff the last call succeeded; waits as specified |
| `Retry.RepeatedWhen` | pkg/kube/client.go:129-159 | another attempt follows exactly a transient error that is no denial, before the fourth attempt and uninterrupted |
| `Retry.RetryableTexts` | pkg/kube/client.go:92-114 | the fifteen literal texts that make an error transient |
| `Retry.DeniedTexts` | pkg/kube/client.go:116-127 | the four literal texts that make it a denial |
| `Retry.WaitsAreBounded` | pkg/kube/client.go:86-90 | the 15 s cap never binds and the waits total less than 17.5 s |
| `Retry.CappedBackoff` | pkg/kube/client.go:86-90 | a fourth wait would be 15 s |
| `Retry.RoundTrip` | pkg/kube/client.go:183-232 | at most 4 attempts; a 429, a status of 500 or more, or a transient network error is returned only by attempt 4, and only those are repeated; closes the bodies received before; the trailing return is never reached |
| `Retry.BodiesAreAccountedFor` | pkg/kube/client.go:206-228 | every received body but the returned one is closed exactly once, the returned one never, and a 429 or 5xx is returned only by attempt 4 |
| `Retry.StopIsUnique` | pkg/kube/client.go:187-228 | the replies determine at which attempt a round trip stops |
| `Retry.NestedRetryBound` | pkg/kube/client.go:129-232 | an operation with retry whose calls are round trips with retry makes between 1 and 16 delegate calls, and 16 exactly when nothing short of the last attempt settled anything on either level |

## Left out

- Network and process I/O, JSON and YAML decoding, HTML, logging and flags: their results are parameters or arbitrary choices. A row of a range query that does not decode to a finite sample is `None`.
- The node fields that edges and stages do not read, and the environment heuristics that fill them in.
- The per-operator checks that switch on one fetched status; they would only add easy members.
- Hive clusters: they are processed one after the other once the pool is done.
- Floating-point rounding, NaN and infinities.
- Real time: waits are numbers of nanoseconds, cancellation is a flag that may be raised at any step, and the five-second grace period after an interrupt is a step that main may take at any moment.
- The pool's mutex: appending to a shared list is one atomic step.
- Scheduler.Clamp: the earlier clamp against the list before filtering is the same code and is not repeated.
- Elevation.ClusterClient.Call: stands for both GetResource and ListResources, whose bodies differ only in the API call and the text of the entry, and describes a call with which no other task interferes; what interference does is stated over the interleaved steps. The retry loop around the API call is not joined to it here.
- Elevation.ClusterClient.CheckElevatedError: describes the function run without interference, as above.
- ElevationRuns.RunsAreAudited: each read and write of a shared field is one atomic step; the race detector's view, in which an unlocked access may tear, is not modelled. Recording a call is one step because the program holds a lock there; the check name it reads twice is read once. An exec is an elevated call whose error may or may not be inspected afterwards.
- ElevationRuns.LateRecordsIff: covers gets, lists and execs, which record one call per permission check. Some checks test once and then record several secret reads of their own; those are not steps of this model.
- Timeline.AggregateByWorkload: promises totals when each series has distinct times, as one Prometheus series has; a workload's first series is copied as it is, so a time repeated in it counts with its last value once another series is added. The probe address that a series carries along is left out.
- Aggregation.TopWorkloads: promises this under the same condition; a selection sort stands in for the library's sort, and by `TopSeries.TopScoresAgree` no other sort could show other peaks.
- Timeline.SumTimeseries: the standard library's sort is replaced by the insertion sort of the same code base; by `Timeline.ListingUnique` no other sort could give another result.
- Balance.CheckIngestionBalance: leaves out the rounding of displayed figures. The search for the smallest rate starts from the largest float64, which is a parameter.
- TopSeries.TopByPeak: n is a natural number; the program cannot be called with a negative one without failing, and calls it with 10.
- Retry.RoundTrip: leaves out the cloning of the request body before each attempt.
- Central.FinishedHasReplayed: the environment key of a cluster is a given string; its derivation from the OCM address is not modelled.
- The rising-trend and no-plateau tests beside the sawtooth test: each is one comparison of averages.
