# Kubernetes perf-tests: a verified model

The perf-tests repository holds the tools that measure how Kubernetes performs: the load generator
ClusterLoader2, the SLO monitor, the perfdash dashboard, the DNS benchmark and the job comparer. Most of
it calls a cluster. This project models the parts that keep state of their own, run concurrently or
compute, one module for each, and proves what they promise.

| file | what it models |
|---|---|
| `NoStoreQueue.dfy` | the coalescing work queue of the SLO monitor, against a plain sequence and against the whole history of calls |
| `PodMonitor.dfy` | pod startup milestones under handlers that run in any order, with lazy deletion and purging |
| `TemplateProvider.dfy` | double-checked caching under two nested read-write locks, for any number of interleaved callers |
| `AvailabilityProtocol.dfy` | the controller and the poll loop of the API availability measurement, talking over channels |
| `AvailabilityMetrics.dfy` | its online counters, as functions of the probe history |
| `NodeKiller.dfy` | the chaos node killer over any number of rounds and start/stop cycles |
| `ScaleRange.dfy` | the axis fitting loop of the dashboard charts |
| `DnsTestCases.dfy`, `MixedRadix.dfy` | generation of the DNS test cases, its order, and why that order is the best one |
| `RequestCount.dfy`, `MapId.dfy` | summing of API server request counts through a shared map, and the label key that decides what is summed |
| `ResourceUsage.dfy`, `PodNames.dfy`, `Text.dfy` | maxima of resource usage under normalised pod names |
| `ArtifactsCache.dfy` | the per-build listing cache, against direct prefix queries |
| `TuningSets.dfy` | pacing loops over a logical nanosecond clock |
| `ConfigValidation.dfy` | the configuration validator, and what the tuning set factory can do with a validated configuration |
| `SampleStats.dfy` | one-pass statistics and the ratio test of the job comparer |
| `Common.dfy`, `Wrappers.dfy` | arithmetic and an option type shared by the others |

Classes stand for the objects that the programs update in place, and most carry a ghost history that ties
their fields to a specification; the laws are lemmas about those histories. The two concurrent protocols
are state machines over atomic steps, and their theorems quantify over every sequence of steps. Clocks,
random sources, file reads, parsers, regular expressions, remote probes and the success of store requests
are parameters or arbitrary inputs.

## Where the code departs from its promises

The model follows the code. Each point below is a lemma with the exact condition or a concrete case.

- `AddIfNotPresent` of the queue enqueues a new key with the delete operation (`slo-monitor/src/monitors/store.go:195`).
- The handler of a pulled image resets an entry that exists, where its sibling initialises one that does
  not (`slo-monitor/src/monitors/pod_monitor.go:298`). So a pulled image never completes a pod
  (`PulledNeverFires`), and one that is handled after the pod was seen running keeps it from being measured unless
  another running event follows (`MeasuredExactly`). The start of pulling becomes the epoch, or the moment an image
  was found present, until something earlier is reported (`StartOfPulling`). The latency published as "without image
  pull times" (line 66) leaves out the time since that start: it is what it says exactly when that is still the first
  start reported, or, if nothing was pulled, when no end of pulling is later than it, or when neither the latency
  promised nor the one published is positive (`PullTimeIsLeftOutExactly`). `PullTimeIsNotLeftOut` and
  `PullTimeIsNotLeftOutEither` are two histories for which pulling is not left out, and in `NothingPulledIsLeftOut`
  nothing was pulled and 15 are left out, because two images found present were handled in the other order.
- Starting the availability measurement does not clear the paused flag (`StartInheritsPause`). A pause or an
  unpause never returns exactly when the loop has received an earlier one and not written the flag yet
  (`PauseReturnsExactly`, `UnpauseReturnsExactly`), which does happen (`CallsCanBeLost`); a lost pause
  leaves room for at most two more events before nothing can move any more (`LostPauseWedges`, `WedgedExactly`), and
  pausing twice gets there (`PauseTwiceCanWedge`).
- In exact arithmetic the axis fitting loop halves for ever when the axis starts from zero and its top is not positive, unless
  whole numbers stop it (`FittingNeverEndsExactly`, `FittingCanGoOnForEver`). An axis ends below its largest value
  exactly when the fitted steps end short of their range, because their number was rounded down (`ShortExactly`), by
  more than that range was widened. For different values it is not widened beyond the next whole unit, so any
  rounding down cuts the largest one off (`CutOffExactly`, `TopCanBeCutOff`); for equal values it is
  (`EqualValuesAreReached`).
- Asked for whole numbers, the chart still splits an odd range into two halves when there is room for two steps only
  (`WholeStepsExactly`, `WholeStepsCanFail`).
- A label value with a bar in it can imitate another label (`MapIdsCanCollide`), so samples with different labels
  are added up. Every set of two labels or more shares its identifier with another set, and a single label
  does exactly when its value looks like a value and a later label (`SharedAmongExactly`); identifiers tell all
  label sets apart only if there is at most one name (`TellApartExactly`). Samples are added under their
  own labels exactly when no two of them share an identifier without sharing their labels (`UnderOwnLabelsExactly`),
  as is the case without colons in keys and bars in values (`SampleIsAddedUnderItsLabels`).
- The listing cache answers like the store exactly for search prefixes that extend the directory prefix
  (`CacheIsExactExactlyBelow`). One that climbs out of the build finds nothing when neither prefix extends the other
  (`FindsNothingExactly`), and every file of the build when it is shorter (`ShortSearchFindsBuild`).
- A QPS load starts an operation every 1/QPS seconds (`clusterloader2/api/types.go:243`) only when that is a
  whole number of nanoseconds; otherwise it is faster (`RateIsKeptExactly`, `ThreeQpsIsTooFast`).
- A phase without a tuning set passes the validator, but cannot be executed unless a tuning set without a
  name is declared (`PhaseGetsExecutorExactly`, `NamelessPhaseCanFail`).
- The reported maximum of a sample of negative values is zero (`MaximumExactly`, `NegativeSampleHasMaximumZero`), and
  the ratio test is symmetric but for a bound of zero with one average zero and the other negative
  (`SwapKeepsMatchedExactly`, `SwapCanChangeMatched`).

## Model

| member | source | states |
|---|---|---|
| NoStoreQueue.RunAgreesWithHistory | slo-monitor/src/monitors/store.go:70-200 | after every sequence of calls the pending sequence holds exactly the keys the history calls pending, each with its last effective operation and object, in the order of first enqueue since the last pop, and no key twice |
| NoStoreQueue.AgreesStep | slo-monitor/src/monitors/store.go:70-200 | each operation carries the agreement of queue and history over to the longer history |
| NoStoreQueue.HeadIsOldest | slo-monitor/src/monitors/store.go:156-176 | the front is the pending key that has waited longest, with its latest contents |
| NoStoreQueue.Conservation | slo-monitor/src/monitors/store.go:70-83 | pops plus pending items equal the enqueues that found their key absent |
| NoStoreQueue.NoStarvation | slo-monitor/src/monitors/store.go:70-200 | an item keeps its place whatever is enqueued later: after d further pops it has moved exactly d places forward |
| NoStoreQueue.UpsertAt | slo-monitor/src/monitors/store.go:71-75 | a present key is overwritten where it stands and nothing else changes |
| NoStoreQueue.UpsertNew | slo-monitor/src/monitors/store.go:76-82 | an absent key goes to the end |
| NoStoreQueue.OverwriteInPlace | slo-monitor/src/monitors/store.go:71-75 | index minus offset finds the item of the key, and overwriting it keeps the index map exact |
| NoStoreQueue.AppendNew | slo-monitor/src/monitors/store.go:76-82 | a new index keeps the keys distinct and the map sending exactly the queued keys to offset plus position |
| NoStoreQueue.IndexedPop | slo-monitor/src/monitors/store.go:164-171 | removing the front, its key and raising the offset keeps the index map exact |
| NoStoreQueue.WorkQueue.constructor | slo-monitor/src/monitors/store.go:60-68 | an empty queue that satisfies the invariant |
| NoStoreQueue.WorkQueue.EnqueueOrModifyItemLocked | slo-monitor/src/monitors/store.go:70-83 | the queue becomes overwrite in place or append, and the invariant is kept |
| NoStoreQueue.WorkQueue.Add | slo-monitor/src/monitors/store.go:86-97 | a set operation is enqueued; an object without a key is refused and changes nothing |
| NoStoreQueue.WorkQueue.Update | slo-monitor/src/monitors/store.go:100-102 | the same as Add |
| NoStoreQueue.WorkQueue.Remove | slo-monitor/src/monitors/store.go:105-116 | a delete operation is enqueued; an object without a key is refused |
| NoStoreQueue.WorkQueue.AddIfNotPresent | slo-monitor/src/monitors/store.go:179-200 | a pending key is left alone, an absent one is appended with the delete operation |
| NoStoreQueue.WorkQueue.Pop | slo-monitor/src/monitors/store.go:156-176 | the front leaves; it carries the last effective operation and object since the key last left, and no pending key has waited longer |
| PodMonitor.AccountedAtMostOnce | slo-monitor/src/monitors/pod_monitor.go:119-121 | in any order of handlers a pod adds at most one data point between creation and purge, and exactly when accountedFor is set |
| PodMonitor.ObservationIsPublished | slo-monitor/src/monitors/pod_monitor.go:327-337 | of all 64-bit durations, the full latency is the nearest to running less created and the pull time the nearest to its two ends; the other latency is what wrap-around makes of their difference, or zero if that is negative |
| PodMonitor.PublishedIsUnique | slo-monitor/src/monitors/pod_monitor.go:327-337 | that determines both values |
| PodMonitor.FullLatencyIsOfCurrentRunning | slo-monitor/src/monitors/pod_monitor.go:327-360 | the full latency of a data point is that of the running event that is current when the point is added |
| PodMonitor.SeenPulledCounts | slo-monitor/src/monitors/pod_monitor.go:309 | seenPulled is the number of pulled events since the entry was created |
| PodMonitor.PulledNeverFires | slo-monitor/src/monitors/pod_monitor.go:292-313 | the handler of a pulled image never adds a data point |
| PodMonitor.FinishedPullingIsMaximum | slo-monitor/src/monitors/pod_monitor.go:303-305 | finishedPulling is the latest of the pulled timestamps and, for entries created by two of the handlers, of the epoch |
| PodMonitor.FinishedPullingExact | slo-monitor/src/monitors/pod_monitor.go:281-305 | it is the latest pulled timestamp exactly when that is not before the floor its creation set |
| PodMonitor.StartOfPullingIsLost | slo-monitor/src/monitors/pod_monitor.go:298-301 | a pulled event that finds an entry sets the start of pulling to the epoch, for good unless an image was already present |
| PodMonitor.StartOfPulling | slo-monitor/src/monitors/pod_monitor.go:274-313 | for every history: the start of pulling is the earliest of what the last event to set it sets it to (the moment an image was found present, else the epoch) and of the pulling events after that one |
| PodMonitor.FirstStartIsKeptExactly | slo-monitor/src/monitors/pod_monitor.go:274-313 | that is the first start reported exactly when no event set it, or the last to do so set it to no earlier moment and the first start is that moment or reported later |
| PodMonitor.NothingPulledExactly | slo-monitor/src/monitors/pod_monitor.go:292-313 | when nothing was pulled, both ends of pulling are the same exactly when neither a pulled timestamp nor the epoch floor is later than the start last set |
| PodMonitor.PullTimeIsLeftOutExactly | slo-monitor/src/monitors/pod_monitor.go:327-337 | for every history with timestamps from the epoch on and durations that fit, whether anything was pulled or not and whichever event adds the data point: the published latency is the one without pull time exactly when the start is still the first one reported (or, if none was, no end of pulling is later than it), or neither that latency nor the published one is positive |
| PodMonitor.PullTimeIsNotLeftOut | slo-monitor/src/monitors/pod_monitor.go:298-301 | pulling from 10 to 20 in a startup of 100: 80 is published, not 90 |
| PodMonitor.PullTimeIsNotLeftOutEither | slo-monitor/src/monitors/pod_monitor.go:298-308 | the same with a second image found present at 25: 100 is published, not 85 |
| PodMonitor.NothingPulledIsLeftOut | slo-monitor/src/monitors/pod_monitor.go:315-322 | two images found present and handled in the other order, in a startup of 100: 85 is published, though nothing was pulled |
| PodMonitor.OneFoundIsPublishedInFull | slo-monitor/src/monitors/pod_monitor.go:306-308 | one image found present: all of the 100 are published |
| PodMonitor.MeasuredExactly | slo-monitor/src/monitors/pod_monitor.go:119-121 | a pod adds its data point exactly when, after some of its handlers, its last running event came after its last pulled one, reports as many containers as there were pulled events, and both ends of pulling are set |
| PodMonitor.EntryIsComplete | slo-monitor/src/monitors/pod_monitor.go:258-360 | the fields of an entry are complete exactly when the events since its creation are |
| PodMonitor.DeletionIsRecorded | slo-monitor/src/monitors/pod_monitor.go:269 | the deletion timestamp is that of the last deletion, and the zero time if there was none |
| PodMonitor.HandlerKeepsConsistent | slo-monitor/src/monitors/pod_monitor.go:258-360 | after any handler the stored entries, the list of deleted keys and both histograms are those the longer history calls for |
| PodMonitor.PurgeKeepsConsistent | slo-monitor/src/monitors/pod_monitor.go:235-250 | looking at listed keys only removes what a scan of all entries would, and the list stays exact |
| PodMonitor.StoresPurge | slo-monitor/src/monitors/pod_monitor.go:242-246 | a purge ends exactly the lifetimes whose deletion is at least purgeAfter old |
| PodMonitor.Monitor.HandlePodDelete | slo-monitor/src/monitors/pod_monitor.go:258-272 | the entry is stamped and listed, even when it was deleted before |
| PodMonitor.Monitor.HandlePullingImageEvent | slo-monitor/src/monitors/pod_monitor.go:274-290 | the entry becomes the handler's step, and the invariant is kept |
| PodMonitor.Monitor.HandlePulledImageEvent | slo-monitor/src/monitors/pod_monitor.go:292-313 | the entry becomes the handler's step, and the invariant is kept |
| PodMonitor.Monitor.InsertPodRunningTime | slo-monitor/src/monitors/pod_monitor.go:343-360 | the entry becomes the handler's step, and the invariant is kept |
| PodMonitor.Monitor.UpdateMetric | slo-monitor/src/monitors/pod_monitor.go:327-341 | a complete entry is accounted for and adds one point to each histogram, any other adds none |
| PodMonitor.Monitor.PurgeOutdated | slo-monitor/src/monitors/pod_monitor.go:235-250 | exactly the entries deleted at least purgeAfter ago disappear and no other entry changes |
| TemplateProvider.InvHolds | clusterloader2/pkg/config/template_provider.go:61-122 | every interleaving keeps the invariant: locks match program counters, locals match caches, reads match stores |
| TemplateProvider.ReadAndParsedOnce | clusterloader2/pkg/config/template_provider.go:61-122 | in every interleaving each path is successfully read at most once and parsed at most once |
| TemplateProvider.CallersAgree | clusterloader2/pkg/config/template_provider.go:61-122 | all successful callers of a path get the same bytes and the same template, which is the parse of those bytes |
| TemplateProvider.FailsExactly | clusterloader2/pkg/config/template_provider.go:61-122 | a finished call has failed exactly when its own read of the file failed, or it wants the template of cached bytes that cannot be parsed |
| TemplateProvider.AnswersAreFileContents | clusterloader2/pkg/config/template_provider.go:61-122 | a call that succeeds returns bytes that a call for its path read from the file, or the template they are parsed to |
| TemplateProvider.CallsAreThoseMade | clusterloader2/pkg/config/template_provider.go:61-122 | the calls of a run are those that arrived, in order, each for its own path and kind of answer |
| TemplateProvider.CachedIsOnlyRead | clusterloader2/pkg/config/template_provider.go:62-64 | a call that comes to cached bytes or a cached template never takes that lock for writing, and for a cached template it does not fail |
| TemplateProvider.WaitsExactly | clusterloader2/pkg/config/template_provider.go:62-101 | a call waits exactly when it wants a lock that a writer holds or has announced itself for, or, having announced itself, while someone reads; readers never wait for readers |
| TemplateProvider.CachesOnlyGrow | clusterloader2/pkg/config/template_provider.go:76-118 | a cached value is never replaced and a finished call keeps its answer |
| TemplateProvider.NoDeadlock | clusterloader2/pkg/config/template_provider.go:99-122 | while a call is unfinished some call can step, although one lock is taken under the other and waiting writers block readers |
| TemplateProvider.SomeoneMoves | clusterloader2/pkg/config/template_provider.go:61-122 | the chain of waits behind any blocked call ends in a call that can step |
| TemplateProvider.StepsAreBounded | clusterloader2/pkg/config/template_provider.go:61-122 | n calls take at most 18 n steps under any schedule |
| TemplateProvider.LocksStep | clusterloader2/pkg/config/template_provider.go:61-122 | a step keeps both locks in agreement with what every call holds |
| TemplateProvider.LocalsStep | clusterloader2/pkg/config/template_provider.go:61-122 | a step keeps what every call believes about the caches |
| TemplateProvider.LocalOther | clusterloader2/pkg/config/template_provider.go:66-76 | a store contradicts nothing another call relies on, because both would hold the same lock |
| TemplateProvider.CountsStep | clusterloader2/pkg/config/template_provider.go:69-76 | rechecking under the lock keeps reads and stored values one to one |
| TemplateProvider.ParsedStep | clusterloader2/pkg/config/template_provider.go:109-118 | every cached template stays the parse of the cached bytes of its path |
| AvailabilityProtocol.InvNext | clusterloader2/pkg/measurement/common/api_availability_measurement.go:147-292 | every event keeps the invariant of controller, flags and loop |
| AvailabilityProtocol.InvRun | clusterloader2/pkg/measurement/common/api_availability_measurement.go:147-292 | so does every run |
| AvailabilityProtocol.NothingRecordedWhilePaused | clusterloader2/pkg/measurement/common/api_availability_measurement.go:161-181 | from the receipt of a pause to the receipt of an unpause no probe is recorded, not even by a session gathered and started again |
| AvailabilityProtocol.StartInheritsPause | clusterloader2/pkg/measurement/common/api_availability_measurement.go:185-219 | a new session starts paused exactly when the last one stopped paused |
| AvailabilityProtocol.FrozenUntilStart | clusterloader2/pkg/measurement/common/api_availability_measurement.go:285-292 | once gather has returned nothing changes until the next start |
| AvailabilityProtocol.BlockedLoopAcceptsStop | clusterloader2/pkg/measurement/common/api_availability_measurement.go:162-179 | every point where the loop blocks accepts the closed stop channel |
| AvailabilityProtocol.GatherEnds | clusterloader2/pkg/measurement/common/api_availability_measurement.go:161-181 | under every schedule, with probes in any order and of any result: until gather returns something can always happen, and with k further timers at most (k + 1) times (hosts + 4) events do, at most k + 1 cluster probes and k + 1 probes of each host entry among them |
| AvailabilityProtocol.WaitingEnds | clusterloader2/pkg/measurement/common/api_availability_measurement.go:161-181 | the same with the work that is left from any point of the loop |
| AvailabilityProtocol.GatherCanPollOn | clusterloader2/pkg/measurement/common/api_availability_measurement.go:169-179 | the bound is reached: if the timer beats the closed channel k times, k more rounds are recorded |
| AvailabilityProtocol.SessionResults | clusterloader2/pkg/measurement/common/api_availability_measurement.go:147-181 | the results held are exactly those of the probes since the last start that found the measurement stopped |
| AvailabilityProtocol.RoundsAreComplete | clusterloader2/pkg/measurement/common/api_availability_measurement.go:169-179 | over a session there is one cluster probe for every time the timer fired, and for every host as many probes as it is listed times, but for those that the round in flight has yet to make |
| AvailabilityProtocol.HostsKeepUpWithCluster | clusterloader2/pkg/measurement/common/api_availability_measurement.go:173-177 | between rounds the probes of a host number those of the cluster times how often it is listed |
| AvailabilityProtocol.TestedBeforeEveryRound | clusterloader2/pkg/measurement/common/api_availability_measurement.go:159-168 | after a round the paused flag is tested before anything else is waited for |
| AvailabilityProtocol.CallsAreIgnoredExactly | clusterloader2/pkg/measurement/common/api_availability_measurement.go:148-288 | a start does nothing exactly while the measurement runs; gather, pause and unpause exactly while it does not, or is already as they would have it |
| AvailabilityProtocol.WedgedExactly | clusterloader2/pkg/measurement/common/api_availability_measurement.go:259-270 | nothing can happen any more exactly when a pause is sent to a loop that waits for an unpause |
| AvailabilityProtocol.LostPauseWedges | clusterloader2/pkg/measurement/common/api_availability_measurement.go:161-181 | from a lost pause at most two more events happen (two, one or none, by where the loop is), and after exactly that many nothing can |
| AvailabilityProtocol.PauseTwiceCanWedge | clusterloader2/pkg/measurement/common/api_availability_measurement.go:264-268 | such a state is reached by pausing twice in quick succession |
| AvailabilityProtocol.UnpauseReturnsExactly | clusterloader2/pkg/measurement/common/api_availability_measurement.go:272-283 | an unpause of a paused, running measurement can be received exactly when the loop has not received an earlier one without clearing the flag |
| AvailabilityProtocol.PauseReturnsExactly | clusterloader2/pkg/measurement/common/api_availability_measurement.go:259-270 | a pause of an unpaused, running measurement can be received exactly when the loop has not received an earlier one without setting the flag |
| AvailabilityProtocol.CallsCanBeLost | clusterloader2/pkg/measurement/common/api_availability_measurement.go:161-181 | runs reach both situations in which the call is lost |
| AvailabilityProtocol.SecondUnpauseNeverReturns | clusterloader2/pkg/measurement/common/api_availability_measurement.go:272-283 | an unpause that is lost is never received, under any schedule, while the loop goes on |
| AvailabilityProtocol.SecondPauseNeverReturns | clusterloader2/pkg/measurement/common/api_availability_measurement.go:259-270 | a pause that is lost is never received, under any schedule |
| AvailabilityMetrics.SuccessEndsRun | clusterloader2/pkg/measurement/common/api_availability_metrics.go:41-46 | a success ends the trailing run and keeps the longest |
| AvailabilityMetrics.FailureExtendsRun | clusterloader2/pkg/measurement/common/api_availability_metrics.go:47-51 | a failure extends the trailing run, and the longest only when it is overtaken |
| AvailabilityMetrics.SuccessesBound | clusterloader2/pkg/measurement/common/api_availability_metrics.go:54-65 | successes never outnumber probes, and equal them exactly when none failed |
| AvailabilityMetrics.LongestIsUnique | clusterloader2/pkg/measurement/common/api_availability_metrics.go:26 | the longest run of failures is determined by the history |
| AvailabilityMetrics.SummaryIsUnique | clusterloader2/pkg/measurement/common/api_availability_metrics.go:54-65 | the history determines the reported percentage and period |
| AvailabilityMetrics.SummaryMeans | clusterloader2/pkg/measurement/common/api_availability_metrics.go:54-65 | the percentage times the number of probes is a hundred times the successes among them, and the period is the longest outage times the poll interval |
| AvailabilityMetrics.SuccessesAreCounted | clusterloader2/pkg/measurement/common/api_availability_metrics.go:41-44 | the successes are as many as the history has |
| AvailabilityMetrics.Metrics.Update | clusterloader2/pkg/measurement/common/api_availability_metrics.go:41-52 | the four counters are the successes, failures, longest and trailing failure runs of the whole history |
| AvailabilityMetrics.Metrics.BuildSummary | clusterloader2/pkg/measurement/common/api_availability_metrics.go:54-65 | the percentage is that of the successes, lies in 0 to 100 and is 100 exactly when no probe failed; the period covers the longest run |
| NodeKiller.FilterInPlace | clusterloader2/pkg/chaos/nodes.go:129-134 | appending to the emptied slice while ranging over the same array filters correctly and leaves the rest of the array |
| NodeKiller.Shuffle | clusterloader2/pkg/chaos/nodes.go:135-137 | the filtered part is swapped into the order that the random numbers determine, and the rest untouched |
| NodeKiller.ShuffledKeepsMultiset | clusterloader2/pkg/chaos/nodes.go:135-137 | that is a permutation, whatever the random numbers |
| NodeKiller.EveryOrderIsPossible | clusterloader2/pkg/chaos/nodes.go:135-137 | every order of the nodes is the outcome of some random numbers |
| NodeKiller.FilteredMembers | clusterloader2/pkg/chaos/nodes.go:131 | a node is kept exactly when it hosts no Prometheus pod and was not killed before |
| NodeKiller.LegalPickExactly | clusterloader2/pkg/chaos/nodes.go:129-142 | what some random numbers lead to picking is exactly any list of distinct eligible nodes, in any order, of the right length: the least number that is not below rate times the eligible nodes, or all of them if that is more |
| NodeKiller.WantedExactly | clusterloader2/pkg/chaos/nodes.go:138 | the number wanted is not negative, and the least one that is not below rate times the number of eligible nodes |
| NodeKiller.ShareBounds | clusterloader2/pkg/chaos/nodes.go:138-142 | a positive rate takes at least one of some eligible nodes, and a rate of one or more all of them |
| NodeKiller.DistinctPermutation | clusterloader2/pkg/chaos/nodes.go:135-137 | a permutation of distinct nodes is distinct |
| NodeKiller.PoolShrinksByPicks | clusterloader2/pkg/chaos/nodes.go:149-153 | a round takes exactly its picks out of the eligible nodes |
| NodeKiller.NoNodeKilledTwice | clusterloader2/pkg/chaos/nodes.go:109-179 | over all rounds of all cycles no node is killed twice |
| NodeKiller.PoolRunsDry | clusterloader2/pkg/chaos/nodes.go:95-107 | with a positive rate and a fixed cluster, every eligible node is killed within as many rounds as there were such nodes |
| NodeKiller.WorkerStep | clusterloader2/pkg/chaos/nodes.go:155-176 | at every moment of a kill each goroutine has recorded for its own node what it has done so far, a prefix of stop and reboot |
| NodeKiller.EventsAfterKill | clusterloader2/pkg/chaos/nodes.go:149-187 | over all killers, what is recorded for a node is a prefix of stop and reboot, and nothing for a node not killed |
| NodeKiller.Killer.PickNodes | clusterloader2/pkg/chaos/nodes.go:109-147 | the picked nodes are those that the random numbers lead to: eligible, none twice, and the ceiling of rate times the eligible nodes or all of them |
| NodeKiller.Killer.Kill | clusterloader2/pkg/chaos/nodes.go:149-179 | returns once all goroutines have finished, in whatever order they ran: all picked names are in the killed set, and each picked node has recorded a stop, and a reboot exactly if the stop worked |
| NodeKiller.ChaosMonkeyMeasurement.Start | clusterloader2/pkg/measurement/common/chaos_monkey_measurement.go:61-73 | the new killer shares the killed set, and the history is kept |
| NodeKiller.ChaosMonkeyMeasurement.Stop | clusterloader2/pkg/measurement/common/chaos_monkey_measurement.go:74-82 | the killed set is handed back, and the history is kept |
| NodeKiller.ChaosMonkeyMeasurement.RunRound | clusterloader2/pkg/chaos/nodes.go:99-106 | one round adds one legal pick to the history and its names to the killed set |
| ScaleRange.FitSteps | perfdash/www/Chart.js:415-446 | the loop ends, only doubles, and as often as necessary, or only halves, and ends with at most maxSteps steps and at least half as many unless whole numbers forbid another halving |
| ScaleRange.CalculateScaleRange | perfdash/www/Chart.js:383-458 | the scale starts at zero or at most one unit below the data, has a fitting number of steps that miss the range by at most half a step, and ends at a number of units that the data, their order and the room for steps determine; whole numbers get whole steps when there is room for more than two |
| ScaleRange.RoomForSteps | perfdash/www/Chart.js:387 | as many steps as fit into the drawing, each one and a half times as high as the text |
| ScaleRange.WholeStepsExactly | perfdash/www/Chart.js:427-452 | where whole numbers are asked for and the range is one or more, the step value is whole unless there is room for two steps only and the range is an odd number of ones |
| ScaleRange.WholeStepsCanFail | perfdash/www/Chart.js:448-451 | the values 0 and 3 with room for two steps get steps of one and a half |
| ScaleRange.RangeIsPositive | perfdash/www/Chart.js:395-411 | the axis has a positive number of units exactly when it need not start from zero or its widened top is positive |
| ScaleRange.NonNegativeDataTerminate | perfdash/www/Chart.js:395-405 | data without negative values have a positive top, so their fitting loop ends |
| ScaleRange.HalvingEndsExactly | perfdash/www/Chart.js:415-444 | the guard of the loop holds after every number of halvings, with the halving branch taken, exactly for a range of no unit or a negative one |
| ScaleRange.FittingNeverEndsExactly | perfdash/www/Chart.js:383-446 | that is so exactly when the axis starts from zero and neither is a value positive nor are all of them the same one above -1 |
| ScaleRange.DoublingsAreLeast | perfdash/www/Chart.js:416-419 | the number of doublings is the least that leaves at most maxSteps steps |
| ScaleRange.EndsAt | perfdash/www/Chart.js:415-458 | an axis that starts at the lower end and was only doubled or only halved ends beyond its range by the rounding of its steps |
| ScaleRange.ShortExactly | perfdash/www/Chart.js:417-422 | it ends short of its range exactly when the range over the doubled step has a fraction below one half |
| ScaleRange.ReachesInUnits | perfdash/www/Chart.js:395-411 | whole units reach a value exactly when they are at least its units rounded up |
| ScaleRange.CutOffExactly | perfdash/www/Chart.js:383-458 | an axis ends below the largest value exactly when the fitted steps end short of their range by more than it was widened: at all for different values, by more than a unit or a rounded half for equal ones |
| ScaleRange.OrderOfEqualValues | perfdash/www/Chart.js:393-409 | the order of magnitude of equal values is zero, and only that, so the two cases for equal values are all |
| ScaleRange.EqualValuesAreReached | perfdash/www/Chart.js:383-458 | the value 8 alone gets two steps of 4, an axis that reaches it although its steps were rounded down |
| ScaleRange.FittingCanGoOnForEver | perfdash/www/Chart.js:424-444 | the values -3 and -1 on an axis from zero keep the guard true after every number of halvings |
| ScaleRange.DoublingShrinks | perfdash/www/Chart.js:417-419 | one more doubling about halves the rounded steps and makes them fewer |
| ScaleRange.DoublingStep | perfdash/www/Chart.js:417-422 | rounding range over step stays the rounded quotient of whole units, so fitting is never cancelled |
| ScaleRange.HalvingStep | perfdash/www/Chart.js:425-444 | halving the step value doubles the steps exactly |
| ScaleRange.RoundedMisses | perfdash/www/Chart.js:419 | a rounded number of steps misses by at most half a step, and reaches the end unless it was rounded down |
| ScaleRange.TopCanBeCutOff | perfdash/www/Chart.js:383-458 | the values 0 and 8.5 with room for three steps get two steps of 4, an axis that ends at 8 and cuts the larger one off |
| DnsTestCases.TestCases.Generate | dns/py/params.py:256-279 | as many cases as the product of the list lengths, each numbered by its position and holding the combination of that position |
| DnsTestCases.TestCases.Iterate | dns/py/params.py:263-275 | the recursion appends exactly the combinations of the remaining parameters, in order, after what was there |
| DnsTestCases.ExtendedByBlock | dns/py/params.py:274-275 | one more value of a parameter appends one block with every combination of the later ones |
| DnsTestCases.LexicographicOrder | dns/py/params.py:263-277 | later cases come lexicographically later |
| DnsTestCases.AtMostOnce | dns/py/params.py:263-277 | with distinct values no combination is generated twice |
| DnsTestCases.EveryCombination | dns/py/params.py:263-277 | a list of settings is generated exactly when it has one listed value for each relevant parameter |
| DnsTestCases.GeneratesExactly | dns/py/params.py:256-338 | by name and value, what is generated is every choice of one listed value for each parameter that has values and applies: three of them to a cluster DNS, five to a node-local one, all eight otherwise, most disruptive first |
| DnsTestCases.LeadingAt | dns/py/params.py:263-277 | the first j settings of a case are the combination at the quotient of its position |
| DnsTestCases.LeadingChangesRarely | dns/py/params.py:324-338 | the first j settings change exactly (product of the first j lengths) - 1 times along the list |
| DnsTestCases.ElementsBound | dns/py/params.py:324-338 | any list changes at least as often as it has different elements, less one |
| DnsTestCases.GeneratedOrderIsBest | dns/py/params.py:324-338 | no list that covers every combination changes the first j settings less often, for any j |
| MapId.SortedIsUnique | perfdash/parser.go:257 | a set of keys has one sorted listing |
| MapId.LessIsLexicographic | perfdash/parser.go:257 | a key comes before another exactly when it has the lesser character where they first differ, or ends before it does |
| MapId.CreateMapId | perfdash/parser.go:252-263 | the identifier is the map's own, in whatever order its keys are walked |
| MapId.MapIdIsInvertible | perfdash/parser.go:259-261 | maps without colons in keys and bars in values are equal when their identifiers are |
| MapId.MapIdsCanCollide | perfdash/parser.go:259-261 | a bar in a value makes two different maps share an identifier |
| MapId.SharedAmongExactly | perfdash/parser.go:252-263 | among label names without a colon, a label set shares its identifier with another one exactly when it has two labels or more, or a single one whose value is a value, a bar, a later name, a colon and a value |
| MapId.TellApartExactly | perfdash/parser.go:252-263 | identifiers tell all label sets over a set of such names apart exactly when there is at most one name |
| MapId.SharedExactly | perfdash/parser.go:252-263 | among labels of any name it is shared exactly with two labels or more, or a colon in the name or the value of a single one |
| RequestCount.GroupsAreDistinct | perfdash/parser.go:215-220 | no two appended items have the same identifier |
| RequestCount.GroupsHoldSums | perfdash/parser.go:213-218 | an item holds a data label exactly when a sample has its identifier and that label, and the value is the sum of those samples |
| RequestCount.SampleIsShown | perfdash/parser.go:196-213 | the item of a sample shows the version of its client, or a request count when it has none |
| RequestCount.ShownIsOfSample | perfdash/parser.go:196-213 | and every name that an item shows is that of such a sample |
| RequestCount.Conservation | perfdash/parser.go:192-222 | the items together hold the sum of all samples |
| RequestCount.SampleIsAddedUnderItsLabels | perfdash/parser.go:214-218 | unless labels imitate each other, a sample is added to an item with exactly its cleaned labels |
| RequestCount.FirstSampleDecides | perfdash/parser.go:213-220 | the item of an identifier carries the cleaned labels of the first sample that has it |
| RequestCount.UnderOwnLabelsExactly | perfdash/parser.go:213-220 | every sample is added to an item with exactly its labels if and only if samples with the same identifier have the same labels |
| RequestCount.LabelsComeFromSamples | perfdash/parser.go:194-212 | every item carries the cleaned labels of some sample |
| RequestCount.Builds.AddBuildData | perfdash/metrics-downloader-helper.go:63-67 | the build has one item more at its end, and every other build is there or not, and holds what it held, as before |
| RequestCount.Accumulate | perfdash/parser.go:216 | an update through the shared data map is seen by the one item that holds it and by no other |
| RequestCount.CleanLabelsMean | perfdash/parser.go:194-212 | exactly two labels are dropped, and no label but the client's is changed |
| RequestCount.ParseApiserverRequestCount | perfdash/parser.go:192-222 | the items appended to the build show the groups of the samples, each through a data map of its own, and other builds stay as they were |
| PodNames.RemoveDisambiguationInfixes | perfdash/pod_names.go:25-45 | a name without a slash is kept; otherwise the pod name keeps exactly its longest prefix of pieces without hash or version |
| PodNames.WordsAreKept | perfdash/pod_names.go:25-45 | a pod name keeps its words, pieces that are short or have a vowel and are not a version, up to the first piece that is none, and nothing from there on |
| PodNames.ExporterIsCut | perfdash/pod_names_test.go:28 | an event exporter loses its version and both hashes |
| PodNames.NormalisedIsUnique | perfdash/pod_names.go:25-41 | a name has one normal form |
| PodNames.NormalisingIsIdempotent | perfdash/pod_names.go:25-41 | a normal form is its own normal form |
| ResourceUsage.AggregateUsage | perfdash/parser.go:119-139 | for each normalised name and percentile the separate maxima of CPU and memory, and no other entries |
| ResourceUsage.Merge | perfdash/parser.go:121-137 | the entry of the sample's name and percentile is, for each resource, an upper bound of the sample and what was there, and equal to one of them; all other entries are kept |
| ResourceUsage.MergeKeepsPeaks | perfdash/parser.go:121-137 | merging a sample keeps all entries the maxima of the samples so far |
| ResourceUsage.PeaksAreUnique | perfdash/parser.go:119-139 | the samples determine the result |
| ResourceUsage.OrderOfWalkIsIrrelevant | perfdash/parser.go:119 | two walks over the same decoded map in different orders give the same result |
| ArtifactsCache.Cache.GetMatchingFiles | perfdash/metrics-downloader.go:107-133 | the answer is the build's listing filtered by the search prefix, equal to a direct listing whenever that prefix extends the directory's; a directory is listed successfully at most once and its listing kept |
| ArtifactsCache.StartingCounts | perfdash/gcs_metrics_bucket.go:99-124 | a listing has the files that start with the prefix, each as often as the store has it, and no others |
| ArtifactsCache.StartingTwice | perfdash/metrics-downloader.go:125-130 | filtering by a prefix and then by a longer one is filtering by the longer one |
| ArtifactsCache.CacheIsExactExactlyBelow | perfdash/metrics-downloader.go:107-133 | the cached answer is the direct one for every content of the store exactly when the search prefix extends the directory prefix |
| ArtifactsCache.SearchStaysInBuild | perfdash/metrics-downloader.go:240-253 | it does whenever no piece of the search prefix is ".." |
| ArtifactsCache.SearchOneLevelUp | perfdash/metrics-downloader.go:240-253 | for a prefix that climbs to a sibling it does exactly when the sibling's name starts with the build number |
| ArtifactsCache.FindsNothingExactly | perfdash/metrics-downloader.go:125-130 | a search finds nothing in any store exactly when neither prefix extends the other |
| ArtifactsCache.ShortSearchFindsBuild | perfdash/metrics-downloader.go:125-130 | a search prefix that the directory prefix extends gets every file of the build |
| ArtifactsCache.SiblingIsNotFound | perfdash/metrics-downloader.go:107-133 | a search for a sibling finds nothing exactly when neither its name nor the build number extends the other |
| ArtifactsCache.PrefixStacks | perfdash/metrics-downloader.go:240-253 | the directory prefix is a clean path that ends with the build number, and a search prefix is resolved on top of it |
| ArtifactsCache.PlainPrefix | perfdash/metrics-downloader.go:240-253 | for ordinary names a search prefix is log path, job, build number and what is searched for with slashes between them, and the directory prefix the same without the last |
| ArtifactsCache.WrittenReadsBack | perfdash/metrics-downloader.go:247 | a build number is written so that it reads back as itself, without leading zeros |
| ArtifactsCache.ResolveCleans | perfdash/metrics-downloader.go:252 | the joined path has no empty or dot piece, and climbs up only at the front of a relative path |
| ArtifactsCache.CleanStaysAsItIs | perfdash/metrics-downloader.go:252 | cleaning leaves a clean path as it is |
| ArtifactsCache.CleaningIsIdempotent | perfdash/metrics-downloader.go:252 | cleaning a path twice is cleaning it once, never gives an empty path, and keeps it rooted or relative |
| ArtifactsCache.ResolveConcat | perfdash/metrics-downloader.go:252 | cleaning a joined path is cleaning its parts one after the other |
| TuningSets.SteppedExecute | clusterloader2/pkg/tuningset/stepped_load.go:36-46 | every action starts once, in order, at the number of whole bursts before it times the step delay plus the delays so far |
| TuningSets.SteppedIsPaced | clusterloader2/pkg/tuningset/stepped_load.go:36-46 | the first action waits for its delay only, and the pause comes after every whole burst and nowhere else |
| TuningSets.BurstSpacing | clusterloader2/pkg/tuningset/stepped_load.go:36-46 | starts a burst apart are at least a step apart, whatever the delays |
| TuningSets.AtMostOneBurst | clusterloader2/pkg/tuningset/stepped_load.go:36-46 | no window shorter than a step sees more starts than a burst |
| TuningSets.QpsExecute | clusterloader2/pkg/tuningset/qps_load.go:36-44 | every action starts once, in order, after one truncated pause for each before it plus the delays so far |
| TuningSets.UniformIsPaced | clusterloader2/pkg/tuningset/qps_load.go:36-44 | the first action waits for its delay only, and one pause lies between any two neighbours |
| TuningSets.PacedIsUnique | clusterloader2/pkg/tuningset/qps_load.go:36-44 | delays and pauses determine all starts |
| TuningSets.UniformSpacing | clusterloader2/pkg/tuningset/qps_load.go:36-44 | starts i and j are exactly the pauses and delays between them apart, so at least (j - i) pauses |
| TuningSets.RateIsKeptExactly | clusterloader2/pkg/tuningset/qps_load.go:37 | consecutive starts are never less than 1/QPS seconds apart exactly when that is a whole number of nanoseconds |
| TuningSets.ThreeQpsIsTooFast | clusterloader2/pkg/tuningset/qps_load.go:37 | three operations per second are 333333333 nanoseconds apart, less than a third of a second |
| TuningSets.TimeLimitedExecute | clusterloader2/pkg/tuningset/time_limited.go:36-47 | every action starts once, in order, after equal truncated pauses; with no action nothing happens |
| TuningSets.TimeLimitIsUsed | clusterloader2/pkg/tuningset/time_limited.go:40 | the pauses add up to at most the limit and to more than the limit less one nanosecond for each action |
| TuningSets.StartsWithinLimit | clusterloader2/pkg/tuningset/time_limited.go:36-47 | every action starts within the limit, delays aside |
| TuningSets.PoissonExecute | clusterloader2/pkg/tuningset/poisson_load.go:38-47 | every action starts once, in order, when the loop is there and its schedule has come |
| TuningSets.PoissonKeepsSchedule | clusterloader2/pkg/tuningset/poisson_load.go:41 | no action starts before the sum of the gaps before it, and it starts with that schedule exactly when the loop is ready in time |
| TuningSets.StartIsWorstBacklog | clusterloader2/pkg/tuningset/poisson_load.go:38-47 | a start is the maximum, over all earlier schedules and the beginning, of that moment plus the time the loop itself needed since |
| TuningSets.ShortDelaysDoNotAddUp | clusterloader2/pkg/tuningset/poisson_load.go:38-47 | delays that fit into their gaps leave the schedule without drift |
| TuningSets.GapsAreKept | clusterloader2/pkg/tuningset/poisson_load.go:38-47 | a loop that needs no time itself starts the first action at once and each other one exactly its gap after the last |
| ConfigValidation.NoErrorExactlyWhenWellFormed | clusterloader2/api/validation.go:48-82 | no error is reported exactly for the well-formed configurations |
| ConfigValidation.Validate | clusterloader2/api/validation.go:48-82 | the reported errors are exactly those of the configuration, each with its kind and path, and there are none exactly when it is well-formed |
| ConfigValidation.PhaseRules | clusterloader2/api/validation.go:129-188 | each rule that a phase breaks is reported with its kind at the phase or its field |
| ConfigValidation.ObjectRules | clusterloader2/api/validation.go:167-177 | so is each rule that an object of a phase breaks |
| ConfigValidation.MeasurementRules | clusterloader2/api/validation.go:231-253 | so is each rule that a measurement breaks |
| ConfigValidation.DependencyRules | clusterloader2/api/validation.go:322-343 | so is each rule that a dependency breaks |
| ConfigValidation.TuningSetRules | clusterloader2/api/validation.go:190-320 | a tuning set without exactly one load is reported itself, and whatever is not positive at the field of its load |
| ConfigValidation.StepRules | clusterloader2/api/validation.go:101-118 | a step with both phases and measurements, or neither, is reported at its measurements |
| ConfigValidation.ConfigRules | clusterloader2/api/validation.go:48-99 | a negative number of automanaged namespaces, no namespace and no step are reported at their fields |
| ConfigValidation.LeastIsAccepted | clusterloader2/api/validation.go:48-82 | a configuration with the least of everything is well-formed |
| ConfigValidation.SimpleFactory.Init | clusterloader2/pkg/tuningset/simple_tuning_set_factory.go:39-44 | a name stands for the last tuning set declared with it, and earlier contents are dropped |
| ConfigValidation.SimpleFactory.GetOrCreate | clusterloader2/pkg/tuningset/global_qps_load.go:39-48 | the first load created for a name is shared from then on, whatever is asked for later |
| ConfigValidation.SimpleFactory.CreateTuningSet | clusterloader2/pkg/tuningset/simple_tuning_set_factory.go:47-72 | succeeds exactly for a known name with some load, with the executor of the first load in the order of the switch |
| ConfigValidation.ExecutorCanRun | clusterloader2/pkg/tuningset/simple_tuning_set_factory.go:52-71 | every rate, size and limit of the executor of a well-formed tuning set is positive |
| ConfigValidation.FirstLoadWins | clusterloader2/pkg/tuningset/simple_tuning_set_factory.go:52-71 | the executor runs the very load of the tuning set, and of several loads the first in the order of the switch |
| ConfigValidation.PhaseGetsExecutorExactly | clusterloader2/pkg/test/simple_test_executor.go:194-202 | in a validated configuration a phase finds its tuning set exactly when it names one or one without a name is declared |
| ConfigValidation.NamelessPhaseCanFail | clusterloader2/api/validation.go:129-147 | a configuration that passes the validator and whose only phase has no tuning set to run with |
| ConfigValidation.ExecutePhases | clusterloader2/pkg/test/simple_test_executor.go:161-202 | whatever phases of a validated configuration come to the factory, in whatever order: each that names a tuning set gets the executor of that tuning set, and it can run |
| ConfigValidation.ServesIsUnique | clusterloader2/pkg/tuningset/simple_tuning_set_factory.go:47-72 | which executor that is depends on the tuning set and the global loads from before only, not on the order |
| SampleStats.OnePassIsTwoPass | benchmark/pkg/util/util.go:207 | the value under the square root is the mean squared deviation from the average |
| SampleStats.DeviationsAreNonNegative | benchmark/pkg/util/util.go:207 | it is never negative, and zero exactly when all values are the same |
| SampleStats.DeviationsExpand | benchmark/pkg/util/util.go:201-207 | the squared deviations from any point follow from the two running sums |
| SampleStats.ComputeSampleStats | benchmark/pkg/util/util.go:191-208 | average, mean squared deviation and the maximum of the sample and the value that was there before; NaN throughout for an empty sample |
| SampleStats.MaximumExactly | benchmark/pkg/util/util.go:204 | starting from zero, the reported maximum is the sample's exactly when the sample has a value that is not negative |
| SampleStats.NegativeSampleHasMaximumZero | benchmark/pkg/util/util.go:204 | the sample -2, -1 is reported with a maximum of zero |
| SampleStats.SwapKeepsRatioWithinExactly | benchmark/pkg/comparer/schemes/avgtest.go:41-44 | swapping the jobs changes the verdict on the ratio in one degenerate case only, for all averages and bounds |
| SampleStats.RatioWithinExactly | benchmark/pkg/comparer/schemes/avgtest.go:41-44 | for all averages and bounds, zero and negative ones included, the verdict on the ratio in products only |
| SampleStats.RatioWithinMeans | benchmark/pkg/comparer/schemes/avgtest.go:41-44 | for positive averages and bound the verdict says that neither average falls below the other times the bound |
| SampleStats.SwapKeepsMatchedExactly | benchmark/pkg/comparer/schemes/avgtest.go:36-48 | the whole test treats the two jobs alike but for that case |
| SampleStats.SwapCanChangeMatched | benchmark/pkg/comparer/schemes/avgtest.go:36-48 | averages 0 and -1 under a bound of zero match one way round only |
| SampleStats.MetricComparisonData.ComputeStats | benchmark/pkg/util/util.go:211-216 | both samples get their statistics |
| SampleStats.MetricComparisonData.Compare | benchmark/pkg/comparer/schemes/avgtest.go:34-48 | matched exactly when a sample is empty, the averages lie within the bound of each other or both lie below the minimum; the ratio times the right average is the left one, infinite with its sign where that is impossible, and undefined exactly when a sample is empty or both averages are zero |
| SampleStats.CompareJobsUsingAvgTest | benchmark/pkg/comparer/schemes/avgtest.go:31-50 | every metric is judged by the statistics of its own samples |

## Left out

- 64-bit overflow of the queue's indices, of loop counters and of the sleep arithmetic: unbounded integers; only the subtraction of durations in the pod monitor saturates and wraps as Go's does.
- Floating point: statistics, rates and the axis use exact reals, so rounding, overflow, underflow and signed zeros are not modelled (a fitting loop whose range is exactly zero units halves for ever here, and in the program until its step value underflows to zero), and `Math.log` is replaced by the order of magnitude it determines.
- The square root of the standard deviation: the model stops at the value it is taken of, with a proof that it is not negative.
- The stubs of the queue (List, Get, Replace, Resync) and the informers that feed it; keys are a fixed function of objects, which do not change while queued.
- Histogram buckets of the pod monitor and the events that are neither pulling nor pulled.
- `getRaw` and `getRawTemplate` are steps of a state machine, not methods, because their interleaving is the point; so are start, pause, unpause, gather and the poll loop.
- A start of the availability measurement that fails while parsing its parameters, the details of a host probe, and the summary output.
- NodeKiller.ChaosMonkeyMeasurement.Start: a start without a stop in between leaves the earlier killer running in the source, and two killers then pick from one set without a lock; here the new killer replaces it.
- Rounds of the node killer that fail to list nodes or pods, its jitter, and a stop that follows a failed start.
- `_set_or_remove` in dns/py/params.py and the application of a test case to deployments: edits along one path.
- TestCases.run_id, which is the current time, is a parameter.
- Decoding of JSON and the regular expressions of the perfdash parsers: decoded values and a cleaning function are inputs.
- The part of `parseResourceUsageData` that turns the maxima into data items and drops empty ones, and the other perfdash parsers.
- perfdash stores other than the one that lists by prefix, and reading the files that were found.
- The delay after a burst is not checked by the validator: the executor does not wait for one that is not positive (`Common.NotNegative`).
- The starts of a tuning set are the moments the loop launches an action; how long the action takes to be scheduled is not part of this model.
- Executors of the randomized, global, parallelism-limited and randomized time-limited loads: their guarantees rest on random sources and rate limiters that are not part of this model.
- ConfigValidation.Validate: error messages are not modelled, errors carry their kind and path; the contract says which errors are listed, not in which order or how often the same one is.
- Modules of a test configuration, which are flattened into steps before validation. Phases of one step come to the factory at the same time; the model takes them in any order, and one such visit is one step.
- SampleStats.ComputeSampleStats: the three pointers are results, so two of them cannot be the same variable.
- The KS test of the comparer, and the flattening of job data into samples.
- Kubernetes, cloud and SSH calls, flags, logging, user interface and the remaining simple tools of the repository.
