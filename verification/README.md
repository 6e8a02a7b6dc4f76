# Desktop notification agent: a Dafny model

Three wire-compatible ports of one agent receive notification events from a message
bus, suppress duplicates, batch them into toasts and acknowledge them. This project
models the Rust core (`rust/notify-agent-core`) as the main subject, and the Go and C#
aggregators as its partners, and proves what they keep over every input, every arrival
order and every interleaving.

`dafny verify dfyconfig.toml` checks everything.

| part | modules |
|---|---|
| Values, sorting | `Model`, `Sorting` |
| Buckets and toasts | `Toasts`, `Buckets`, `CrossPort`, `Aggregation` |
| Duplicate cache | `Dedup`, `DedupRuns`, `DedupOverlap` |
| The whole agent, every interleaving | `Pipeline`, `PipelineLedger`, `PipelineAcks`, `PipelineShutdown`, `PipelineDrain`, `PipelineDrops`, `PipelineDedup`, `PipelineOrder`, `PipelineHistory`, `PipelineInputs`, `PipelineClock`, `PipelineOverlap`, `PipelineQueue` |
| The agent's own code in place | `Agent` (class `AgentHost`), `Aggregation.Aggregator`, `Dedup.DedupCache` |
| Go batching windows | `GoBatching`, `GoHistory`, `GoAggregator` |
| Text | `XmlText`, `FileUri`, `ToastXml`, `JsonDepth`, `Parser` |
| Loops | `DevicePolling`, `ImageCache` |

**How the agent is modelled.** `Pipeline` is a transition system. A state holds the
intake queue, the workers and what each is doing, the duplicate cache, the bucket table
with its armed timers, the buckets that a timer or the host has removed and not yet handed to
a render task, the render tasks, the acknowledgements attempted and how far the host has got
in shutting down, which ends with the renders through or with the drain timeout. A step is one action that the code performs without giving
up control of what it touches; any enabled step may come next, so a claim about `Leads`
is a claim about every interleaving of the subscriber, any number of workers, timers and
renders, every clock reading and every outcome of showing a toast. `place` is a ledger
that records where each message went; no step reads it, and `Conservation` restates its
contents in terms of the queue, the workers, the buckets, those hands and the toasts themselves. `Agent`
holds the code's own method bodies and proves that each of them walks that transition
system, so the claims about all runs hold of the objects.

**Code that is not shown** (JSON decoding, URL validation, grapheme segmentation,
lower-casing, blank tests, the object id in a token) is an arbitrary function passed as a
parameter (`Model.Libraries`), so every theorem holds for any such library. Clock readings,
submission times and network replies are parameters as well.

**Where a promise does not hold, the exact condition is proved.**

- A bucket's toast does not depend on arrival order exactly when the events are all
  replaceable or all ordinary (`Buckets.OrderMattersExactlyWhenMixed`). For mixed buckets the
  newest event still wins (`Buckets.LatestWins`) and the surviving events have a closed form
  (`Buckets.SurvivorsExactly`).
- The Rust bucket equals the Go and C# bucket throughout exactly when no replaceable event
  arrives after a newer one (`CrossPort.PortsAgreeExactly`), and the flushed toasts are equal
  exactly under the condition of `CrossPort.SameToastExactly`.
- The cache's map and queue agree in every run exactly when the lifetime is positive or the
  capacity is one (`DedupRuns.AgreementExactly`).
- The comment at `rust/notify-agent-core/src/dedup.rs:36-37` calls the queue expiry-ordered.
  The clock never goes back, but it is read before the lock is taken, so a worker can take its
  decision after another one that read later. What that costs is bounded by the number of
  workers: the queue exceeds the capacity by at most the number of other workers
  (`PipelineClock.QueueIsBounded`). The longest queue of any run is `PipelineQueue.Longest`
  (`PipelineQueue.LongestQueue`), and `PipelineQueue.Overfills` says how many workers it takes
  for a queue longer than the capacity (`PipelineQueue.QueueFitsExactly`): one worker or room
  for one key always fits, and with a lifetime of at least two ticks of the clock nothing else does.
- Every decision of every run is the one that a scan of the accepted calls would give exactly
  when there is at most one worker or room for one key
  (`PipelineOverlap.ScanHoldsExactly`): otherwise an event
  that stalls between its reading and the lock can be accepted although its key was accepted
  less than a lifetime before. What holds for readings in any order is
  `Dedup.OfferKeepsAgreement` and `DedupRuns.OneWinnerPerKey`.
- `docs/superpowers/specs/2026-07-20-rust-notification-agent-design.md:72` promises that a
  normal shutdown does not silently lose pending toasts. A timer removes its bucket under the
  lock and spawns the render after releasing it. If shutdown runs in between, it finds
  neither the bucket nor a render to wait for, and the host is done while the message is in
  the timer's hands (`PipelineShutdown.TimerOutlivesShutdown`). Once the last bucket is
  flushed, every way to the end leaves each message dropped for a known reason or in a
  spawned render task exactly when no timer has a removed bucket in its hands
  (`PipelineShutdown.ShutdownHandlesAllExactly`); the renders are then also through unless
  the wait times out (`PipelineShutdown.WaitSettlesRenders`).
- Shutdown empties the queue exactly when there is a worker
  (`PipelineShutdown.DrainsExactlyWithWorkers`), and events are decided in order of arrival
  exactly when there is at most one (`PipelineOrder.OrderExactlyWithOneWorker`).
- The comment at `golang/internal/clock/clock.go:64-66` says that due callbacks run in
  scheduling order; the code runs them in deadline order, ties by scheduling order, and that
  is what is modelled.

## Model

| member | source | states |
|---|---|---|
| `PipelineLedger.Conservation` | rust/notify-agent-core/src/pipeline.rs:87-172 | after any run, every message received is in exactly one of queue, worker, bucket, hands of whoever removed its bucket, toast or a named kind of drop, nothing else is anywhere, nothing is held twice, and queue and buckets stay within their limits |
| `PipelineLedger.StepKeepsLedger` | rust/notify-agent-core/src/pipeline.rs:146-172 | every step of subscriber, workers, timers, renders and host keeps the agreement between the ledger and all the containers, including that each event still carries the data of its own message |
| `PipelineLedger.StepKeepsBounds` | rust/notify-agent-core/src/aggregator.rs:95-106 | every step keeps the queue within capacity and the bucket table within its limit with a live timer per bucket |
| `PipelineLedger.RunKeepsInvariant` | rust/notify-agent-core/src/pipeline.rs:68-76 | the whole invariant holds in every reachable state, for any number of workers |
| `PipelineDrops.DropsAreJustified` | rust/notify-agent-core/src/aggregator.rs:145-155 | a superseded event always has a newer event of its own bucket key waiting or shown, a duplicate repeats an event accepted earlier with the same key, whose lifetime has not passed at its reading, an invalid one does not parse, and both drop counters are exact |
| `PipelineAcks.AckCausality` | rust/notify-agent-core/src/pipeline.rs:160-171 | in every run an event has an observed attempt exactly when it is past that step, a submitted acknowledgement follows the observed one of the same event, each is attempted at most once, and each carries its event's reception time and its toast's submission time |
| `PipelineAcks.AckFanOut` | rust/notify-agent-core/src/pipeline.rs:184-206 | a shown toast has acknowledged exactly its first sources so far, one that is through exactly one attempt for each of its sources, and a failed show none |
| `PipelineShutdown.DrainIsComplete` | rust/notify-agent-core/src/host.rs:133-140 | when the host is done and there was a worker, queue and buckets are empty and every message was dropped for a known reason, handed to exactly one render task, or is in the hands of a timer that has not spawned its render; there is none of the last kind exactly when no timer has a removed bucket in its hands |
| `PipelineShutdown.ShutdownHandlesAllExactly` | rust/notify-agent-core/src/aggregator.rs:128-140 | from any reachable state with every bucket flushed and a worker, every run to the end leaves each message dropped for a known reason or in a spawned render task if and only if no timer has a removed bucket in its hands |
| `PipelineShutdown.TimerOutlivesShutdown` | rust/notify-agent-core/src/aggregator.rs:158-174 | for any number of workers some run ends in time with a message in a timer's hands and no render task for it |
| `PipelineShutdown.WaitSettlesRenders` | rust/notify-agent-core/src/aggregator.rs:134-138 | from such a state with no timer holding a bucket, a run that ends without a timeout has every render through, with one attempt for each source of each shown toast |
| `PipelineShutdown.TimersArePaired` | rust/notify-agent-core/src/aggregator.rs:108-124 | until the host flushes, every armed timer's key has an open bucket and the timer is that bucket's, so no bucket is closed by the timer of an older one |
| `PipelineShutdown.TimersEndWithTheirBuckets` | rust/notify-agent-core/src/aggregator.rs:158-161 | if every abort of the flush comes in time, no timer outlives its bucket in the shutdown either |
| `PipelineShutdown.DrainsExactlyWithWorkers` | rust/notify-agent-core/src/pipeline.rs:115-120 | every completed shutdown leaves the queue empty if and only if there is at least one worker |
| `PipelineShutdown.NoWorkersNoDrain` | rust/notify-agent-core/src/pipeline.rs:115-120 | with no workers some completed shutdown leaves a message in the queue |
| `PipelineShutdown.StepKeepsStage` | rust/notify-agent-core/src/aggregator.rs:128-140 | every step keeps what each stage of the shutdown has achieved: exited workers mean an empty closed queue, and flushing leaves only keys of the snapshot |
| `PipelineShutdown.FlushIsSequential` | rust/notify-agent-core/src/aggregator.rs:128-132 | in every run the host has at most one removed bucket in its hands, and none unless it is flushing |
| `PipelineShutdown.HostGoesInOrder` | rust/notify-agent-core/src/host.rs:133-140 | in every run the host stops the subscriber, waits for it, closes the intake, flushes after joining the workers, waits and ends in exactly that order |
| `PipelineDrain.StepLowersMeasure` | rust/notify-agent-core/src/pipeline.rs:112-120 | every step other than a reception lowers a natural number |
| `PipelineDrain.DrainTerminates` | rust/notify-agent-core/src/host.rs:133-140 | once the subscriber has stopped, no run is longer than the measure it starts with |
| `PipelineDrain.DrainNeverStalls` | rust/notify-agent-core/src/host.rs:133-140 | until the host is done the agent can take a step of its own, so shutdown never deadlocks |
| `PipelineDrain.ShutdownDrains` | rust/notify-agent-core/src/host.rs:133-140 | from any reachable state with the subscriber stopped, every run is bounded, and one that cannot go on ends done with nothing in a timer's hands, nothing left behind given a worker, and every render through, with exactly one submitted attempt for each source of each shown toast |
| `PipelineDedup.DecisionsAreOneRun` | rust/notify-agent-core/src/pipeline.rs:160-162 | whatever the interleaving, the cache's decisions are one run of the cache, each event is decided at most once, and the events past it are exactly the accepted ones |
| `PipelineDedup.AtMostOneAdmittedPerKey` | rust/notify-agent-core/src/pipeline.rs:160-172 | within a lifetime and capacity, at most one event of each duplicate key is ever observed, bucketed or shown |
| `PipelineOrder.IntakeIsFifo` | rust/notify-agent-core/src/pipeline.rs:68-76 | whatever has left the queue arrived before whatever is in it, and one worker decides events in order of arrival |
| `PipelineOrder.TwoWorkersReorder` | rust/notify-agent-core/src/pipeline.rs:70-74 | with two workers some run decides a later event first |
| `PipelineOrder.OrderExactlyWithOneWorker` | rust/notify-agent-core/src/pipeline.rs:61-78 | decisions are in order of arrival in every run if and only if there is at most one worker |
| `PipelineHistory.BucketsFollowTheirArrivals` | rust/notify-agent-core/src/aggregator.rs:88-174 | in every run every open bucket is exactly what its arrivals since it opened leave, and every toast is the flush of that and shows the newest event ever handed to its bucket |
| `PipelineHistory.StepRemembers` | rust/notify-agent-core/src/aggregator.rs:145-174 | every step keeps the buckets, the removed buckets and the toasts explained by what was handed over |
| `PipelineInputs.ReceptionsExactly` | rust/notify-agent-core/src/host.rs:99-112 | in every run the messages received are the non-empty ones offered, in order, each with its own payload, the time of its own reception and the next number, and so is whatever is in the queue |
| `PipelineInputs.AcksTellReceptions` | rust/notify-agent-core/src/pipeline.rs:163-169 | every acknowledgement of every run tells the id of its message's event, the device and the time at which that message was received |
| `PipelineInputs.QueueFullExactly` | rust/notify-agent-core/src/pipeline.rs:130-143 | wherever a run receives a message it is the last in the queue or counted as dropped, and however the run goes on it has been dropped for a full queue if and only if the queue was full |
| `PipelineInputs.OverflowExactly` | rust/notify-agent-core/src/aggregator.rs:78-125 | wherever a run hands an event over it goes where its own priority and aggregation key send it, and however the run goes on it has been dropped for a full table if and only if it is not critical, its bucket was not open and the table was full |
| `PipelineInputs.ReadingsExactly` | rust/notify-agent-core/src/dedup.rs:32-34 | the cache decides on an event by the reading of the clock taken for that event, however late the decision comes |
| `PipelineInputs.SubmissionTimesExactly` | rust/notify-agent-core/src/pipeline.rs:184-206 | every submitted acknowledgement for a source of a toast tells when that toast was shown, and there is none if it could not be |
| `PipelineClock.QueueIsBounded` | rust/notify-agent-core/src/dedup.rs:32-55 | with a clock that never goes back, the cache's queue exceeds the capacity by at most the number of other workers in every run, and with a lifetime of zero it is no longer than their number |
| `PipelineClock.StepKeepsTime` | rust/notify-agent-core/src/dedup.rs:33-34 | every step keeps that an entry has at most as many overtaken entries behind it as calls were under way, that superseded entries are among them, and the room left where two keys' worth suffices |
| `PipelineQueue.LongestQueue` | rust/notify-agent-core/src/dedup.rs:36-53 | no run has a longer queue than the longest, a function of lifetime, capacity and workers, and some run has one as long |
| `PipelineQueue.QueueFitsExactly` | rust/notify-agent-core/src/dedup.rs:36-53 | for every lifetime and capacity, the queue stays within the capacity in every run if and only if there are too few workers to overfill it |
| `PipelineOverlap.ScanHolds` | rust/notify-agent-core/src/dedup.rs:32-55 | with at most one worker or room for one key, every decision of every run is that of the history scan |
| `PipelineOverlap.ScanFails` | rust/notify-agent-core/src/dedup.rs:33-42 | for every capacity but one and every lifetime, two workers have a run in which the scan refuses an event that the cache accepts |
| `PipelineOverlap.ScanHoldsExactly` | rust/notify-agent-core/src/dedup.rs:32-55 | the decisions of all runs are those of the history scan if and only if there is at most one worker or room for one key |
| `PipelineOrder.EveryToastShowsItsNewest` | rust/notify-agent-core/src/aggregator.rs:158-174 | in every run every toast lists events with one aggregation key and one priority in order of arrival, and has the title, text and details it should: those of the event on its own, or the count, the key and the newest text of several, each cut to its number of clusters |
| `Agent.AgentHost.TryEnqueue` | rust/notify-agent-core/src/pipeline.rs:131-143 | the event is appended exactly when the queue has room; otherwise only the counter goes up |
| `Agent.AgentHost.OnMessage` | rust/notify-agent-core/src/host.rs:103-113 | an empty payload changes nothing; any other gets the next number and is the last in the queue with its own reception time if there is room, and otherwise only the drop counter goes up |
| `Agent.AgentHost.Process` | rust/notify-agent-core/src/pipeline.rs:146-172 | from wherever the worker is suspended, the body walks what is left of parse, duplicate check, observed acknowledgement and hand-over, with its early returns |
| `Agent.ProcessedExactly` | rust/notify-agent-core/src/pipeline.rs:153-171 | an invalid event is dropped and nothing else happens, a refused one leaves only the decision, an accepted one is acknowledged as observed and goes where the aggregator puts it |
| `Agent.AgentHost.RunWorker` | rust/notify-agent-core/src/pipeline.rs:68-76 | the worker finishes its event and empties the queue, then ends if the intake is closed and waits otherwise; no other worker changes |
| `Agent.AgentHost.Show` | rust/notify-agent-core/src/pipeline.rs:184-206 | a successful show logs one acknowledgement per source, in order, with the shared submission time; a failed one logs nothing |
| `Agent.AgentHost.OnTimer` | rust/notify-agent-core/src/aggregator.rs:159-165 | a window that passes is the timer step of the transition system: the bucket is removed and its events are in the timer's hands, whether or not an abort comes in time |
| `Agent.AgentHost.OnTaken` | rust/notify-agent-core/src/aggregator.rs:166-172 | what the timer removed is sorted and spawned as one render, in a step of its own |
| `Agent.AgentHost.FlushAggregator` | rust/notify-agent-core/src/aggregator.rs:128-140 | the aggregator's shutdown loop is the flush steps of the transition system, one per key of its snapshot |
| `Agent.AgentHost.Shutdown` | rust/notify-agent-core/src/host.rs:133-140 | whatever the workers and timers are doing, the host's sequence ends done with every message in exactly one place, and given a worker with an empty queue and an empty table; every message is dropped for a known reason or in a toast exactly when no timer holds a removed bucket, which is so if none did at the start |
| `Buckets.SurvivorsExactly` | rust/notify-agent-core/src/aggregator.rs:145-155 | for every arrival sequence the bucket is the last arrival that emptied it followed by the ordinary events after it |
| `Buckets.ArrivalEffect` | rust/notify-agent-core/src/aggregator.rs:146-154 | comparing a replaceable arrival with the bucket decides the same as comparing it with everything ever offered |
| `Buckets.NewestSurvives` | rust/notify-agent-core/src/aggregator.rs:145-155 | the bucket is never empty, holds only offered events, and keeps the newest stamp offered |
| `Buckets.LatestWins` | rust/notify-agent-core/src/aggregator.rs:158-174 | for every order and mix, the newest event offered is in the bucket, is a source of the toast, and supplies its attribution, action and image |
| `Buckets.HomogeneousIsConfluent` | rust/notify-agent-core/src/aggregator.rs:145-174 | all replaceable or all ordinary: every permutation of arrivals flushes to the same toast |
| `Buckets.OrderMattersExactlyWhenMixed` | rust/notify-agent-core/src/aggregator.rs:145-174 | every permutation flushes alike if and only if the events are all replaceable or all ordinary |
| `Toasts.BatchShowsLatest` | rust/notify-agent-core/src/toast.rs:44-62 | every batch is its toast's sources; a single event is shown under its own title and text, cut to 120 and 500 clusters, several under their count, the key and the text of the event with the highest stamp, and the details are that event's |
| `Toasts.LoneEventIsShown` | rust/notify-agent-core/src/toast.rs:29-38 | with lossless segmentation, a toast of one event shows its title and its text whole within 120 and 500 clusters, and otherwise a beginning of them followed by the ellipsis |
| `Toasts.SummaryReadsBack` | rust/notify-agent-core/src/toast.rs:49-61 | a summary that fits tells, read back, the number of events, their key and the newest message |
| `Toasts.TruncationKeepsPrefix` | rust/notify-agent-core/src/grapheme.rs:5-12 | with lossless segmentation, text within the limit is whole and longer text is a prefix one cluster short of it plus an ellipsis |
| `CrossPort.ArrivalBucketIsSuffix` | golang/internal/aggregator/aggregator.go:164-167 | the Go and C# bucket is the suffix of arrivals from the last replaceable one, or all of them |
| `CrossPort.PortsAgreeExactly` | src/NotificationAgent.Core/Aggregation/Aggregator.cs:53-77 | the Rust and the Go and C# buckets are equal after every prefix if and only if no replaceable event arrives after a newer one |
| `CrossPort.SameToastExactly` | golang/internal/toast/toast.go:70-97 | for distinct stamps the ports flush to the same toast if and only if the last arrival that emptied the Rust bucket is the last replaceable one and the events from there on arrived in stamp order |
| `CrossPort.PortsShowTheSameToast` | golang/internal/toast/toast.go:70-97 | events arriving in increasing stamp order flush to the same toast in all ports |
| `Aggregation.Aggregator.AddEvent` | rust/notify-agent-core/src/aggregator.rs:78-125 | a critical event is rendered by itself under its own title and text; any other joins the open bucket of its own aggregation key and priority, is counted as dropped if the table is full, or opens a bucket with the window of its priority; nothing else changes |
| `Aggregation.Aggregator.FlushBucket` | rust/notify-agent-core/src/aggregator.rs:158-174 | the bucket and its timer go, and a non-empty bucket spawns one sorted toast |
| `Aggregation.Aggregator.TimerTake` | rust/notify-agent-core/src/aggregator.rs:114-117 | the timer's task disarms itself and removes the bucket of its own key |
| `Aggregation.Aggregator.Shutdown` | rust/notify-agent-core/src/aggregator.rs:128-132 | every key open at the start is flushed, in snapshot order |
| `Aggregation.SnapshotKeys` | rust/notify-agent-core/src/aggregator.rs:129-129 | the snapshot holds every key exactly once |
| `Aggregation.ShutdownEmptiesTable` | rust/notify-agent-core/src/aggregator.rs:128-132 | flushing the snapshot empties the table and shows every open bucket exactly once |
| `Aggregation.AddsExactly` | rust/notify-agent-core/src/aggregator.rs:78-125 | the specification of an addition, shared by the class and by the transition system, puts every event where its own priority and aggregation key send it |
| `Aggregation.AddKeepsTable` | rust/notify-agent-core/src/aggregator.rs:78-125 | an addition keeps the limit, non-empty buckets of one key each, and a timer with the right window for every bucket |
| `Aggregation.TakeKeepsTable` | rust/notify-agent-core/src/aggregator.rs:158-165 | removing a bucket keeps all that, and hands out events exactly when the bucket was open |
| `Aggregation.TimerKeepsTable` | rust/notify-agent-core/src/aggregator.rs:114-117 | a timer closes its bucket and leaves every other bucket its own timer |
| `Aggregation.TakeKeepsPairedExactly` | rust/notify-agent-core/src/aggregator.rs:159-161 | removing an open bucket leaves no timer behind if and only if the abort comes in time |
| `Dedup.DedupCache.TryAdd` | rust/notify-agent-core/src/dedup.rs:32-55 | purge, test, eviction and insertion in place compute the value-level answer and cache |
| `Dedup.DedupCache.DequeueFront` | rust/notify-agent-core/src/dedup.rs:65-73 | the oldest entry goes, and its key only if the entry is its current binding |
| `Dedup.DequeueKeepsAgreement` | rust/notify-agent-core/src/dedup.rs:65-73 | dropping the oldest entry never forgets a key that still has a queued entry |
| `Dedup.OfferKeepsAgreement` | rust/notify-agent-core/src/dedup.rs:32-55 | for any clock readings and a positive lifetime, map and queue stay in agreement and within capacity, and the answer is false exactly when the key is bound past now |
| `Dedup.LastEntryIsBinding` | rust/notify-agent-core/src/dedup.rs:47-53 | a key's last queued entry is its map binding |
| `Dedup.PurgeSparesLive` | rust/notify-agent-core/src/dedup.rs:38-40 | purging never touches a binding that is still live, even on a queue that is not expiry-ordered |
| `DedupRuns.AgreementInEveryRun` | rust/notify-agent-core/src/dedup.rs:32-55 | agreement and capacity hold after every sequence of calls |
| `DedupRuns.AgreementExactly` | rust/notify-agent-core/src/dedup.rs:32-55 | they agree in every run if and only if the lifetime is positive or the capacity is one |
| `DedupRuns.MatchesHistoryScan` | rust/notify-agent-core/src/dedup.rs:32-55 | with readings in lock order, a call is refused exactly when its key is among the last `capacity` accepted calls with time left |
| `DedupRuns.RepeatsAreFarApart` | rust/notify-agent-core/src/dedup.rs:47-54 | two accepted calls of one key within a lifetime have at least `capacity` accepted calls between them |
| `DedupRuns.RefusedRepeats` | rust/notify-agent-core/src/dedup.rs:42-46 | in any lock order, a refused call has an earlier accepted call of its key whose lifetime has not passed at its reading |
| `DedupRuns.OneWinnerPerKey` | rust/notify-agent-core/src/dedup.rs:32-55 | within one lifetime and capacity, in any lock order, exactly the first call of each key is accepted |
| `DedupOverlap.OfferKeepsOverlap` | rust/notify-agent-core/src/dedup.rs:32-55 | one call keeps the bound on overtaken and on superseded entries, whatever the readings of the calls under way |
| `DedupOverlap.QueueCanOutgrowCapacity` | rust/notify-agent-core/src/dedup.rs:36-40 | for the cache alone: `n` renewals of one key pile up behind an entry read after all but the last of them, which takes at least `n` callers at once |
| `DedupOverlap.ScanNeedsMonotoneReadings` | rust/notify-agent-core/src/dedup.rs:33-40 | for every capacity but one and every lifetime, a late, earlier reading admits a key the history scan refuses |
| `DedupOverlap.CapacityOneMatchesScan` | rust/notify-agent-core/src/dedup.rs:32-55 | with room for one key the answer equals the scan for readings in any order |
| `GoBatching.BoundedBatchingDelay` | golang/internal/aggregator/aggregator.go:92-208 | in every sequential run buckets and timers are in bijection, every deadline is opening time plus window and lies ahead, no timer fires twice, and the buckets are within their limit; windows and limit are given in numbers, with their defaults |
| `GoHistory.BucketsFollowTheirArrivals` | golang/internal/aggregator/aggregator.go:124-208 | in every sequential run every open bucket is what the arrival order leaves of the events added for its aggregation key and priority since it opened, every rendered batch is that of its bucket or the critical event itself, and as many events were dropped as were turned away |
| `GoBatching.AddsExactly` | golang/internal/aggregator/aggregator.go:124-169 | one addition renders, drops, appends, restarts or opens as the event's own priority and aggregation key and the bucket limit demand, whatever the table |
| `GoHistory.AddsInEveryRun` | golang/internal/aggregator/aggregator.go:124-169 | in every run an added event goes where its own priority and aggregation key send it, and the drop counter rises if and only if it is not critical, its bucket is not open and the table is full; unset limits mean 100 buckets and windows of 2 and 10 seconds |
| `GoBatching.AddNeverExtends` | golang/internal/aggregator/aggregator.go:136-168 | a later event never moves an open bucket's deadline |
| `GoBatching.AdvanceClosesExactlyDue` | golang/internal/clock/clock.go:69-92 | after an advance a bucket is open if and only if its deadline has not come |
| `GoBatching.AdvanceRendersDue` | golang/internal/clock/clock.go:83-91 | an advance renders and closes exactly the due buckets, whole, earlier deadlines first, of equal ones the bucket opened first |
| `GoBatching.DueListExactly` | golang/internal/clock/clock.go:74-88 | each timer with a deadline not after now is listed once, earlier deadlines first, of equal ones the timer set first |
| `GoBatching.FlushLeavesNothing` | golang/internal/aggregator/aggregator.go:194-208 | a flush renders every open bucket once, stops every timer and leaves nothing |
| `GoAggregator.FakeClock.TakeDue` | golang/internal/clock/clock.go:69-88 | collecting from the map in any order and sorting gives the one due list |
| `GoAggregator.FakeClock.AfterFunc` | golang/internal/clock/clock.go:97-107 | a timer gets a fresh id and the deadline now plus delay |
| `GoAggregator.FakeClock.Stop` | golang/internal/clock/clock.go:109-117 | stopping removes a pending timer and says whether there was one |
| `GoAggregator.Aggregator.Add` | golang/internal/aggregator/aggregator.go:124-169 | a critical event is rendered at once; any other joins the open bucket of its own aggregation key and priority, where it clears what was there if it is replaceable and is appended, is counted as dropped if the table is full, or opens a bucket with its window |
| `GoAggregator.Aggregator.OnTimer` | golang/internal/aggregator/aggregator.go:174-186 | the callback removes and renders its own bucket and nothing else |
| `GoAggregator.Aggregator.AdvanceClock` | golang/internal/clock/clock.go:69-92 | advancing the clock and running the due callbacks is the value step |
| `GoAggregator.Aggregator.FlushAll` | golang/internal/aggregator/aggregator.go:194-208 | the in-place flush is the value step for the order in which the map yields its keys |
| `XmlText.SequentialIsSinglePass` | golang/internal/windowstoast/toastxml.go:18-29 | five replacements in a row equal one simultaneous substitution on every string |
| `XmlText.EscapeRoundTrip` | rust/notify-agent-core/src/toast_xml.rs:6-12 | a reader of the five entities as section 4.6 of XML 1.0 spells them gets back the input, and the escaped text has no markup characters |
| `XmlText.EscapeOfPlain` | rust/notify-agent-core/src/toast_xml.rs:6-12 | text without the five characters is unchanged |
| `FileUri.BuildFileUri` | rust/notify-agent-core/src/toast_xml.rs:17-29 | the byte loop computes the percent-encoded URI of the normalized path |
| `FileUri.PercentRoundTrip` | rust/notify-agent-core/src/toast_xml.rs:20-28 | decoding the percent-encoded bytes returns them |
| `FileUri.EncodesExactly` | rust/notify-agent-core/src/toast_xml.rs:20-28 | a text is the encoding of some bytes if and only if it decodes to them and is in normal form: unreserved characters, slash and colon as they are, and upper-case triplets for exactly the other bytes |
| `FileUri.UriReadsBack` | rust/notify-agent-core/src/toast_xml.rs:17-29 | the URI is `file:///` and a body in normal form that decodes to the path with backslashes turned into slashes and at most one leading slash left out |
| `FileUri.UriNeedsNoEscaping` | golang/internal/windowstoast/toastxml.go:35-52 | the URI uses only unreserved characters, slash, colon and percent, so XML escaping leaves it unchanged |
| `ToastXml.ReadBack` | rust/notify-agent-core/src/toast_xml.rs:35-70 | a reader that spells the template out recovers title, message, attribution, validated action, normalized image path and shape from every built string |
| `ToastXml.DifferentContentDifferentXml` | rust/notify-agent-core/src/toast_xml.rs:35-70 | two toasts with different visible content never give the same XML |
| `JsonDepth.DepthExceeds` | rust/notify-agent-core/src/parser.rs:115-141 | the loop with its early return computes the scan |
| `JsonDepth.ScanExactly` | rust/notify-agent-core/src/parser.rs:115-141 | on every byte string, JSON or not, the scan says exceeded if and only if some stretch of it, strings left out, opens more brackets than it closes by more than the limit |
| `JsonDepth.DepthScanIsExact` | rust/notify-agent-core/src/parser.rs:113-141 | for every JSON value, printed with any legal whitespace and escapes, the scan says exceeded if and only if the value nests deeper than the limit |
| `Parser.ParsedExactly` | rust/notify-agent-core/src/parser.rs:23-111 | a payload gets through exactly when it is non-empty, of at most 32768 bytes and 16 levels, decodable and has its four required fields; each field then comes from its own place, with the fallbacks for priority and keys, a present text or a valid image is kept, and so are the timestamps, the stamp and the reception time |
| `Parser.RejectionNamesTheFault` | rust/notify-agent-core/src/parser.rs:28-46 | a rejection names a fault the payload has, and the first missing field in the order they are required |
| `DevicePolling.Poll` | rust/notify-agent-core/src/identity.rs:151-184 | the loop terminates with a run of the polling protocol and the interval in force |
| `DevicePolling.PollingGoesOnExactly` | rust/notify-agent-core/src/identity.rs:53-67 | polling goes on exactly for `authorization_pending` and `slow_down`, slows down exactly for the latter, a token beats any error code, and any other answer fails with its own reason |
| `DevicePolling.Conclude` | rust/notify-agent-core/src/identity.rs:158-183 | sign-in succeeds exactly when the final body carries a token with an object id, as the user with that id and with the body's refresh token |
| `DevicePolling.IntervalExactly` | rust/notify-agent-core/src/identity.rs:171-171 | the interval is the sum of the server's interval, or one if that is zero, and five seconds per `slow_down`, and never above the largest 64-bit number |
| `DevicePolling.RequestBound` | rust/notify-agent-core/src/identity.rs:151-168 | at most ceil(expires_in / max(1, interval)) requests are sent, whatever the replies |
| `DevicePolling.BoundIsReached` | rust/notify-agent-core/src/identity.rs:151-170 | against a server that only answers pending, exactly that many are sent |
| `DevicePolling.SlowRoundEndsPolling` | rust/notify-agent-core/src/identity.rs:151-170 | once the sleep and the request of one round have used up the lifetime, nothing more is sent |
| `DevicePolling.RunIsUnique` | rust/notify-agent-core/src/identity.rs:153-184 | the replies and times determine the number of requests and the outcome |
| `ImageCache.CacheDirectory.EvictBeyondCap` | rust/notify-agent-core/src/image_cache.rs:144-167 | exactly the oldest files beyond the cap go, except those whose removal fails |
| `ImageCache.EvictionKeepsNewest` | rust/notify-agent-core/src/image_cache.rs:160-166 | the smaller of count and cap remains, no removed file is newer than a kept one, and a strictly newest file survives |
| `ImageCache.Download` | rust/notify-agent-core/src/image_cache.rs:91-101 | the body comes back exactly when every chunk arrived and the whole fits the size limit |

## Left out

- NATS connection and authentication, HTTP clients, token exchange, PowerShell, WinRT and the tray: input, output and foreign calls. Showing a toast is an arbitrary success or failure.
- JSON decoding, URL parsing, SHA-256 and grapheme segmentation are arbitrary functions; no property of them is claimed beyond what a lemma requires.
- Whether publishing an acknowledgement succeeds, fails or times out: the code only logs it, so the model records the attempt.
- Settings, environment precedence, log levels, device-id files, user-name sanitizing and JSON field names: single-branch facts.
- The width of `seq` and of the drop counters (64 bits) and overflow of instants and durations: the model's numbers are unbounded. The saturating polling interval is modelled with its width.
- A queue capacity of zero makes the channel's constructor panic; the claims about runs include that capacity although no such agent starts.
- When Rust windows elapse: a bucket's timer carries its window, but a timer step may happen at any moment. Exact deadlines are proved for the Go port on its manual clock.
- The concurrency of `pipeline.rs` and `host.rs` is modelled on values, as a transition system whose steps are atomic; `Agent.AgentHost` has the bodies in place, and its methods for the stages of a worker can be called in any order, but each of its loops runs without interruption.
- Agent.AgentHost.RunWorker: no other worker, timer or reception acts while its loop runs; `PipelineLedger.Conservation` and the other claims about runs cover every schedule.
- Agent.AgentHost.FlushAggregator: no timer fires between the flushes of its snapshot; `PipelineShutdown.ShutdownHandlesAllExactly` covers every schedule.
- Agent.AgentHost.Shutdown: joins the workers one after the other, no timer fires while it flushes, and it gives up waiting for the renders; `PipelineShutdown.DrainIsComplete` and `PipelineShutdown.WaitSettlesRenders` cover every schedule and the other ending.
- PipelineQueue.LongestQueue: with room for two keys it is for a positive lifetime; for a lifetime of zero `PipelineQueue.QueueFitsExactly` says when the queue outgrows the capacity, not by how much.
- Worker panics and process exit on a dead subscription. What becomes of renders abandoned at the drain timeout, and of a timer still holding a bucket, when the process ends: the model lets them go on.
- Go: re-entrant renders, the recovery from a panicking render, rate limiting of overflow warnings, and the concurrent real clock. Go and C# represent an absent optional text by the empty string; the model keeps it optional.
- The Go and C# toast XML builders: only the escaping and the file URI are compared.
- The image cache's content-type test, temporary files, and listings that change while eviction runs; entries whose metadata cannot be read are not part of a listing.
- ImageCache.EvictionKeepsNewest: speaks of evictions whose removals succeed; `ImageCache.CacheDirectory.EvictBeyondCap` says what remains when some fail.
- DevicePolling.Poll: requires every sleep to last at least its interval, as the runtime promises; without that the loop need not end.
- Parser.ParsedExactly: requires that the literal `unknown`, the fallback aggregation key, is not blank.
- The test publisher: a development tool.
