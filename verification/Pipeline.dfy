/**
 The agent as a transition system (host.rs, pipeline.rs, aggregator.rs): one
 subscriber, a bounded queue, any number of workers, bucket timers, render tasks
 and the shutdown sequence, interleaving arbitrarily. Each step is one action the
 code performs without giving up control of the state it touches.

 `place` is a ledger: for every message received so far, where it is now. It only
 records; no step reads it.
 */
module Pipeline {
  import opened Model
  import opened Parser
  import opened Buckets
  import opened Sorting
  import Dedup
  import DedupRuns
  import A = Aggregation

  datatype Setup = Setup(
    lib: Libraries,
    queueCapacity: nat,
    workers: nat,
    dedup: Dedup.Limits,
    aggregation: A.Config,
    deviceId: string)

  /** A worker and the event it is processing. */
  datatype Worker =
    | Idle
    | Holding(evt: ReceivedEvent)           // dequeued
    | Checking(n: Notification, now: int)   // parsed and clock read, before the cache's lock
    | Observing(n: Notification)            // accepted, before the observed acknowledgement
    | Handing(n: Notification)              // acknowledgement attempted, before the aggregator
    | Exited

  datatype RenderStatus = Pending | Failed | Acking(submittedAt: int, done: nat)

  datatype Render = Render(toast: ToastRequest, status: RenderStatus)

  /** What a timer, or the host, took out of a bucket; open until it is handed to a render task. */
  datatype Hand = Hand(events: seq<Notification>, ofHost: bool, open: bool)

  /** One attempt to publish an acknowledgement; the code ignores how it ends. */
  datatype AckAttempt = AckAttempt(stamp: nat, ack: AckPayload)

  /** One decision of the duplicate cache, in lock order. */
  datatype Decision = Decision(stamp: nat, call: DedupRuns.Call, accepted: bool)

  /** How far the host has got in its life. */
  datatype Host =
    | Running
    | Cancelled                    // the subscriber was told to stop
    | SubscriberGone               // and has stopped
    | IntakeClosed                 // the queue accepts nothing more; workers are joined
    | Flushing(left: seq<Key>)     // keys of the snapshot still to be flushed
    | Waiting                      // for in-flight renders, or the drain timeout
    | Done(timedOut: bool)

  datatype Reason = QueueFull | Invalid | Duplicate | BucketOverflow | Superseded

  datatype Place =
    | InQueue
    | AtWorker(w: nat)
    | InBucket(key: Key)
    | InHand(h: nat)
    | InToast(r: nat)
    | Dropped(reason: Reason)

  datatype State = State(
    received: seq<ReceivedEvent>,
    queue: seq<ReceivedEvent>,
    droppedQueueFull: nat,
    workers: seq<Worker>,
    cache: Dedup.Cache,
    decisions: seq<Decision>,
    table: A.Table,
    hands: seq<Hand>,
    renders: seq<Render>,
    log: seq<AckAttempt>,
    host: Host,
    place: map<nat, Place>)

  function Initial(setup: Setup): State {
    State([], [], 0, seq(setup.workers, _ => Idle), Dedup.EMPTY, [], A.EMPTY, [], [], [], Running, map[])
  }

  datatype Step =
    | Receive(payload: seq<Byte>, at: int)
    | Dequeue(w: nat)
    | Exit(w: nat)
    | Parse(w: nat, now: int)
    | Check(w: nat)
    | Observe(w: nat)
    | HandOver(w: nat)
    | TimerFires(id: nat, aborted: bool)
    | SpawnTaken(h: nat)
    | Show(r: nat, submittedAt: Option<int>)
    | AckSource(r: nat)
    | Cancel
    | SubscriberStops
    | CloseIntake
    | BeginFlush(order: seq<Key>)
    | FlushNext(aborted: bool)
    | EndFlush
    | Finish(timedOut: bool)

  /** A step of one of the workers. */
  predicate OfWorker(step: Step) {
    step.Dequeue? || step.Exit? || step.Parse? || step.Check? || step.Observe? || step.HandOver?
  }

  /** A step that only moves the host along. */
  predicate OfHost(step: Step) {
    step.Cancel? || step.SubscriberStops? || step.CloseIntake? || step.BeginFlush? || step.EndFlush? || step.Finish?
  }

  predicate SubscriberAlive(h: Host) {
    h.Running? || h.Cancelled?
  }

  /** Every sender of the intake channel has been dropped. */
  predicate Closed(h: Host) {
    h.IntakeClosed? || h.Flushing? || h.Waiting? || h.Done?
  }

  /** The host is not between removing a bucket and spawning its render. */
  ghost predicate HostFree(s: State) {
    forall h :: 0 <= h < |s.hands| && s.hands[h].open ==> !s.hands[h].ofHost
  }

  /** The render task has nothing left to do. */
  predicate IsThrough(r: Render) {
    r.status.Failed? || (r.status.Acking? && r.status.done == |r.toast.sources|)
  }

  ghost predicate AllThrough(renders: seq<Render>) {
    forall r :: 0 <= r < |renders| ==> IsThrough(renders[r])
  }

  ghost predicate Enabled(s: State, step: Step) {
    match step
    case Receive(_, _) => SubscriberAlive(s.host)
    case Dequeue(w) => w < |s.workers| && s.workers[w].Idle? && s.queue != []
    case Exit(w) => w < |s.workers| && s.workers[w].Idle? && s.queue == [] && Closed(s.host)
    case Parse(w, _) => w < |s.workers| && s.workers[w].Holding?
    case Check(w) => w < |s.workers| && s.workers[w].Checking?
    case Observe(w) => w < |s.workers| && s.workers[w].Observing?
    case HandOver(w) => w < |s.workers| && s.workers[w].Handing?
    case TimerFires(id, _) => id in s.table.timers
    case SpawnTaken(h) => h < |s.hands| && s.hands[h].open && s.hands[h].events != []
    case Show(r, _) => r < |s.renders| && s.renders[r].status.Pending?
    case AckSource(r) =>
      r < |s.renders| && s.renders[r].status.Acking? && s.renders[r].status.done < |s.renders[r].toast.sources|
    case Cancel => s.host.Running?
    case SubscriberStops => s.host.Cancelled?
    case CloseIntake => s.host.SubscriberGone?
    case BeginFlush(order) =>
      && s.host.IntakeClosed? && (forall w :: 0 <= w < |s.workers| ==> s.workers[w].Exited?)
      && Enumerates(order, s.table.buckets.Keys)
    case FlushNext(_) => s.host.Flushing? && s.host.left != [] && HostFree(s)
    case EndFlush => s.host.Flushing? && s.host.left == [] && HostFree(s)
    case Finish(timedOut) => s.host.Waiting? && (timedOut || AllThrough(s.renders))
  }

  // ---------------------------------------------------------------------------
  // Ledger moves

  /** Everything at `from` goes to `to`. */
  function Move(place: map<nat, Place>, from: Place, to: Place): map<nat, Place> {
    map s | s in place :: if place[s] == from then to else place[s]
  }

  // ---------------------------------------------------------------------------
  // The steps

  function DoReceive(setup: Setup, s: State, payload: seq<Byte>, at: int): State {
    if payload == [] then s else
    var evt := ReceivedEvent(payload, at, |s.received| + 1);
    if |s.queue| < setup.queueCapacity then
      s.(received := s.received + [evt], queue := s.queue + [evt], place := s.place[evt.stamp := InQueue])
    else
      s.(received := s.received + [evt], droppedQueueFull := s.droppedQueueFull + 1,
         place := s.place[evt.stamp := Dropped(QueueFull)])
  }

  function DoDequeue(s: State, w: nat): State
    requires w < |s.workers| && s.queue != []
  {
    var evt := s.queue[0];
    s.(queue := s.queue[1..], workers := s.workers[w := Holding(evt)], place := s.place[evt.stamp := AtWorker(w)])
  }

  function DoParse(setup: Setup, s: State, w: nat, now: int): State
    requires w < |s.workers| && s.workers[w].Holding?
  {
    var evt := s.workers[w].evt;
    match ParseEvent(setup.lib, evt)
    case Ok(n) => s.(workers := s.workers[w := Checking(n, now)])
    case Err(_) => s.(workers := s.workers[w := Idle], place := s.place[evt.stamp := Dropped(Invalid)])
  }

  function DoCheck(setup: Setup, s: State, w: nat): State
    requires w < |s.workers| && s.workers[w].Checking?
  {
    var n, now := s.workers[w].n, s.workers[w].now;
    var answer := Dedup.Offer(setup.dedup, s.cache, n.deduplicationKey, now);
    var decided := s.decisions + [Decision(n.stamp, DedupRuns.Call(n.deduplicationKey, now), answer.accepted)];
    if answer.accepted then
      s.(workers := s.workers[w := Observing(n)], cache := answer.cache, decisions := decided)
    else
      s.(workers := s.workers[w := Idle], cache := answer.cache, decisions := decided,
         place := s.place[n.stamp := Dropped(Duplicate)])
  }

  function ObservedAck(setup: Setup, n: Notification): AckAttempt {
    AckAttempt(n.stamp, AckPayload(n.eventId, setup.deviceId, n.receivedAt, None, ObservedByAgent))
  }

  function SubmittedAck(setup: Setup, n: Notification, submittedAt: int): AckAttempt {
    AckAttempt(n.stamp, AckPayload(n.eventId, setup.deviceId, n.receivedAt, Some(submittedAt), SubmittedToWindows))
  }

  function DoObserve(setup: Setup, s: State, w: nat): State
    requires w < |s.workers| && s.workers[w].Observing?
  {
    var n := s.workers[w].n;
    s.(workers := s.workers[w := Handing(n)], log := s.log + [ObservedAck(setup, n)])
  }

  function Spawn(renders: seq<Render>, spawned: Option<ToastRequest>): seq<Render> {
    if spawned.Some? then renders + [Render(spawned.value, Pending)] else renders
  }

  /** Where the events of the bucket and `n` go when `n` is handed to the aggregator. */
  function PlaceAfterAdd(setup: Setup, s: State, n: Notification): map<nat, Place> {
    var key := KeyOf(n);
    if n.priority == Critical then s.place[n.stamp := InToast(|s.renders|)]
    else if key in s.table.buckets then
      var events := s.table.buckets[key].events;
      if !n.isReplaceable then s.place[n.stamp := InBucket(key)]
      else if n.stamp >= NewestStamp(events) then
        Move(s.place, InBucket(key), Dropped(Superseded))[n.stamp := InBucket(key)]
      else s.place[n.stamp := Dropped(Superseded)]
    else if |s.table.buckets| >= setup.aggregation.maxBuckets then s.place[n.stamp := Dropped(BucketOverflow)]
    else s.place[n.stamp := InBucket(key)]
  }

  function DoHandOver(setup: Setup, s: State, w: nat): State
    requires w < |s.workers| && s.workers[w].Handing?
  {
    var n := s.workers[w].n;
    var e := A.Add(setup.lib, setup.aggregation, s.table, n);
    s.(workers := s.workers[w := Idle], table := e.table, renders := Spawn(s.renders, e.spawned),
       place := PlaceAfterAdd(setup, s, n))
  }

  /** A bucket's events have been removed under the lock and are in somebody's hands. */
  function AfterTake(s: State, taken: A.Taken, key: Key, ofHost: bool): State {
    s.(table := taken.table,
       hands := if taken.events == [] then s.hands else s.hands + [Hand(taken.events, ofHost, true)],
       place := Move(s.place, InBucket(key), InHand(|s.hands|)))
  }

  function DoTimer(s: State, id: nat, aborted: bool): State
    requires id in s.table.timers
  {
    AfterTake(s, A.TimerTakes(s.table, id, aborted), s.table.timers[id].key, false)
  }

  function DoFlushNext(s: State, aborted: bool): State
    requires s.host.Flushing? && s.host.left != []
  {
    var key := s.host.left[0];
    AfterTake(s, A.Take(s.table, key, aborted), key, true).(host := Flushing(s.host.left[1..]))
  }

  /** The taken events are sorted and handed to a render task, after the lock is released. */
  function DoSpawnTaken(setup: Setup, s: State, h: nat): State
    requires h < |s.hands| && s.hands[h].events != []
  {
    s.(hands := s.hands[h := s.hands[h].(open := false)],
       renders := s.renders + [Render(FlushToast(setup.lib, s.hands[h].events), Pending)],
       place := Move(s.place, InHand(h), InToast(|s.renders|)))
  }

  function DoShow(s: State, r: nat, submittedAt: Option<int>): State
    requires r < |s.renders|
  {
    var status := if submittedAt.Some? then Acking(submittedAt.value, 0) else Failed;
    s.(renders := s.renders[r := s.renders[r].(status := status)])
  }

  function DoAckSource(setup: Setup, s: State, r: nat): State
    requires r < |s.renders| && s.renders[r].status.Acking? && s.renders[r].status.done < |s.renders[r].toast.sources|
  {
    var status := s.renders[r].status;
    var n := s.renders[r].toast.sources[status.done];
    s.(renders := s.renders[r := s.renders[r].(status := status.(done := status.done + 1))],
       log := s.log + [SubmittedAck(setup, n, status.submittedAt)])
  }

  ghost function Apply(setup: Setup, s: State, step: Step): State
    requires Enabled(s, step)
  {
    match step
    case Receive(payload, at) => DoReceive(setup, s, payload, at)
    case Dequeue(w) => DoDequeue(s, w)
    case Exit(w) => s.(workers := s.workers[w := Exited])
    case Parse(w, now) => DoParse(setup, s, w, now)
    case Check(w) => DoCheck(setup, s, w)
    case Observe(w) => DoObserve(setup, s, w)
    case HandOver(w) => DoHandOver(setup, s, w)
    case TimerFires(id, aborted) => DoTimer(s, id, aborted)
    case SpawnTaken(h) => DoSpawnTaken(setup, s, h)
    case Show(r, submittedAt) => DoShow(s, r, submittedAt)
    case AckSource(r) => DoAckSource(setup, s, r)
    case Cancel => s.(host := Cancelled)
    case SubscriberStops => s.(host := SubscriberGone)
    case CloseIntake => s.(host := IntakeClosed)
    case BeginFlush(order) => s.(host := Flushing(order))
    case FlushNext(aborted) => DoFlushNext(s, aborted)
    case EndFlush => s.(host := Waiting)
    case Finish(timedOut) => s.(host := Done(timedOut))
  }

  /** `steps` leads from `s` to `t`. */
  ghost predicate Leads(setup: Setup, s: State, steps: seq<Step>, t: State)
    decreases |steps|
  {
    if steps == [] then s == t
    else Enabled(s, steps[0]) && Leads(setup, Apply(setup, s, steps[0]), steps[1..], t)
  }
}
