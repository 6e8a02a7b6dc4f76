/**
 The agent in place (host.rs, pipeline.rs): the bodies of the subscribe loop, of a
 worker, of a render task and of the shutdown sequence, on the cache and the
 aggregator they share. `model` and `trace` are ghosts: `Valid()` says that the
 fields are those of a state the transition system of `Pipeline` reaches by `trace`,
 so everything proved of all runs holds of every object built here. A worker's fields
 say where it is suspended, and each stage of its work is a method of its own, so the
 stages of several workers, timers and renders can be called in any order.
 */
module Agent {
  import opened Model
  import opened Parser
  import opened Pipeline
  import opened PipelineLedger
  import opened PipelineShutdown
  import opened Buckets
  import opened Dedup
  import DedupRuns
  import A = Aggregation

  function ToastsOf(renders: seq<Render>): (r: seq<ToastRequest>)
    ensures |r| == |renders| && forall i :: 0 <= i < |r| ==> r[i] == renders[i].toast
  {
    seq(|renders|, i requires 0 <= i < |renders| => renders[i].toast)
  }

  lemma SpawnedToasts(renders: seq<Render>, spawned: Option<ToastRequest>)
    ensures ToastsOf(Spawn(renders, spawned))
      == if spawned.Some? then ToastsOf(renders) + [spawned.value] else ToastsOf(renders)
  {
  }

  lemma SameToasts(renders: seq<Render>, r: nat, status: RenderStatus)
    requires r < |renders|
    ensures ToastsOf(renders[r := renders[r].(status := status)]) == ToastsOf(renders)
  {
  }

  /** Worker `w` goes on from wherever it is to the end of its event. */
  function Processed(setup: Setup, s: State, w: nat, now: int): (t: State)
    requires w < |s.workers|
    ensures t.workers == (if s.workers[w].Exited? then s.workers else s.workers[w := Idle])
    ensures t.host == s.host && t.queue == s.queue && t.received == s.received && t.hands == s.hands
  {
    var parsed := if s.workers[w].Holding? then DoParse(setup, s, w, now) else s;
    var checked := if parsed.workers[w].Checking? then DoCheck(setup, parsed, w) else parsed;
    var observed := if checked.workers[w].Observing? then DoObserve(setup, checked, w) else checked;
    if observed.workers[w].Handing? then DoHandOver(setup, observed, w) else observed
  }

  /**
   What becomes of an event that a worker has taken: an invalid one is dropped and nothing
   else happens; a refused one leaves only the decision; an accepted one is acknowledged
   as observed and goes where the aggregator puts it.
   */
  lemma ProcessedExactly(setup: Setup, s: State, w: nat, now: int)
    requires w < |s.workers| && s.workers[w].Holding?
    ensures var t, evt := Processed(setup, s, w, now), s.workers[w].evt;
      match ParseEvent(setup.lib, evt)
      case Err(_) =>
        t == s.(workers := s.workers[w := Idle], place := s.place[evt.stamp := Dropped(Invalid)])
      case Ok(n) =>
        var answer := Offer(setup.dedup, s.cache, n.deduplicationKey, now);
        var e := A.Add(setup.lib, setup.aggregation, s.table, n);
        && t.cache == answer.cache
        && t.decisions == s.decisions + [Decision(n.stamp, DedupRuns.Call(n.deduplicationKey, now), answer.accepted)]
        && (!answer.accepted ==>
              && t.place == s.place[n.stamp := Dropped(Duplicate)]
              && t.log == s.log && t.table == s.table && t.renders == s.renders)
        && (answer.accepted ==>
              && t.place == PlaceAfterAdd(setup, s, n)
              && t.log == s.log + [ObservedAck(setup, n)] && t.table == e.table
              && t.renders == Spawn(s.renders, e.spawned))
  {
  }

  /** Toast `r` was shown at `submittedAt` and its first `done` sources acknowledged, each with its own data. */
  function Acknowledged(setup: Setup, s: State, r: nat, submittedAt: int, done: nat): State
    requires r < |s.renders| && done <= |s.renders[r].toast.sources|
  {
    var toast := s.renders[r].toast;
    s.(renders := s.renders[r := Render(toast, Acking(submittedAt, done))],
       log := s.log + seq(done, i requires 0 <= i < done => SubmittedAck(setup, toast.sources[i], submittedAt)))
  }

  lemma AckOneMore(setup: Setup, s: State, r: nat, submittedAt: int, done: nat)
    requires r < |s.renders| && done < |s.renders[r].toast.sources|
    ensures var t := Acknowledged(setup, s, r, submittedAt, done);
      && DoAckSource(setup, t, r) == Acknowledged(setup, s, r, submittedAt, done + 1)
      && ToastsOf(DoAckSource(setup, t, r).renders) == ToastsOf(t.renders)
  {
    var t := Acknowledged(setup, s, r, submittedAt, done);
    var u := Acknowledged(setup, s, r, submittedAt, done + 1);
    assert u.log == t.log + [SubmittedAck(setup, s.renders[r].toast.sources[done], submittedAt)];
    SameToasts(t.renders, r, Acking(submittedAt, done + 1));
  }

  class AgentHost {
    const setup: Setup
    const dedup: DedupCache
    const aggregator: A.Aggregator
    /** The number of messages numbered so far. */
    var stamp: nat
    var queue: seq<ReceivedEvent>
    var droppedQueueFull: nat
    /** What each worker is doing. */
    var tasks: seq<Worker>
    /** Some sender of the intake channel is still there. */
    var intakeOpen: bool
    /** The acknowledgements attempted, in order. */
    var acks: seq<AckAttempt>
    ghost var model: State
    ghost var trace: seq<Step>

    ghost predicate Traced()
      reads this
    {
      Leads(setup, Initial(setup), trace, model)
    }

    /** The fields are those of `s`. */
    ghost predicate Represents(s: State)
      reads this, dedup, aggregator
    {
      && stamp == |s.received| && queue == s.queue && droppedQueueFull == s.droppedQueueFull && acks == s.log
      && tasks == s.workers && intakeOpen == !Closed(s.host)
      && dedup.State() == s.cache
      && aggregator.State() == s.table && aggregator.renders == ToastsOf(s.renders)
    }

    ghost predicate Valid()
      reads this, dedup, aggregator
    {
      && dedup.limits == setup.dedup && aggregator.lib == setup.lib && aggregator.config == setup.aggregation
      && Represents(model) && Traced()
    }

    constructor (setup: Setup)
      requires setup.dedup.capacity >= 1
      ensures Valid() && model == Initial(setup) && this.setup == setup
      ensures fresh(dedup) && fresh(aggregator)
    {
      this.setup := setup;
      dedup := new DedupCache(setup.dedup.capacity, setup.dedup.ttl);
      aggregator := new A.Aggregator(setup.lib, setup.aggregation);
      stamp, queue, droppedQueueFull, acks := 0, [], 0, [];
      tasks, intakeOpen := seq(setup.workers, _ => Idle), true;
      model, trace := Initial(setup), [];
    }

    /** Records that the code has just performed `step`. */
    ghost method Perform(step: Step)
      requires Traced() && Enabled(model, step)
      modifies this`model, this`trace
      ensures Traced() && model == Apply(setup, old(model), step)
    {
      LeadsOn(setup, Initial(setup), trace, model, step);
      model, trace := Apply(setup, model, step), trace + [step];
    }

    // -------------------------------------------------------------------------
    // Subscriber

    method TryEnqueue(evt: ReceivedEvent) returns (ok: bool)
      modifies this`queue, this`droppedQueueFull
      ensures ok <==> old(|queue|) < setup.queueCapacity
      ensures queue == if ok then old(queue) + [evt] else old(queue)
      ensures droppedQueueFull == if ok then old(droppedQueueFull) else old(droppedQueueFull) + 1
    {
      if |queue| < setup.queueCapacity {
        queue := queue + [evt];
        return true;
      }
      droppedQueueFull := droppedQueueFull + 1;
      return false;
    }

    /** One turn of the subscribe loop. */
    method OnMessage(payload: seq<Byte>, at: int)
      requires Valid() && SubscriberAlive(model.host)
      modifies this
      ensures Valid() && model == DoReceive(setup, old(model), payload, at)
      ensures payload == [] ==> stamp == old(stamp) && queue == old(queue) && droppedQueueFull == old(droppedQueueFull)
      ensures payload != [] ==> stamp == old(stamp) + 1
      ensures payload != [] && old(|queue|) < setup.queueCapacity ==>
        queue == old(queue) + [ReceivedEvent(payload, at, old(stamp) + 1)] && droppedQueueFull == old(droppedQueueFull)
      ensures payload != [] && old(|queue|) >= setup.queueCapacity ==>
        queue == old(queue) && droppedQueueFull == old(droppedQueueFull) + 1
    {
      Perform(Receive(payload, at));
      if payload != [] {
        stamp := stamp + 1;
        var _ := TryEnqueue(ReceivedEvent(payload, at, stamp));
      }
    }

    // -------------------------------------------------------------------------
    // Workers

    /** Parse, suppress duplicates, acknowledge, aggregate, from wherever the worker was suspended. */
    method Process(w: nat, now: int)
      requires Valid() && w < |tasks|
      modifies this, dedup, aggregator
      ensures Valid() && model == Processed(setup, old(model), w, now)
    {
      if tasks[w].Holding? {
        ParseTaken(w, now);
      }
      if tasks[w].Checking? {
        Admit(w);
      }
      if tasks[w].Observing? {
        AckObserved(w);
      }
      if tasks[w].Handing? {
        PassOn(w);
      }
    }

    method ParseTaken(w: nat, now: int)
      requires Valid() && w < |tasks| && tasks[w].Holding?
      modifies this`model, this`trace, this`tasks
      ensures Valid() && model == DoParse(setup, old(model), w, now)
    {
      var parsed := ParseEvent(setup.lib, tasks[w].evt);
      tasks := tasks[w := if parsed.Ok? then Checking(parsed.value, now) else Idle];
      Perform(Parse(w, now));
    }

    method Admit(w: nat)
      requires Valid() && w < |tasks| && tasks[w].Checking?
      modifies this`model, this`trace, this`tasks, dedup
      ensures Valid() && model == DoCheck(setup, old(model), w)
    {
      var n := tasks[w].n;
      var accepted := dedup.TryAdd(n.deduplicationKey, tasks[w].now);
      tasks := tasks[w := if accepted then Observing(n) else Idle];
      Perform(Check(w));
    }

    method AckObserved(w: nat)
      requires Valid() && w < |tasks| && tasks[w].Observing?
      modifies this`model, this`trace, this`tasks, this`acks
      ensures Valid() && model == DoObserve(setup, old(model), w)
    {
      var n := tasks[w].n;
      acks := acks + [ObservedAck(setup, n)];
      tasks := tasks[w := Handing(n)];
      Perform(Observe(w));
    }

    method PassOn(w: nat)
      requires Valid() && w < |tasks| && tasks[w].Handing?
      modifies this`model, this`trace, this`tasks, aggregator
      ensures Valid() && model == DoHandOver(setup, old(model), w)
    {
      var n := tasks[w].n;
      SpawnedToasts(model.renders, A.Add(setup.lib, setup.aggregation, model.table, n).spawned);
      aggregator.AddEvent(n);
      tasks := tasks[w := Idle];
      Perform(HandOver(w));
    }

    /** One turn of the worker loop, when an event is waiting. */
    method HandleNext(w: nat, now: int)
      requires Valid() && w < |tasks| && tasks[w].Idle? && queue != []
      modifies this, dedup, aggregator
      ensures Valid() && model == Processed(setup, DoDequeue(old(model), w), w, now)
    {
      tasks := tasks[w := Holding(queue[0])];
      queue := queue[1..];
      Perform(Dequeue(w));
      Process(w, now);
    }

    /**
     The worker loop: the worker goes on with what it was doing and takes every event that
     is waiting; then it ends if the intake is closed, and waits otherwise.
     */
    method RunWorker(w: nat, clock: nat -> int)
      requires Valid() && w < |tasks| && !tasks[w].Exited?
      modifies this, dedup, aggregator
      ensures Valid() && queue == []
      ensures model.workers == old(model.workers)[w := if Closed(model.host) then Exited else Idle]
      ensures model.host == old(model.host) && model.received == old(model.received) && model.hands == old(model.hands)
    {
      Process(w, clock(0));
      var turn := 1;
      while queue != []
        invariant Valid() && model.workers == old(model.workers)[w := Idle]
        invariant model.host == old(model.host) && model.received == old(model.received)
        invariant model.hands == old(model.hands)
        decreases |queue|
      {
        HandleNext(w, clock(turn));
        turn := turn + 1;
      }
      if !intakeOpen {
        tasks := tasks[w := Exited];
        Perform(Exit(w));
      }
    }

    // -------------------------------------------------------------------------
    // Timers and renders

    /** A bucket's window has passed: under the lock its timer removes the bucket. */
    method OnTimer(id: nat, inTime: bool) returns (events: seq<Notification>)
      requires Valid() && id in aggregator.timers
      modifies this`model, this`trace, aggregator
      ensures Valid() && model == DoTimer(old(model), id, inTime)
      ensures events == A.TimerTakes(old(model).table, id, inTime).events
    {
      events := aggregator.TimerTake(id, inTime);
      Perform(TimerFires(id, inTime));
    }

    /** After the lock is released the timer spawns the render of what it removed. */
    method OnTaken(h: nat, events: seq<Notification>)
      requires Valid() && h < |model.hands| && model.hands[h].open && model.hands[h].events == events != []
      modifies this`model, this`trace, aggregator
      ensures Valid() && model == DoSpawnTaken(setup, old(model), h)
    {
      SpawnedToasts(model.renders, Some(FlushToast(setup.lib, events)));
      aggregator.SpawnRender(events);
      Perform(SpawnTaken(h));
    }

    /** A render task: show the toast, then acknowledge every source, in order; a failed show acknowledges none. */
    method Show(r: nat, shownAt: Option<int>)
      requires Valid() && r < |model.renders| && model.renders[r].status.Pending?
      modifies this`model, this`trace, this`acks
      ensures Valid()
      ensures model == if shownAt.None? then DoShow(old(model), r, None)
                       else Acknowledged(setup, old(model), r, shownAt.value, |old(model).renders[r].toast.sources|)
    {
      var toast := aggregator.renders[r];
      ghost var before := model;
      SameToasts(model.renders, r, if shownAt.Some? then Acking(shownAt.value, 0) else Failed);
      Perform(Pipeline.Show(r, shownAt));
      if shownAt.Some? {
        AckSources(toast, r, shownAt.value, before);
      }
    }

    method AckSources(toast: ToastRequest, r: nat, submittedAt: int, ghost before: State)
      requires Valid() && r < |before.renders| && before.renders[r].toast == toast
      requires model == Acknowledged(setup, before, r, submittedAt, 0)
      modifies this`model, this`trace, this`acks
      ensures Valid() && model == Acknowledged(setup, before, r, submittedAt, |toast.sources|)
    {
      for i := 0 to |toast.sources|
        invariant Valid() && model == Acknowledged(setup, before, r, submittedAt, i)
      {
        AckOneMore(setup, before, r, submittedAt, i);
        acks := acks + [SubmittedAck(setup, toast.sources[i], submittedAt)];
        Perform(AckSource(r));
      }
    }

    // -------------------------------------------------------------------------
    // Shutdown

    /**
     The host's order, whatever the workers and the timers are doing: stop the subscriber,
     close the intake and let every worker empty the queue, then flush every bucket, and
     give up waiting for the renders. Given a worker, every message received ends dropped
     for a known reason, in exactly one toast, or in the hands of a timer; there is none of
     the last kind if no timer has a removed bucket in its hands when the shutdown begins.
     */
    method Shutdown(clock: nat -> int, inTime: Key -> bool)
      requires Valid() && model.host.Running?
      modifies this, dedup, aggregator
      ensures Valid() && model.host.Done? && model.received == old(model.received)
      ensures setup.workers >= 1 ==> queue == [] && aggregator.buckets == map[]
      ensures forall x: nat :: 1 <= x <= stamp ==> InExactlyOnePlace(model, x)
      ensures setup.workers >= 1 ==> (AllHandled(model) <==> HandsEmpty(model))
      ensures HandsEmpty(old(model)) ==> HandsEmpty(model)
    {
      StopIntake();
      JoinWorkers(clock);
      FlushAggregator(inTime);
      Perform(Finish(true));
      Conservation(setup, trace, model);
      if setup.workers >= 1 {
        DrainIsComplete(setup, trace, model);
      }
    }

    method StopIntake()
      requires Valid() && model.host.Running?
      modifies this`model, this`trace, this`intakeOpen
      ensures Valid() && model == old(model).(host := IntakeClosed)
    {
      Perform(Cancel);
      Perform(SubscriberStops);
      intakeOpen := false;
      Perform(CloseIntake);
    }

    method JoinWorkers(clock: nat -> int)
      requires Valid() && model.host.IntakeClosed?
      modifies this, dedup, aggregator
      ensures Valid() && model.host.IntakeClosed? && AllExited(model) && model.received == old(model.received)
      ensures model.hands == old(model.hands)
    {
      var n := |tasks|;
      for w := 0 to n
        invariant Valid() && model.host.IntakeClosed? && |tasks| == n
        invariant model.received == old(model.received) && model.hands == old(model.hands)
        invariant forall v :: 0 <= v < w ==> tasks[v].Exited?
      {
        if !tasks[w].Exited? {
          RunWorker(w, clock);
        }
      }
    }

    /** The aggregator flushes its own snapshot of keys; the ghost loop follows it step by step. */
    method FlushAggregator(inTime: Key -> bool)
      requires Valid() && model.host.IntakeClosed? && AllExited(model)
      modifies this`model, this`trace, aggregator
      ensures Valid() && model.host.Waiting? && model.received == old(model.received)
      ensures HandsEmpty(old(model)) ==> HandsEmpty(model)
    {
      var order := aggregator.Shutdown(inTime);
      HostIsFree(setup, trace, model);
      FollowFlushes(order, inTime);
      assert order[..|order|] == order;
    }

    /** From taking the snapshot to the end of the flush. */
    ghost method FollowFlushes(order: seq<Key>, inTime: Key -> bool)
      requires Traced() && Enabled(model, BeginFlush(order)) && HostFree(model)
      modifies this`model, this`trace
      ensures Traced() && model.host.Waiting?
      ensures FlushedSoFar(setup, old(model), model.(host := Flushing([])), order, inTime, |order|)
    {
      var before := model;
      Perform(BeginFlush(order));
      assert order[..0] == [] && order[0..] == order;
      for i := 0 to |order|
        invariant Traced() && FlushedSoFar(setup, before, model, order, inTime, i)
      {
        FollowFlush(before, order, inTime, i);
      }
      assert order[|order|..] == [];
      Perform(EndFlush);
    }

    /** The next bucket of the snapshot is removed and, if it held anything, its render spawned. */
    ghost method FollowFlush(before: State, order: seq<Key>, inTime: Key -> bool, i: nat)
      requires Traced() && i < |order| && FlushedSoFar(setup, before, model, order, inTime, i)
      modifies this`model, this`trace
      ensures Traced() && FlushedSoFar(setup, before, model, order, inTime, i + 1)
    {
      var s, h := model, |model.hands|;
      FlushOneMore(setup, before, s, order, inTime, i);
      Perform(FlushNext(inTime(order[i])));
      if A.Take(s.table, order[i], inTime(order[i])).events != [] {
        Perform(SpawnTaken(h));
      }
    }
  }

  lemma HostIsFree(setup: Setup, steps: seq<Step>, s: State)
    requires Leads(setup, Initial(setup), steps, s) && !s.host.Flushing?
    ensures HostFree(s)
  {
    InitialIsSound(setup);
    RunIsSound(setup, Initial(setup), steps, s);
  }

  /** `s` is `before` with the first `i` buckets of `order` flushed. */
  ghost predicate FlushedSoFar(setup: Setup, before: State, s: State, order: seq<Key>, inTime: Key -> bool, i: nat)
    requires i <= |order|
  {
    var flushed := A.FlushAll(setup.lib, before.table, order[..i], inTime);
    && s.host == Flushing(order[i..]) && s.table == flushed.table
    && ToastsOf(s.renders) == ToastsOf(before.renders) + flushed.toasts
    && HostFree(s) && (HandsEmpty(before) ==> HandsEmpty(s))
    && s.received == before.received && s.queue == before.queue && s.droppedQueueFull == before.droppedQueueFull
    && s.log == before.log && s.cache == before.cache && s.workers == before.workers
  }

  /** A whole flush by the host, in its two steps. */
  function FlushedNext(setup: Setup, s: State, aborted: bool): State
    requires s.host.Flushing? && s.host.left != []
  {
    var t := DoFlushNext(s, aborted);
    if A.Take(s.table, s.host.left[0], aborted).events == [] then t else DoSpawnTaken(setup, t, |s.hands|)
  }

  lemma FlushedNextEffect(setup: Setup, s: State, aborted: bool)
    requires s.host.Flushing? && s.host.left != []
    ensures var t, e := FlushedNext(setup, s, aborted), A.Flush(setup.lib, s.table, s.host.left[0], aborted);
      && t.host == Flushing(s.host.left[1..]) && t.table == e.table && t.renders == Spawn(s.renders, e.spawned)
      && (HostFree(s) ==> HostFree(t)) && (HandsEmpty(s) ==> HandsEmpty(t))
      && t.received == s.received && t.queue == s.queue && t.droppedQueueFull == s.droppedQueueFull
      && t.log == s.log && t.cache == s.cache && t.workers == s.workers
  {
  }

  lemma FlushAllNext(lib: Libraries, t: A.Table, order: seq<Key>, inTime: Key -> bool, i: nat)
    requires i < |order|
    ensures var before, after := A.FlushAll(lib, t, order[..i], inTime), A.FlushAll(lib, t, order[..i + 1], inTime);
      var e := A.Flush(lib, before.table, order[i], inTime(order[i]));
      && after.table == e.table
      && after.toasts == if e.spawned.Some? then before.toasts + [e.spawned.value] else before.toasts
  {
    assert order[..i + 1][..i] == order[..i];
  }

  lemma FlushOneMore(setup: Setup, before: State, s: State, order: seq<Key>, inTime: Key -> bool, i: nat)
    requires i < |order| && FlushedSoFar(setup, before, s, order, inTime, i)
    ensures FlushedSoFar(setup, before, FlushedNext(setup, s, inTime(order[i])), order, inTime, i + 1)
  {
    FlushAllNext(setup.lib, before.table, order, inTime, i);
    FlushedNextEffect(setup, s, inTime(order[i]));
    SpawnedToasts(s.renders, A.Flush(setup.lib, s.table, order[i], inTime(order[i])).spawned);
  }
}
