/**
 Shutdown: the host stops the subscriber, drains the workers, then flushes the
 buckets, while timers keep firing and renders keep running. With at least one
 worker nothing stays behind, and draining always comes to an end.
 */
module PipelineShutdown {
  import opened Model
  import opened Pipeline
  import opened PipelineLedger
  import opened PipelineAcks
  import opened Parser
  import opened Sorting
  import Dedup
  import A = Aggregation

  ghost predicate AllExited(s: State) {
    forall w :: 0 <= w < |s.workers| ==> s.workers[w].Exited?
  }

  /** The host has flushed its last bucket. */
  predicate Flushed(h: Host) {
    h.Waiting? || h.Done?
  }

  /** What each stage of the shutdown has already achieved. */
  ghost predicate Staged(s: State) {
    && (forall w :: 0 <= w < |s.workers| && s.workers[w].Exited? ==> Closed(s.host) && s.queue == [])
    && (s.host.Flushing? || Flushed(s.host) ==> AllExited(s))
    && (s.host.Flushing? ==> forall k :: k in s.table.buckets ==> k in s.host.left)
    && (Flushed(s.host) ==> s.table.buckets == map[])
    && (!s.host.Flushing? ==> HostFree(s))
  }

  lemma TakeLeaves(t: A.Table, key: Key, aborted: bool)
    ensures forall k :: k in A.Take(t, key, aborted).table.buckets ==> k in t.buckets && k != key
  {
  }

  lemma TakeStepKeepsStage(setup: Setup, s: State, step: Step)
    requires Staged(s) && Enabled(s, step) && (step.TimerFires? || step.FlushNext?)
    ensures Staged(Apply(setup, s, step))
  {
    match step
    case TimerFires(id, aborted) =>
      var t := s.table.(timers := s.table.timers - {id});
      TakeLeaves(t, s.table.timers[id].key, aborted);
    case FlushNext(aborted) =>
      TakeLeaves(s.table, s.host.left[0], aborted);
  }

  lemma StepKeepsStage(setup: Setup, s: State, step: Step)
    requires Staged(s) && Enabled(s, step)
    ensures Staged(Apply(setup, s, step))
  {
    if step.TimerFires? || step.FlushNext? {
      TakeStepKeepsStage(setup, s, step);
    } else if step.EndFlush? {
      assert forall k :: k !in s.table.buckets;
      assert s.table.buckets == map[];
    }
  }

  /** Everything the proofs below need of a reachable state. */
  ghost predicate Sound(setup: Setup, s: State) {
    Invariant(setup, s) && Acks(setup, s) && Staged(s)
  }

  lemma {:induction false} RunIsSound(setup: Setup, s: State, steps: seq<Step>, t: State)
    requires Sound(setup, s) && Leads(setup, s, steps, t)
    ensures Sound(setup, t)
    decreases |steps|
  {
    if steps != [] {
      StepIsSound(setup, s, steps[0]);
      RunIsSound(setup, Apply(setup, s, steps[0]), steps[1..], t);
    }
  }

  lemma StepIsSound(setup: Setup, s: State, step: Step)
    requires Sound(setup, s) && Enabled(s, step)
    ensures Sound(setup, Apply(setup, s, step))
  {
    StepKeepsLedger(setup, s, step);
    StepKeepsBounds(setup, s, step);
    StepKeepsAcks(setup, s, step);
    StepKeepsStage(setup, s, step);
  }

  lemma InitialIsSound(setup: Setup)
    ensures Sound(setup, Initial(setup))
  {
    InitialInvariant(setup);
  }

  // ---------------------------------------------------------------------------
  // Nothing stays behind

  /** No timer is between removing a bucket and spawning its render. */
  ghost predicate HandsEmpty(s: State) {
    forall h :: 0 <= h < |s.hands| ==> !s.hands[h].open
  }

  /** Every message was dropped for one of the known reasons or belongs to a render task. */
  ghost predicate AllHandled(s: State) {
    forall x: nat, p :: FoundAt(s, x, p) ==> p.Dropped? || p.InToast?
  }

  /**
   When the host is done and there is at least one worker, the queue and the buckets are
   empty, and every message received was dropped for one of the known reasons, handed to
   exactly one render task, or is in the hands of a timer that has removed its bucket and
   not yet spawned the render.
   */
  lemma DrainIsComplete(setup: Setup, steps: seq<Step>, s: State)
    requires Leads(setup, Initial(setup), steps, s) && s.host.Done? && setup.workers >= 1
    ensures s.queue == [] && s.table.buckets == map[] && AllExited(s)
    ensures forall x: nat :: 1 <= x <= |s.received| ==> InExactlyOnePlace(s, x)
    ensures forall x: nat, p :: FoundAt(s, x, p) ==>
      p.Dropped? || p.InToast? || (p.InHand? && !s.hands[p.h].ofHost)
    ensures AllHandled(s) <==> HandsEmpty(s)
  {
    InitialIsSound(setup);
    RunIsSound(setup, Initial(setup), steps, s);
    Conservation(setup, steps, s);
    NothingBeforeHands(setup, s);
    HandledExactly(setup, s);
  }

  /** Once every bucket is flushed, nothing is left in front of the timers' hands. */
  lemma NothingBeforeHands(setup: Setup, s: State)
    requires Sound(setup, s) && Flushed(s.host) && setup.workers >= 1
    ensures s.queue == [] && AllExited(s)
    ensures forall x: nat, p :: FoundAt(s, x, p) ==>
      p.Dropped? || p.InToast? || (p.InHand? && p.h < |s.hands| && s.hands[p.h].open && !s.hands[p.h].ofHost)
  {
    assert s.workers[0].Exited?;
    forall x: nat, p | FoundAt(s, x, p)
      ensures p.Dropped? || p.InToast? || (p.InHand? && p.h < |s.hands| && s.hands[p.h].open && !s.hands[p.h].ofHost)
    {
      FoundIffLedger(setup, s, x, p);
    }
  }

  lemma HandledExactly(setup: Setup, s: State)
    requires Sound(setup, s) && Flushed(s.host) && setup.workers >= 1
    ensures AllHandled(s) <==> HandsEmpty(s)
  {
    NothingBeforeHands(setup, s);
    if h :| 0 <= h < |s.hands| && s.hands[h].open {
      var x := s.hands[h].events[0].stamp;
      assert HasStamp(s.hands[h].events, x);
      assert FoundAt(s, x, InHand(h));
    }
  }

  // ---------------------------------------------------------------------------
  // A timer that outlives the shutdown

  /** After the last flush no timer can take anything more. */
  lemma LateStep(setup: Setup, s: State, step: Step)
    requires Staged(s) && Flushed(s.host) && Enabled(s, step) && s.queue == []
    ensures var t := Apply(setup, s, step);
      && Flushed(t.host) && t.queue == [] && t.received == s.received
      && (HandsEmpty(s) ==> HandsEmpty(t) && (s.host.Done? ==> t.host == s.host))
      && (HandsEmpty(s) && AllThrough(s.renders) ==> AllThrough(t.renders))
      && (s.host.Waiting? && t.host == Done(false) ==> AllThrough(t.renders))
  {
  }

  lemma {:induction false} LateRun(setup: Setup, s: State, steps: seq<Step>, t: State)
    requires Staged(s) && Flushed(s.host) && s.queue == [] && HandsEmpty(s) && Leads(setup, s, steps, t)
    requires s.host == Done(false) ==> AllThrough(s.renders)
    ensures Staged(t) && Flushed(t.host) && HandsEmpty(t) && (t.host == Done(false) ==> AllThrough(t.renders))
    decreases |steps|
  {
    if steps != [] {
      LateStep(setup, s, steps[0]);
      StepKeepsStage(setup, s, steps[0]);
      LateRun(setup, Apply(setup, s, steps[0]), steps[1..], t);
    }
  }

  /** Every run from `s` that ends has every message handled. */
  ghost predicate EveryEndHandlesAll(setup: Setup, s: State) {
    forall steps, t :: Leads(setup, s, steps, t) && t.host.Done? ==> AllHandled(t)
  }

  lemma HandsEmptySuffices(setup: Setup, s: State)
    requires Sound(setup, s) && s.host.Waiting? && setup.workers >= 1 && HandsEmpty(s)
    ensures EveryEndHandlesAll(setup, s)
  {
    NothingBeforeHands(setup, s);
    forall steps, t | Leads(setup, s, steps, t) && t.host.Done? ensures AllHandled(t) {
      LateRun(setup, s, steps, t);
      RunIsSound(setup, s, steps, t);
      HandledExactly(setup, t);
    }
  }

  /**
   Exactly when shutdown loses nothing: from a reachable state whose last bucket is
   flushed, every run to the end leaves each message dropped for a known reason or in a
   spawned render task, if and only if no timer has a removed bucket in its hands.
   */
  lemma ShutdownHandlesAllExactly(setup: Setup, before: seq<Step>, s: State)
    requires Leads(setup, Initial(setup), before, s) && s.host.Waiting? && setup.workers >= 1
    ensures EveryEndHandlesAll(setup, s) <==> HandsEmpty(s)
  {
    InitialIsSound(setup);
    RunIsSound(setup, Initial(setup), before, s);
    if HandsEmpty(s) {
      HandsEmptySuffices(setup, s);
    } else {
      var steps, t := TimeoutLosesHands(setup, s);
    }
  }

  lemma TimeoutLosesHands(setup: Setup, s: State) returns (steps: seq<Step>, t: State)
    requires Sound(setup, s) && s.host.Waiting? && setup.workers >= 1 && !HandsEmpty(s)
    ensures Leads(setup, s, steps, t) && t.host.Done? && !AllHandled(t)
  {
    steps, t := [Finish(true)] + [], s.(host := Done(true));
    LeadsBack(setup, s, Finish(true), t, [], t);
    StepIsSound(setup, s, Finish(true));
    assert t == Apply(setup, s, Finish(true));
    HandledExactly(setup, t);
  }

  /** A run can be continued at its end. */
  lemma {:induction false} LeadsOn(setup: Setup, s: State, steps: seq<Step>, t: State, step: Step)
    requires Leads(setup, s, steps, t) && Enabled(t, step)
    ensures Leads(setup, s, steps + [step], Apply(setup, t, step))
    decreases |steps|
  {
    if steps == [] {
      LeadsBack(setup, s, step, Apply(setup, t, step), [], Apply(setup, t, step));
      assert steps + [step] == [step] + [];
    } else {
      LeadsOn(setup, Apply(setup, s, steps[0]), steps[1..], t, step);
      assert (steps + [step])[1..] == steps[1..] + [step];
    }
  }

  lemma Next(setup: Setup, steps: seq<Step>, s: State, step: Step) returns (more: seq<Step>, t: State)
    requires Leads(setup, Initial(setup), steps, s) && Enabled(s, step)
    ensures Leads(setup, Initial(setup), more, t) && t == Apply(setup, s, step)
  {
    more, t := steps + [step], Apply(setup, s, step);
    LeadsOn(setup, Initial(setup), steps, s, step);
  }

  /** One message that opens a bucket, and nothing else. */
  ghost predicate OneBucket(s: State, n: Notification) {
    && s.queue == [] && s.hands == [] && s.renders == []
    && KeyOf(n) in s.table.buckets && s.table.buckets.Keys == {KeyOf(n)} && s.table.buckets[KeyOf(n)].events == [n]
    && 0 in s.table.timers && s.table.timers[0].key == KeyOf(n)
  }

  /** A worker takes up the only message of a fresh agent, as far as the cache. */
  lemma TakeUpOne(setup: Setup, payload: seq<Byte>, n: Notification) returns (steps: seq<Step>, s: State)
    requires setup.workers >= 1 && setup.queueCapacity >= 1
    requires payload != [] && ParseEvent(setup.lib, ReceivedEvent(payload, 0, 1)) == Ok(n)
    ensures Leads(setup, Initial(setup), steps, s) && |s.workers| >= 1 && s.workers[0] == Checking(n, 0)
    ensures s.cache == Dedup.EMPTY && s.table == A.EMPTY && s.queue == [] && s.hands == [] && s.renders == []
    ensures s.host.Running? && forall w :: 0 < w < |s.workers| ==> s.workers[w].Idle?
  {
    steps, s := HoldOne(setup, payload);
    steps, s := Next(setup, steps, s, Parse(0, 0));
  }

  lemma HoldOne(setup: Setup, payload: seq<Byte>) returns (steps: seq<Step>, s: State)
    requires setup.workers >= 1 && setup.queueCapacity >= 1 && payload != []
    ensures Leads(setup, Initial(setup), steps, s)
    ensures var evt := ReceivedEvent(payload, 0, 1);
      var t := DoReceive(setup, Initial(setup), payload, 0); t.queue == [evt] && s == DoDequeue(t, 0)
  {
    steps, s := [], Initial(setup);
    steps, s := Next(setup, steps, s, Receive(payload, 0));
    assert s.queue == [ReceivedEvent(payload, 0, 1)];
    steps, s := Next(setup, steps, s, Dequeue(0));
  }

  lemma DeliverOne(setup: Setup, payload: seq<Byte>, n: Notification) returns (steps: seq<Step>, s: State)
    requires setup.workers >= 1 && setup.queueCapacity >= 1 && setup.aggregation.maxBuckets >= 1
    requires payload != [] && ParseEvent(setup.lib, ReceivedEvent(payload, 0, 1)) == Ok(n) && n.priority != Critical
    ensures Leads(setup, Initial(setup), steps, s) && OneBucket(s, n)
    ensures s.host.Running? && |s.workers| >= 1 && forall w :: 0 <= w < |s.workers| ==> s.workers[w].Idle?
  {
    steps, s := TakeUpOne(setup, payload, n);
    FirstIsAccepted(setup, s, n);
    steps, s := Next(setup, steps, s, Check(0));
    steps, s := Next(setup, steps, s, Observe(0));
    steps, s := Next(setup, steps, s, HandOver(0));
  }

  lemma FirstIsAccepted(setup: Setup, s: State, n: Notification)
    requires |s.workers| >= 1 && s.workers[0] == Checking(n, 0) && s.cache == Dedup.EMPTY
    ensures DoCheck(setup, s, 0).workers[0] == Observing(n)
  {
    assert Dedup.Purge(Dedup.EMPTY, 0) == Dedup.EMPTY;
  }

  /** The subscriber stops, the intake is closed and the first `m` workers have ended. */
  lemma {:induction false} StopOne(setup: Setup, steps: seq<Step>, s: State, n: Notification, m: nat)
    returns (more: seq<Step>, t: State)
    requires Leads(setup, Initial(setup), steps, s) && OneBucket(s, n) && s.host.Running? && m <= |s.workers|
    requires forall w :: 0 <= w < |s.workers| ==> s.workers[w].Idle?
    ensures Leads(setup, Initial(setup), more, t) && OneBucket(t, n) && t.host.IntakeClosed?
    ensures |t.workers| == |s.workers|
    ensures forall w :: 0 <= w < |t.workers| ==> if w < m then t.workers[w].Exited? else t.workers[w].Idle?
  {
    if m == 0 {
      more, t := Next(setup, steps, s, Cancel);
      more, t := Next(setup, more, t, SubscriberStops);
      more, t := Next(setup, more, t, CloseIntake);
    } else {
      more, t := StopOne(setup, steps, s, n, m - 1);
      more, t := Next(setup, more, t, Exit(m - 1));
    }
  }

  lemma TakeOne(setup: Setup, steps: seq<Step>, s: State, n: Notification) returns (more: seq<Step>, t: State)
    requires Leads(setup, Initial(setup), steps, s) && OneBucket(s, n)
    ensures Leads(setup, Initial(setup), more, t) && t.table.buckets == map[] && t.hands == [Hand([n], false, true)]
    ensures t.host == s.host && t.workers == s.workers && t.renders == []
  {
    more, t := Next(setup, steps, s, TimerFires(0, true));
    assert t.table.buckets.Keys == {};
  }

  /**
   The loss: a timer removes its bucket, the shutdown finds no bucket and no render task
   and finishes without waiting, and the message is still in the timer's hands.
   */
  lemma TimerOutlivesShutdown(setup: Setup, payload: seq<Byte>, n: Notification) returns (steps: seq<Step>, s: State)
    requires setup.workers >= 1 && setup.queueCapacity >= 1 && setup.aggregation.maxBuckets >= 1
    requires payload != [] && ParseEvent(setup.lib, ReceivedEvent(payload, 0, 1)) == Ok(n) && n.priority != Critical
    ensures Leads(setup, Initial(setup), steps, s) && s.host == Done(false)
    ensures FoundAt(s, n.stamp, InHand(0)) && s.renders == []
  {
    steps, s := DeliverOne(setup, payload, n);
    steps, s := StopOne(setup, steps, s, n, |s.workers|);
    steps, s := TakeOne(setup, steps, s, n);
    steps, s := FinishEmpty(setup, steps, s);
    assert s.hands[0].events == [n] && [n][0].stamp == n.stamp;
  }

  lemma FinishEmpty(setup: Setup, steps: seq<Step>, s: State) returns (more: seq<Step>, t: State)
    requires Leads(setup, Initial(setup), steps, s) && AllExited(s) && HostFree(s)
    requires s.host.IntakeClosed? && s.table.buckets == map[] && s.renders == []
    ensures Leads(setup, Initial(setup), more, t) && t == s.(host := Done(false))
  {
    more, t := Next(setup, steps, s, BeginFlush([]));
    more, t := Next(setup, more, t, EndFlush);
    more, t := Next(setup, more, t, Finish(false));
  }

  /**
   Under that condition, if the wait does not time out, every render is through when the
   host is done, with one attempt for each source of each shown toast.
   */
  lemma WaitSettlesRenders(setup: Setup, before: seq<Step>, s: State, steps: seq<Step>, t: State)
    requires Leads(setup, Initial(setup), before, s) && s.host.Waiting? && setup.workers >= 1 && HandsEmpty(s)
    requires Leads(setup, s, steps, t) && t.host == Done(false)
    ensures forall r :: 0 <= r < |t.renders| ==> IsThrough(t.renders[r]) && Settled(t.log, t.renders[r])
  {
    InitialIsSound(setup);
    RunIsSound(setup, Initial(setup), before, s);
    NothingBeforeHands(setup, s);
    LateRun(setup, s, steps, t);
    RunIsSound(setup, s, steps, t);
    forall r | 0 <= r < |t.renders| ensures IsThrough(t.renders[r]) && Settled(t.log, t.renders[r]) {
      ThroughIsSettled(t.log, t.renders[r]);
    }
  }

  lemma FlushNothing(setup: Setup, s: State)
    requires s.workers == [] && s.table.buckets == map[] && s.hands == [] && s.renders == [] && s.host.IntakeClosed?
    ensures Leads(setup, s, [BeginFlush([]), EndFlush, Finish(false)], s.(host := Done(false)))
  {
    var t := s.(host := Done(false));
    var waiting := s.(host := Waiting);
    LeadsBack(setup, waiting, Finish(false), t, [], t);
    LeadsBack(setup, s.(host := Flushing([])), EndFlush, waiting, [Finish(false)], t);
    LeadsBack(setup, s, BeginFlush([]), s.(host := Flushing([])), [EndFlush, Finish(false)], t);
  }

  lemma StopNothing(setup: Setup, s: State)
    requires s.workers == [] && s.table.buckets == map[] && s.hands == [] && s.renders == [] && s.host.Running?
    ensures Leads(setup, s, [Cancel, SubscriberStops, CloseIntake, BeginFlush([]), EndFlush, Finish(false)],
                  s.(host := Done(false)))
  {
    var t := s.(host := Done(false));
    var flush := [BeginFlush([]), EndFlush, Finish(false)];
    var closed, gone, cancelled := s.(host := IntakeClosed), s.(host := SubscriberGone), s.(host := Cancelled);
    FlushNothing(setup, closed);
    LeadsBack(setup, gone, CloseIntake, closed, flush, t);
    LeadsBack(setup, cancelled, SubscriberStops, gone, [CloseIntake] + flush, t);
    LeadsBack(setup, s, Cancel, cancelled, [SubscriberStops] + ([CloseIntake] + flush), t);
    assert [Cancel] + ([SubscriberStops] + ([CloseIntake] + flush))
        == [Cancel, SubscriberStops, CloseIntake, BeginFlush([]), EndFlush, Finish(false)];
  }

  /** Without workers a message can be left in the queue. */
  lemma NoWorkersNoDrain(setup: Setup)
    requires setup.workers == 0 && setup.queueCapacity >= 1
    ensures exists steps, s :: Leads(setup, Initial(setup), steps, s) && s.host.Done? && s.queue != []
  {
    var s := DoReceive(setup, Initial(setup), [0], 0);
    var stop := [Cancel, SubscriberStops, CloseIntake, BeginFlush([]), EndFlush, Finish(false)];
    StopNothing(setup, s);
    LeadsBack(setup, Initial(setup), Receive([0], 0), s, stop, s.(host := Done(false)));
    assert s.(host := Done(false)).queue != [];
  }

  lemma LeadsBack(setup: Setup, s: State, step: Step, t: State, rest: seq<Step>, u: State)
    requires Enabled(s, step) && Apply(setup, s, step) == t && Leads(setup, t, rest, u)
    ensures Leads(setup, s, [step] + rest, u)
  {
    assert ([step] + rest)[1..] == rest;
  }

  /** Every completed shutdown leaves the queue empty exactly when there is a worker. */
  lemma DrainsExactlyWithWorkers(setup: Setup)
    requires setup.queueCapacity >= 1
    ensures (forall steps, s :: Leads(setup, Initial(setup), steps, s) && s.host.Done? ==> s.queue == [])
      <==> setup.workers >= 1
  {
    if setup.workers >= 1 {
      forall steps, s | Leads(setup, Initial(setup), steps, s) && s.host.Done? ensures s.queue == [] {
        DrainIsComplete(setup, steps, s);
      }
    } else {
      NoWorkersNoDrain(setup);
    }
  }

  // ---------------------------------------------------------------------------
  // Timers and buckets

  /** The host has not begun to flush. */
  predicate BeforeFlush(h: Host) {
    !h.Flushing? && !Flushed(h)
  }

  lemma StepKeepsPaired(setup: Setup, s: State, step: Step)
    requires Bounds(setup, s) && Enabled(s, step) && (BeforeFlush(s.host) ==> A.Paired(s.table))
    ensures BeforeFlush(Apply(setup, s, step).host) ==> A.Paired(Apply(setup, s, step).table)
  {
    if step.HandOver? {
      if BeforeFlush(s.host) {
        A.AddKeepsPaired(setup.lib, setup.aggregation, s.table, s.workers[step.w].n);
      }
    } else if step.TimerFires? {
      if BeforeFlush(s.host) {
        A.TimerKeepsPaired(s.table, step.id, step.aborted);
      }
    }
  }

  lemma {:induction false} RunKeepsPaired(setup: Setup, s: State, steps: seq<Step>, t: State)
    requires Bounds(setup, s) && (BeforeFlush(s.host) ==> A.Paired(s.table)) && Leads(setup, s, steps, t)
    ensures BeforeFlush(t.host) ==> A.Paired(t.table)
    decreases |steps|
  {
    if steps != [] {
      StepKeepsBounds(setup, s, steps[0]);
      StepKeepsPaired(setup, s, steps[0]);
      RunKeepsPaired(setup, Apply(setup, s, steps[0]), steps[1..], t);
    }
  }

  /**
   Until the host begins to flush, every armed timer belongs to an open bucket of its key,
   in every run: no bucket is ever closed by the timer of an older one.
   */
  lemma TimersArePaired(setup: Setup, steps: seq<Step>, s: State)
    requires Leads(setup, Initial(setup), steps, s) && BeforeFlush(s.host)
    ensures A.Paired(s.table)
  {
    RunKeepsPaired(setup, Initial(setup), steps, s);
  }

  /** Whenever the host flushes a bucket, the abort reaches its timer in time. */
  ghost predicate AbortsInTime(steps: seq<Step>) {
    forall i :: 0 <= i < |steps| && steps[i].FlushNext? ==> steps[i].aborted
  }

  lemma StepPairsInTime(setup: Setup, s: State, step: Step)
    requires Bounds(setup, s) && A.Paired(s.table) && Enabled(s, step) && (step.FlushNext? ==> step.aborted)
    ensures A.Paired(Apply(setup, s, step).table)
  {
    if step.HandOver? {
      A.AddKeepsPaired(setup.lib, setup.aggregation, s.table, s.workers[step.w].n);
    } else if step.TimerFires? {
      A.TimerKeepsPaired(s.table, step.id, step.aborted);
    } else if step.FlushNext? && s.host.left[0] in s.table.buckets {
      A.TakeKeepsPairedExactly(setup.aggregation, s.table, s.host.left[0], true);
    }
  }

  lemma {:induction false} RunPairsInTime(setup: Setup, s: State, steps: seq<Step>, t: State)
    requires Bounds(setup, s) && A.Paired(s.table) && Leads(setup, s, steps, t) && AbortsInTime(steps)
    ensures A.Paired(t.table)
    decreases |steps|
  {
    if steps != [] {
      StepKeepsBounds(setup, s, steps[0]);
      StepPairsInTime(setup, s, steps[0]);
      RunPairsInTime(setup, Apply(setup, s, steps[0]), steps[1..], t);
    }
  }

  /** If no abort comes late, every armed timer belongs to an open bucket throughout the shutdown too. */
  lemma TimersEndWithTheirBuckets(setup: Setup, steps: seq<Step>, s: State)
    requires Leads(setup, Initial(setup), steps, s) && AbortsInTime(steps)
    ensures A.Paired(s.table)
  {
    RunPairsInTime(setup, Initial(setup), steps, s);
  }

  // ---------------------------------------------------------------------------
  // The host flushes one bucket after the other

  ghost predicate OpenOfHost(s: State, h: nat) {
    h < |s.hands| && s.hands[h].open && s.hands[h].ofHost
  }

  /** The host has at most one removed bucket in its hands, and only while it is flushing. */
  ghost predicate OneAtATime(s: State) {
    && (forall g: nat, h: nat :: OpenOfHost(s, g) && OpenOfHost(s, h) ==> g == h)
    && (!s.host.Flushing? ==> HostFree(s))
  }

  lemma StepTakesOneAtATime(setup: Setup, s: State, step: Step)
    requires OneAtATime(s) && Enabled(s, step)
    ensures OneAtATime(Apply(setup, s, step))
  {
    var t := Apply(setup, s, step);
    forall g: nat, h: nat | OpenOfHost(t, g) && OpenOfHost(t, h) ensures g == h {
      assert g < |s.hands| ==> OpenOfHost(s, g);
      assert h < |s.hands| ==> OpenOfHost(s, h);
    }
    if !t.host.Flushing? {
      forall h | 0 <= h < |t.hands| && t.hands[h].open ensures !t.hands[h].ofHost {
        assert HostFree(s);
      }
    }
  }

  lemma {:induction false} RunTakesOneAtATime(setup: Setup, s: State, steps: seq<Step>, t: State)
    requires OneAtATime(s) && Leads(setup, s, steps, t)
    ensures OneAtATime(t)
    decreases |steps|
  {
    if steps != [] {
      StepTakesOneAtATime(setup, s, steps[0]);
      RunTakesOneAtATime(setup, Apply(setup, s, steps[0]), steps[1..], t);
    }
  }

  /** In every run the host hands each bucket it removes to a render task before it removes the next or ends. */
  lemma FlushIsSequential(setup: Setup, steps: seq<Step>, s: State)
    requires Leads(setup, Initial(setup), steps, s)
    ensures OneAtATime(s)
  {
    RunTakesOneAtATime(setup, Initial(setup), steps, s);
  }

  // ---------------------------------------------------------------------------
  // The host's order

  /** How many of its stages the host has behind it. */
  function StageOf(h: Host): nat {
    match h
    case Running => 0
    case Cancelled => 1
    case SubscriberGone => 2
    case IntakeClosed => 3
    case Flushing(_) => 4
    case Waiting => 5
    case Done(_) => 6
  }

  /** The stage that a step of the host begins; zero for all other steps. */
  function Begins(step: Step): nat {
    match step
    case Cancel => 1
    case SubscriberStops => 2
    case CloseIntake => 3
    case BeginFlush(_) => 4
    case EndFlush => 5
    case Finish(_) => 6
    case _ => 0
  }

  /** The stages that `steps` begins, one after the other. */
  function Stages(steps: seq<Step>): seq<nat> {
    if steps == [] then []
    else (if Begins(steps[0]) == 0 then [] else [Begins(steps[0])]) + Stages(steps[1..])
  }

  lemma StepBeginsNextStage(setup: Setup, s: State, step: Step)
    requires Enabled(s, step)
    ensures StageOf(Apply(setup, s, step).host) == if Begins(step) == 0 then StageOf(s.host) else Begins(step)
    ensures Begins(step) != 0 ==> Begins(step) == StageOf(s.host) + 1
  {
  }

  lemma {:induction false} StagesFollow(setup: Setup, s: State, steps: seq<Step>, t: State)
    requires Leads(setup, s, steps, t)
    ensures |Stages(steps)| == StageOf(t.host) - StageOf(s.host)
    ensures forall i :: 0 <= i < |Stages(steps)| ==> Stages(steps)[i] == StageOf(s.host) + i + 1
    decreases |steps|
  {
    if steps != [] {
      StepBeginsNextStage(setup, s, steps[0]);
      StagesFollow(setup, Apply(setup, s, steps[0]), steps[1..], t);
    }
  }

  /**
   In every run the host tells the subscriber to stop, waits for it, closes the intake and
   joins the workers, flushes, waits and ends, in that order, leaving out and repeating nothing.
   */
  lemma HostGoesInOrder(setup: Setup, steps: seq<Step>, s: State)
    requires Leads(setup, Initial(setup), steps, s)
    ensures |Stages(steps)| == StageOf(s.host)
    ensures forall i :: 0 <= i < |Stages(steps)| ==> Stages(steps)[i] == i + 1
  {
    StagesFollow(setup, Initial(setup), steps, s);
  }
}
