/**
 Order: the queue is first in, first out, so a single worker decides events in
 order of arrival, and two workers may not; every toast lists its sources in order
 of arrival and shows the newest one.
 */
module PipelineOrder {
  import opened Model
  import opened Parser
  import opened Toasts
  import opened Sorting
  import opened Buckets
  import opened CrossPort
  import opened Pipeline
  import opened PipelineLedger
  import opened PipelineAcks
  import opened PipelineDedup
  import opened PipelineShutdown
  import A = Aggregation

  // ---------------------------------------------------------------------------
  // The queue

  /** Whatever has left the queue arrived before whatever is still in it. */
  ghost predicate Fifo(place: map<nat, Place>) {
    forall x: nat, y: nat :: At(place, x, InQueue) && LeftQueue(place, y) ==> y < x
  }

  ghost predicate LeftQueue(place: map<nat, Place>, y: nat) {
    y in place && place[y] != InQueue && place[y] != Dropped(QueueFull)
  }

  lemma FifoFrame(p: map<nat, Place>, q: map<nat, Place>)
    requires Fifo(p) && SameQueued(p, q)
    requires forall y: nat :: LeftQueue(q, y) ==> LeftQueue(p, y)
    ensures Fifo(q)
  {
  }

  lemma ReceiveFifo(setup: Setup, s: State, payload: seq<Byte>, at: int)
    requires Ledger(setup, s) && Fifo(s.place)
    ensures Fifo(DoReceive(setup, s, payload, at).place)
  {
    var t := DoReceive(setup, s, payload, at);
    forall x: nat, y: nat | At(t.place, x, InQueue) && LeftQueue(t.place, y) ensures y < x {
      assert LeftQueue(s.place, y);
      assert x == |s.received| + 1 || At(s.place, x, InQueue);
    }
  }

  lemma DequeueFifo(setup: Setup, s: State, w: nat)
    requires Ledger(setup, s) && Fifo(s.place) && w < |s.workers| && s.queue != []
    ensures Fifo(DoDequeue(s, w).place)
  {
    var t := DoDequeue(s, w);
    var evt := s.queue[0];
    forall x: nat, y: nat | At(t.place, x, InQueue) && LeftQueue(t.place, y) ensures y < x {
      assert At(s.place, x, InQueue);
      if y == evt.stamp {
        var i :| 0 <= i < |s.queue| && s.queue[i].stamp == x;
      } else {
        assert LeftQueue(s.place, y);
      }
    }
  }

  /** A worker drops the event it is at. */
  lemma DropKeepsFifo(setup: Setup, s: State, w: nat, x: nat, reason: Reason)
    requires Ledger(setup, s) && Fifo(s.place) && w < |s.workers| && Holds(s.workers[w], x)
    ensures Fifo(s.place[x := Dropped(reason)])
  {
    OthersStayPut(setup, s, w, x);
    FifoFrame(s.place, s.place[x := Dropped(reason)]);
  }

  lemma HandOverKeepsFifo(setup: Setup, s: State, w: nat)
    requires Ledger(setup, s) && Fifo(s.place) && Enabled(s, HandOver(w))
    ensures Fifo(DoHandOver(setup, s, w).place)
  {
    var n := s.workers[w].n;
    var q := PlaceAfterAdd(setup, s, n);
    OthersStayPut(setup, s, w, n.stamp);
    forall y: nat
      ensures At(s.place, y, InQueue) <==> At(q, y, InQueue)
      ensures LeftQueue(q, y) ==> LeftQueue(s.place, y)
    {
      if y in s.place {
        PlacedAfterAdd(setup, s, n, y);
      }
    }
    FifoFrame(s.place, q);
  }

  lemma StepKeepsFifo(setup: Setup, s: State, step: Step)
    requires Ledger(setup, s) && Fifo(s.place) && Enabled(s, step)
    ensures Fifo(Apply(setup, s, step).place)
  {
    if step.Receive? {
      ReceiveFifo(setup, s, step.payload, step.at);
    } else if step.Dequeue? {
      DequeueFifo(setup, s, step.w);
    } else if step.Parse? {
      DropKeepsFifo(setup, s, step.w, s.workers[step.w].evt.stamp, Invalid);
    } else if step.Check? {
      DropKeepsFifo(setup, s, step.w, s.workers[step.w].n.stamp, Duplicate);
    } else if step.HandOver? {
      HandOverKeepsFifo(setup, s, step.w);
    } else if step.TimerFires? || step.SpawnTaken? || step.FlushNext? {
      FifoFrame(s.place, Apply(setup, s, step).place);
    }
  }

  // ---------------------------------------------------------------------------
  // One worker

  ghost predicate InArrivalOrder(decisions: seq<Decision>) {
    forall i, j :: 0 <= i < j < |decisions| ==> decisions[i].stamp < decisions[j].stamp
  }

  /** Everything decided so far arrived before the event the worker has yet to have decided. */
  ghost predicate WorkerIsNext(s: State) {
    |s.workers| == 1 ==>
      forall i :: 0 <= i < |s.decisions| ==>
        match s.workers[0]
        case Holding(evt) => s.decisions[i].stamp < evt.stamp
        case Checking(n, _) => s.decisions[i].stamp < n.stamp
        case _ => true
  }

  ghost predicate OrderKept(s: State) {
    |s.workers| == 1 ==> WorkerIsNext(s) && InArrivalOrder(s.decisions)
  }

  lemma DecidedHaveLeft(setup: Setup, s: State, i: nat)
    requires Decided(setup, s) && i < |s.decisions|
    ensures LeftQueue(s.place, s.decisions[i].stamp)
  {
    var d := s.decisions[i];
    assert DecidedAs(s.decisions, d.stamp, d.accepted);
    if !d.accepted {
      assert At(s.place, d.stamp, Dropped(Duplicate));
    } else {
      assert Admitted(s, d.stamp);
    }
  }

  lemma DequeueKeepsOrder(setup: Setup, s: State, w: nat)
    requires Ledger(setup, s) && Decided(setup, s) && Fifo(s.place) && OrderKept(s) && Enabled(s, Dequeue(w))
    ensures OrderKept(DoDequeue(s, w))
  {
    forall i | 0 <= i < |s.decisions| ensures s.decisions[i].stamp < s.queue[0].stamp {
      DecidedHaveLeft(setup, s, i);
      assert At(s.place, s.queue[0].stamp, InQueue);
    }
  }

  lemma ParseKeepsOrder(setup: Setup, s: State, w: nat, now: int)
    requires OrderKept(s) && Enabled(s, Parse(w, now))
    ensures OrderKept(DoParse(setup, s, w, now))
  {
    if ParseEvent(setup.lib, s.workers[w].evt).Ok? {
      ParseKeepsReception(setup.lib, s.workers[w].evt);
    }
  }

  lemma CheckKeepsOrder(setup: Setup, s: State, w: nat)
    requires OrderKept(s) && Enabled(s, Check(w))
    ensures OrderKept(DoCheck(setup, s, w))
  {
  }

  /** A step that decides nothing and gives no worker an event to have decided. */
  lemma OtherStepKeepsOrder(s: State, t: State)
    requires OrderKept(s) && t.decisions == s.decisions && |t.workers| == |s.workers|
    requires forall w :: 0 <= w < |t.workers| && t.workers[w] != s.workers[w] ==>
      !t.workers[w].Holding? && !t.workers[w].Checking?
    ensures OrderKept(t)
  {
  }

  /** Every step but a dequeue, a parse and a check is such a step. */
  lemma QuietStepKeepsOrder(setup: Setup, s: State, step: Step)
    requires OrderKept(s) && Enabled(s, step) && !step.Dequeue? && !step.Parse? && !step.Check?
    ensures OrderKept(Apply(setup, s, step))
  {
    OtherStepKeepsOrder(s, Apply(setup, s, step));
  }

  lemma StepKeepsOrder(setup: Setup, s: State, step: Step)
    requires Ledger(setup, s) && Decided(setup, s) && Fifo(s.place) && OrderKept(s) && Enabled(s, step)
    ensures OrderKept(Apply(setup, s, step))
  {
    if step.Dequeue? {
      DequeueKeepsOrder(setup, s, step.w);
    } else if step.Parse? {
      ParseKeepsOrder(setup, s, step.w, step.now);
    } else if step.Check? {
      CheckKeepsOrder(setup, s, step.w);
    } else {
      QuietStepKeepsOrder(setup, s, step);
    }
  }

  lemma {:induction false} RunKeepsOrder(setup: Setup, s: State, steps: seq<Step>, t: State)
    requires Invariant(setup, s) && Decided(setup, s) && Fifo(s.place) && OrderKept(s) && Leads(setup, s, steps, t)
    ensures Invariant(setup, t) && Fifo(t.place) && OrderKept(t)
    decreases |steps|
  {
    if steps != [] {
      StepKeepsLedger(setup, s, steps[0]);
      StepKeepsBounds(setup, s, steps[0]);
      StepKeepsDecided(setup, s, steps[0]);
      StepKeepsFifo(setup, s, steps[0]);
      StepKeepsOrder(setup, s, steps[0]);
      RunKeepsOrder(setup, Apply(setup, s, steps[0]), steps[1..], t);
    }
  }

  /** Events leave the queue in order of arrival, in every run. */
  lemma IntakeIsFifo(setup: Setup, steps: seq<Step>, s: State)
    requires Leads(setup, Initial(setup), steps, s)
    ensures Fifo(s.place)
    ensures setup.workers == 1 ==> InArrivalOrder(s.decisions)
  {
    var i := Initial(setup);
    InitialInvariant(setup);
    assert Calls(i.decisions) == [];
    RunKeepsOrder(setup, i, steps, s);
  }

  // ---------------------------------------------------------------------------
  // Two workers

  /** The same message twice, taken by two workers, the later one deciding first. */
  lemma TwoWorkersReorder(setup: Setup, payload: seq<Byte>)
    requires setup.workers >= 2 && setup.queueCapacity >= 2
    requires forall stamp: nat :: ParseEvent(setup.lib, ReceivedEvent(payload, 0, stamp)).Ok?
    ensures exists steps, s :: Leads(setup, Initial(setup), steps, s) && !InArrivalOrder(s.decisions)
  {
    var e1, e2 := ReceivedEvent(payload, 0, 1), ReceivedEvent(payload, 0, 2);
    assert ParseEvent(setup.lib, e1).Ok? && ParseEvent(setup.lib, e2).Ok?;
    assert payload != [];
    var s0 := Initial(setup);
    var s1 := DoReceive(setup, s0, payload, 0);
    var s2 := DoReceive(setup, s1, payload, 0);
    assert s2.queue == [e1, e2];
    var s3 := DoDequeue(s2, 0);
    assert s3.queue == [e2];
    var s4 := DoDequeue(s3, 1);
    var later, s := SecondDecidesFirst(setup, s4, e1, e2);
    LeadsBack(setup, s3, Dequeue(1), s4, later, s);
    LeadsBack(setup, s2, Dequeue(0), s3, [Dequeue(1)] + later, s);
    var takes := [Dequeue(0)] + ([Dequeue(1)] + later);
    LeadsBack(setup, s1, Receive(payload, 0), s2, takes, s);
    LeadsBack(setup, s0, Receive(payload, 0), s1, [Receive(payload, 0)] + takes, s);
  }

  /** Two workers hold one event each; the one with the later event reaches the cache first. */
  lemma SecondDecidesFirst(setup: Setup, s: State, e1: ReceivedEvent, e2: ReceivedEvent)
    returns (steps: seq<Step>, t: State)
    requires |s.workers| >= 2 && s.workers[0] == Holding(e1) && s.workers[1] == Holding(e2) && s.decisions == []
    requires e1.stamp < e2.stamp && ParseEvent(setup.lib, e1).Ok? && ParseEvent(setup.lib, e2).Ok?
    ensures Leads(setup, s, steps, t) && !InArrivalOrder(t.decisions)
  {
    var s5 := DoParse(setup, s, 0, 0);
    var s6 := DoParse(setup, s5, 1, 0);
    ParseKeepsReception(setup.lib, e1);
    ParseKeepsReception(setup.lib, e2);
    TwoDecisions(setup, s6);
    var s7 := DoCheck(setup, s6, 1);
    t := DoCheck(setup, s7, 0);
    LeadsBack(setup, s7, Check(0), t, [], t);
    LeadsBack(setup, s6, Check(1), s7, [Check(0)], t);
    var checks := [Check(1)] + [Check(0)];
    LeadsBack(setup, s5, Parse(1, 0), s6, checks, t);
    LeadsBack(setup, s, Parse(0, 0), s5, [Parse(1, 0)] + checks, t);
    steps := [Parse(0, 0)] + ([Parse(1, 0)] + checks);
  }

  lemma TwoDecisions(setup: Setup, s: State)
    requires |s.workers| >= 2 && s.workers[0].Checking? && s.workers[1].Checking? && s.decisions == []
    requires s.workers[0].n.stamp < s.workers[1].n.stamp
    ensures Enabled(s, Check(1)) && Enabled(DoCheck(setup, s, 1), Check(0))
    ensures !InArrivalOrder(DoCheck(setup, DoCheck(setup, s, 1), 0).decisions)
  {
    var t := DoCheck(setup, s, 1);
    assert t.workers[0] == s.workers[0];
    var u := DoCheck(setup, t, 0);
    assert u.decisions[0].stamp == s.workers[1].n.stamp;
    assert u.decisions[1].stamp == s.workers[0].n.stamp;
  }

  /**
   The cache decides events in order of arrival in every run exactly when there is at
   most one worker, provided some payload is valid and two messages fit in the queue.
   */
  lemma OrderExactlyWithOneWorker(setup: Setup, payload: seq<Byte>)
    requires setup.queueCapacity >= 2
    requires forall stamp: nat :: ParseEvent(setup.lib, ReceivedEvent(payload, 0, stamp)).Ok?
    ensures (forall steps, s :: Leads(setup, Initial(setup), steps, s) ==> InArrivalOrder(s.decisions))
      <==> setup.workers <= 1
  {
    if setup.workers >= 2 {
      TwoWorkersReorder(setup, payload);
    } else {
      forall steps, s | Leads(setup, Initial(setup), steps, s) ensures InArrivalOrder(s.decisions) {
        if setup.workers == 1 {
          IntakeIsFifo(setup, steps, s);
        } else {
          NoWorkersNoDecisions(setup, Initial(setup), steps, s);
        }
      }
    }
  }

  lemma {:induction false} NoWorkersNoDecisions(setup: Setup, s: State, steps: seq<Step>, t: State)
    requires s.workers == [] && s.decisions == [] && Leads(setup, s, steps, t)
    ensures t.decisions == []
    decreases |steps|
  {
    if steps != [] {
      NoWorkersNoDecisions(setup, Apply(setup, s, steps[0]), steps[1..], t);
    }
  }

  // ---------------------------------------------------------------------------
  // Toasts

  /** Sources in order of arrival and of one bucket key; title, text and details as the newest of them requires. */
  ghost predicate WellMade(lib: Libraries, toast: ToastRequest) {
    && toast.sources != []
    && InStampOrder(toast.sources)
    && (forall i :: 0 <= i < |toast.sources| ==> Together(toast.sources[i], toast.sources[0]))
    && Shows(lib, toast.sources[|toast.sources| - 1], toast)
  }

  ghost predicate ToastsWellMade(lib: Libraries, renders: seq<Render>) {
    forall r :: 0 <= r < |renders| ==> WellMade(lib, renders[r].toast)
  }

  /** What is in somebody's hands came out of one bucket. */
  ghost predicate HandsOfOneKey(hands: seq<Hand>) {
    forall h :: 0 <= h < |hands| ==> OfOneKey(hands[h].events)
  }

  ghost predicate OfOneKey(events: seq<Notification>) {
    forall i :: 0 <= i < |events| ==> Together(events[i], events[0])
  }

  lemma SortedIsIncreasing(events: seq<Notification>)
    requires events != [] && DistinctStamps(events) && OfOneKey(events)
    ensures var sorted := Sort(ByStamp, events);
      && sorted != [] && OfOneKey(sorted)
      && forall i, j :: 0 <= i < j < |sorted| ==> sorted[i].stamp < sorted[j].stamp
  {
    var sorted := Sort(ByStamp, events);
    SortKeepsElements(ByStamp, events);
    SortKeepsMembers(ByStamp, events);
    ByStampIsPreorder();
    SortOrders(ByStamp, events);
    DistinctPermutation(events, sorted);
    forall i | 0 <= i < |sorted| ensures Together(sorted[i], events[0]) {
      assert sorted[i] in events;
    }
    forall i, j | 0 <= i < j < |sorted| ensures sorted[i].stamp < sorted[j].stamp {
      assert ByStamp(sorted[i], sorted[j]);
    }
  }

  lemma BatchIsWellMade(lib: Libraries, events: seq<Notification>)
    requires events != [] && DistinctStamps(events) && OfOneKey(events)
    ensures WellMade(lib, FlushToast(lib, events))
  {
    SortedIsIncreasing(events);
    var sorted := Sort(ByStamp, events);
    LatestOfIncreasing(sorted);
    BatchShowsLatest(lib, sorted);
  }

  lemma SingleIsWellMade(lib: Libraries, n: Notification)
    ensures WellMade(lib, FromSingle(lib, n))
  {
    BatchShowsLatest(lib, [n]);
  }

  lemma SpawnKeepsToasts(lib: Libraries, renders: seq<Render>, spawned: Option<ToastRequest>)
    requires ToastsWellMade(lib, renders) && (spawned.Some? ==> WellMade(lib, spawned.value))
    ensures ToastsWellMade(lib, Spawn(renders, spawned))
  {
  }

  lemma StatusKeepsToasts(lib: Libraries, renders: seq<Render>, r: nat, status: RenderStatus)
    requires ToastsWellMade(lib, renders) && r < |renders|
    ensures ToastsWellMade(lib, renders[r := renders[r].(status := status)])
  {
  }

  lemma HandOverKeepsToasts(setup: Setup, s: State, w: nat)
    requires ToastsWellMade(setup.lib, s.renders) && Enabled(s, HandOver(w))
    ensures ToastsWellMade(setup.lib, DoHandOver(setup, s, w).renders)
  {
    SingleIsWellMade(setup.lib, s.workers[w].n);
    SpawnKeepsToasts(setup.lib, s.renders, A.Add(setup.lib, setup.aggregation, s.table, s.workers[w].n).spawned);
  }

  lemma SpawnTakenKeepsToasts(setup: Setup, s: State, h: nat)
    requires Ledger(setup, s) && ToastsWellMade(setup.lib, s.renders) && HandsOfOneKey(s.hands)
    requires Enabled(s, SpawnTaken(h))
    ensures ToastsWellMade(setup.lib, DoSpawnTaken(setup, s, h).renders)
  {
    assert EventsAt(setup.lib, s.received, s.hands[h].events, s.place, InHand(h));
    BatchIsWellMade(setup.lib, s.hands[h].events);
    SpawnKeepsToasts(setup.lib, s.renders, Some(FlushToast(setup.lib, s.hands[h].events)));
  }

  lemma TakeKeepsHands(setup: Setup, s: State, step: Step)
    requires Bounds(setup, s) && HandsOfOneKey(s.hands) && Enabled(s, step) && (step.TimerFires? || step.FlushNext?)
    ensures HandsOfOneKey(Apply(setup, s, step).hands)
  {
    var key := if step.TimerFires? then s.table.timers[step.id].key else s.host.left[0];
    assert key in s.table.buckets ==> A.BucketWellKept(setup.aggregation, s.table, key);
  }

  lemma RenderStepKeepsToasts(setup: Setup, s: State, step: Step)
    requires ToastsWellMade(setup.lib, s.renders) && Enabled(s, step) && (step.Show? || step.AckSource?)
    ensures ToastsWellMade(setup.lib, Apply(setup, s, step).renders)
  {
    match step
    case Show(r, t) => StatusKeepsToasts(setup.lib, s.renders, r, if t.Some? then Acking(t.value, 0) else Failed);
    case AckSource(r) =>
      var status := s.renders[r].status;
      StatusKeepsToasts(setup.lib, s.renders, r, status.(done := status.done + 1));
  }

  lemma StepKeepsToasts(setup: Setup, s: State, step: Step)
    requires Invariant(setup, s) && ToastsWellMade(setup.lib, s.renders) && HandsOfOneKey(s.hands) && Enabled(s, step)
    ensures ToastsWellMade(setup.lib, Apply(setup, s, step).renders) && HandsOfOneKey(Apply(setup, s, step).hands)
  {
    if step.HandOver? {
      HandOverKeepsToasts(setup, s, step.w);
    } else if step.TimerFires? || step.FlushNext? {
      TakeKeepsHands(setup, s, step);
    } else if step.SpawnTaken? {
      SpawnTakenKeepsToasts(setup, s, step.h);
    } else if step.Show? || step.AckSource? {
      RenderStepKeepsToasts(setup, s, step);
    } else {
      EarlyStepLeavesToasts(setup, s, step);
    }
  }

  lemma EarlyStepLeavesToasts(setup: Setup, s: State, step: Step)
    requires Enabled(s, step) && (step.Receive? || (OfWorker(step) && !step.HandOver?) || OfHost(step))
    ensures Apply(setup, s, step).renders == s.renders && Apply(setup, s, step).hands == s.hands
  {
  }

  lemma {:induction false} RunKeepsToasts(setup: Setup, s: State, steps: seq<Step>, t: State)
    requires Invariant(setup, s) && ToastsWellMade(setup.lib, s.renders) && HandsOfOneKey(s.hands)
    requires Leads(setup, s, steps, t)
    ensures ToastsWellMade(setup.lib, t.renders)
    decreases |steps|
  {
    if steps != [] {
      StepKeepsLedger(setup, s, steps[0]);
      StepKeepsBounds(setup, s, steps[0]);
      StepKeepsToasts(setup, s, steps[0]);
      RunKeepsToasts(setup, Apply(setup, s, steps[0]), steps[1..], t);
    }
  }

  /** In every run every toast lists events of one bucket key in order of arrival and shows the newest. */
  lemma EveryToastShowsItsNewest(setup: Setup, steps: seq<Step>, s: State)
    requires Leads(setup, Initial(setup), steps, s)
    ensures ToastsWellMade(setup.lib, s.renders)
  {
    InitialInvariant(setup);
    RunKeepsToasts(setup, Initial(setup), steps, s);
  }
}
