/**
 What comes in from outside, and what becomes of it. A run takes four things from its
 surroundings: the payload of a message and the time of its reception, the reading of the
 clock before the duplicate cache, and the time at which a toast was shown. In every run
 each of them ends up where it belongs, and an event is dropped for a full queue or a full
 table exactly when the queue or the table was full.
 */
module PipelineInputs {
  import opened Model
  import opened Parser
  import opened Toasts
  import opened Buckets
  import opened Pipeline
  import opened PipelineLedger
  import opened PipelineAcks
  import opened PipelineDedup
  import A = Aggregation

  // ---------------------------------------------------------------------------
  // Receptions

  datatype Reception = Reception(payload: seq<Byte>, at: int)

  /** The messages with content that `steps` receives, in order. */
  function Receptions(steps: seq<Step>): seq<Reception> {
    if steps == [] then []
    else match steps[0]
      case Receive(payload, at) =>
        (if payload == [] then [] else [Reception(payload, at)]) + Receptions(steps[1..])
      case _ => Receptions(steps[1..])
  }

  /** From number `from` + 1 on, the messages are `inputs`, each with its payload, its time and its number. */
  ghost predicate Recorded(received: seq<ReceivedEvent>, from: nat, inputs: seq<Reception>) {
    && |received| == from + |inputs|
    && forall i :: 0 <= i < |inputs| ==>
         received[from + i] == ReceivedEvent(inputs[i].payload, inputs[i].at, from + i + 1)
  }

  lemma StepRecords(setup: Setup, s: State, step: Step)
    requires Enabled(s, step)
    ensures Apply(setup, s, step).received ==
      if step.Receive? && step.payload != []
      then s.received + [ReceivedEvent(step.payload, step.at, |s.received| + 1)] else s.received
  {
  }

  lemma {:induction false} RunRecords(setup: Setup, s: State, steps: seq<Step>, t: State)
    requires Leads(setup, s, steps, t)
    ensures s.received <= t.received && Recorded(t.received, |s.received|, Receptions(steps))
    decreases |steps|
  {
    if steps != [] {
      var u := Apply(setup, s, steps[0]);
      StepRecords(setup, s, steps[0]);
      RunRecords(setup, u, steps[1..], t);
      if steps[0].Receive? && steps[0].payload != [] {
        assert t.received[|s.received|] == u.received[|s.received|];
        FirstRecorded(t.received, |s.received|, steps[0].payload, steps[0].at, Receptions(steps[1..]));
      }
    }
  }

  lemma FirstRecorded(received: seq<ReceivedEvent>, from: nat, payload: seq<Byte>, at: int, rest: seq<Reception>)
    requires Recorded(received, from + 1, rest) && received[from] == ReceivedEvent(payload, at, from + 1)
    ensures Recorded(received, from, [Reception(payload, at)] + rest)
  {
    var inputs := [Reception(payload, at)] + rest;
    forall i | 0 <= i < |inputs|
      ensures received[from + i] == ReceivedEvent(inputs[i].payload, inputs[i].at, from + i + 1)
    {
      assert i > 0 ==> inputs[i] == rest[i - 1] && received[from + 1 + (i - 1)] == received[from + i];
    }
  }

  /** The event has payload and time of the reception with its number. */
  ghost predicate IsReception(inputs: seq<Reception>, evt: ReceivedEvent) {
    && 1 <= evt.stamp <= |inputs|
    && evt.payload == inputs[evt.stamp - 1].payload && evt.receivedAt == inputs[evt.stamp - 1].at
  }

  lemma MessageIsReception(received: seq<ReceivedEvent>, inputs: seq<Reception>, evt: ReceivedEvent)
    requires Recorded(received, 0, inputs) && FromMessage(received, evt)
    ensures IsReception(inputs, evt)
  {
    assert received[0 + (evt.stamp - 1)] == evt;
  }

  /**
   In every run the messages received are the non-empty ones offered, in that order, each
   with its own payload and the time of its own reception, numbered from one.
   */
  lemma ReceptionsExactly(setup: Setup, steps: seq<Step>, s: State)
    requires Leads(setup, Initial(setup), steps, s)
    ensures |s.received| == |Receptions(steps)|
    ensures forall i :: 0 <= i < |s.received| ==>
      s.received[i] == ReceivedEvent(Receptions(steps)[i].payload, Receptions(steps)[i].at, i + 1)
    ensures forall i :: 0 <= i < |s.queue| ==>
      IsReception(Receptions(steps), s.queue[i])
  {
    RunRecords(setup, Initial(setup), steps, s);
    forall i | 0 <= i < |s.queue| ensures IsReception(Receptions(steps), s.queue[i]) {
      QueueFromMessages(setup, steps, s);
      MessageIsReception(s.received, Receptions(steps), s.queue[i]);
    }
  }

  lemma QueueFromMessages(setup: Setup, steps: seq<Step>, s: State)
    requires Leads(setup, Initial(setup), steps, s)
    ensures forall i :: 0 <= i < |s.queue| ==> FromMessage(s.received, s.queue[i])
  {
    InitialInvariant(setup);
    RunKeepsInvariant(setup, Initial(setup), steps, s);
  }

  /** The acknowledgement is for a message received, and tells its id and the time of its own reception. */
  ghost predicate TellsItsReception(setup: Setup, inputs: seq<Reception>, a: AckAttempt) {
    && 1 <= a.stamp <= |inputs|
    && var input := inputs[a.stamp - 1];
       var parsed := ParseEvent(setup.lib, ReceivedEvent(input.payload, input.at, a.stamp));
       && parsed.Ok? && a.ack.eventId == parsed.value.eventId && a.ack.deviceId == setup.deviceId
       && a.ack.agentReceivedAt == input.at
  }

  /** In every run, every acknowledgement tells the time at which its own message was received. */
  lemma AcksTellReceptions(setup: Setup, steps: seq<Step>, s: State)
    requires Leads(setup, Initial(setup), steps, s)
    ensures forall i :: 0 <= i < |s.log| ==> TellsItsReception(setup, Receptions(steps), s.log[i])
  {
    ReceptionsExactly(setup, steps, s);
    AckCausality(setup, steps, s);
    forall i | 0 <= i < |s.log| ensures TellsItsReception(setup, Receptions(steps), s.log[i]) {
      assert Matches(setup, s, s.log[i]);
    }
  }

  // ---------------------------------------------------------------------------
  // Drops for want of room

  /** The event has left the workers, or never reached one. */
  ghost predicate HandedOn(place: map<nat, Place>, x: nat) {
    x in place && !place[x].InQueue? && !place[x].AtWorker?
  }

  ghost predicate SameDrop(p: map<nat, Place>, q: map<nat, Place>, x: nat, reason: Reason) {
    At(p, x, Dropped(reason)) <==> At(q, x, Dropped(reason))
  }

  lemma HandOverSettles(setup: Setup, s: State, w: nat, x: nat)
    requires Ledger(setup, s) && Enabled(s, HandOver(w)) && x in s.place
    ensures var t := DoHandOver(setup, s, w);
      && x in t.place && SameDrop(s.place, t.place, x, QueueFull)
      && (HandedOn(s.place, x) ==> HandedOn(t.place, x) && SameDrop(s.place, t.place, x, BucketOverflow))
  {
    var n := s.workers[w].n;
    OthersStayPut(setup, s, w, n.stamp);
    PlacedAfterAdd(setup, s, n, x);
  }

  lemma WorkerStepSettles(setup: Setup, s: State, step: Step, x: nat)
    requires Ledger(setup, s) && Enabled(s, step) && x in s.place && OfWorker(step)
    ensures var t := Apply(setup, s, step);
      && x in t.place && SameDrop(s.place, t.place, x, QueueFull)
      && (HandedOn(s.place, x) ==> HandedOn(t.place, x) && SameDrop(s.place, t.place, x, BucketOverflow))
  {
    match step
    case Dequeue(w) => assert At(s.place, s.queue[0].stamp, InQueue);
    case Exit(w) =>
    case Parse(w, _) => OthersStayPut(setup, s, w, s.workers[w].evt.stamp);
    case Check(w) => OthersStayPut(setup, s, w, s.workers[w].n.stamp);
    case Observe(w) =>
    case HandOver(w) => HandOverSettles(setup, s, w, x);
  }

  /** No step drops for a full queue what was received before, or for a full table what has left the workers. */
  lemma StepSettles(setup: Setup, s: State, step: Step, x: nat)
    requires Ledger(setup, s) && Enabled(s, step) && x in s.place
    ensures var t := Apply(setup, s, step);
      && x in t.place && SameDrop(s.place, t.place, x, QueueFull)
      && (HandedOn(s.place, x) ==> HandedOn(t.place, x) && SameDrop(s.place, t.place, x, BucketOverflow))
  {
    if OfWorker(step) {
      WorkerStepSettles(setup, s, step, x);
    }
  }

  lemma {:induction false} RunSettles(setup: Setup, s: State, steps: seq<Step>, t: State, x: nat)
    requires Invariant(setup, s) && Leads(setup, s, steps, t) && x in s.place
    ensures SameDrop(s.place, t.place, x, QueueFull)
    ensures HandedOn(s.place, x) ==> SameDrop(s.place, t.place, x, BucketOverflow)
    decreases |steps|
  {
    if steps != [] {
      StepKeepsLedger(setup, s, steps[0]);
      StepKeepsBounds(setup, s, steps[0]);
      StepSettles(setup, s, steps[0], x);
      RunSettles(setup, Apply(setup, s, steps[0]), steps[1..], t, x);
    }
  }

  /** `steps` reaches `a`, which takes `step`, and `rest` goes on from there to `s`. */
  ghost predicate Passes(setup: Setup, steps: seq<Step>, a: State, step: Step, rest: seq<Step>, s: State) {
    && Leads(setup, Initial(setup), steps, a) && Enabled(a, step)
    && Leads(setup, Apply(setup, a, step), rest, s)
  }

  lemma PassesSoundly(setup: Setup, steps: seq<Step>, a: State, step: Step, rest: seq<Step>, s: State)
    requires Passes(setup, steps, a, step, rest, s)
    ensures Invariant(setup, a) && Invariant(setup, Apply(setup, a, step)) && Invariant(setup, s)
  {
    InitialInvariant(setup);
    RunKeepsInvariant(setup, Initial(setup), steps, a);
    StepKeepsLedger(setup, a, step);
    StepKeepsBounds(setup, a, step);
    RunKeepsInvariant(setup, Apply(setup, a, step), rest, s);
  }

  /**
   Wherever a run receives a message with content: if the queue is full the message is
   dropped for that and nothing else changes but the counter; otherwise it is the last in
   the queue. However the run goes on, it has been dropped for a full queue exactly if the
   queue was full.
   */
  lemma QueueFullExactly(setup: Setup, steps: seq<Step>, a: State, payload: seq<Byte>, at: int, rest: seq<Step>,
      s: State)
    requires payload != [] && Passes(setup, steps, a, Receive(payload, at), rest, s)
    ensures var t := Apply(setup, a, Receive(payload, at));
      if |a.queue| < setup.queueCapacity
      then t.queue == a.queue + [ReceivedEvent(payload, at, |a.received| + 1)]
           && t.droppedQueueFull == a.droppedQueueFull
      else t.queue == a.queue && t.droppedQueueFull == a.droppedQueueFull + 1
    ensures At(s.place, |a.received| + 1, Dropped(QueueFull)) <==> |a.queue| >= setup.queueCapacity
  {
    PassesSoundly(setup, steps, a, Receive(payload, at), rest, s);
    RunSettles(setup, Apply(setup, a, Receive(payload, at)), rest, s, |a.received| + 1);
  }

  /** The toasts of the renders from the `from`th on. */
  function ToastsFrom(renders: seq<Render>, from: nat): (r: seq<ToastRequest>)
    requires from <= |renders|
    ensures |r| == |renders| - from && forall i :: 0 <= i < |r| ==> r[i] == renders[from + i].toast
  {
    seq(|renders| - from, i requires 0 <= i < |renders| - from => renders[from + i].toast)
  }

  /** `n` went where its own priority and aggregation key send it, and a toast it caused is waiting to be shown. */
  ghost predicate HandedOver(setup: Setup, a: State, n: Notification, t: State) {
    && |a.renders| <= |t.renders| && t.renders[..|a.renders|] == a.renders
    && A.GoesWhereItShould(setup.lib, setup.aggregation, a.table, n, t.table, ToastsFrom(t.renders, |a.renders|))
    && (forall i :: |a.renders| <= i < |t.renders| ==> t.renders[i].status == Pending)
    && t.queue == a.queue && t.cache == a.cache && t.log == a.log && t.hands == a.hands && t.host == a.host
  }

  lemma HandOverExactly(setup: Setup, a: State, w: nat)
    requires Enabled(a, HandOver(w))
    ensures HandedOver(setup, a, a.workers[w].n, Apply(setup, a, HandOver(w)))
  {
    var n, t := a.workers[w].n, Apply(setup, a, HandOver(w));
    A.AddsExactly(setup.lib, setup.aggregation, a.table, n);
    var e := A.Add(setup.lib, setup.aggregation, a.table, n);
    assert ToastsFrom(t.renders, |a.renders|) == if e.spawned.Some? then [e.spawned.value] else [];
  }

  lemma OverflowAtOnce(setup: Setup, a: State, w: nat)
    requires Ledger(setup, a) && Enabled(a, HandOver(w))
    ensures var n, t := a.workers[w].n, Apply(setup, a, HandOver(w));
      && HandedOn(t.place, n.stamp)
      && (At(t.place, n.stamp, Dropped(BucketOverflow)) <==>
            && n.priority != Critical && Key(n.aggregationKey, n.priority) !in a.table.buckets
            && |a.table.buckets| >= setup.aggregation.maxBuckets)
  {
    var n := a.workers[w].n;
    OthersStayPut(setup, a, w, n.stamp);
    PlacedAfterAdd(setup, a, n, n.stamp);
  }

  /**
   Wherever a run hands an event to the aggregator, and however it goes on: the event has
   been dropped for a full table exactly if it is not critical, no bucket of its aggregation
   key and priority was open, and the table was full.
   */
  lemma OverflowExactly(setup: Setup, steps: seq<Step>, a: State, w: nat, rest: seq<Step>, s: State)
    requires Passes(setup, steps, a, HandOver(w), rest, s)
    ensures HandedOver(setup, a, a.workers[w].n, Apply(setup, a, HandOver(w)))
    ensures var n := a.workers[w].n;
      At(s.place, n.stamp, Dropped(BucketOverflow)) <==>
        && n.priority != Critical && Key(n.aggregationKey, n.priority) !in a.table.buckets
        && |a.table.buckets| >= setup.aggregation.maxBuckets
  {
    HandOverExactly(setup, a, w);
    PassesSoundly(setup, steps, a, HandOver(w), rest, s);
    OverflowAtOnce(setup, a, w);
    RunSettles(setup, Apply(setup, a, HandOver(w)), rest, s, a.workers[w].n.stamp);
  }

  // ---------------------------------------------------------------------------
  // Readings of the clock

  /** The event with stamp `x` is past parsing, and the reading taken for it is `now`. */
  ghost predicate ReadAt(s: State, x: nat, now: int) {
    && x in s.place && !s.place[x].InQueue?
    && (forall w :: 0 <= w < |s.workers| ==> WorkerReadAt(s.workers[w], x, now))
    && (forall i :: 0 <= i < |s.decisions| && s.decisions[i].stamp == x ==> s.decisions[i].call.now == now)
  }

  ghost predicate WorkerReadAt(worker: Worker, x: nat, now: int) {
    && (worker.Holding? ==> worker.evt.stamp != x)
    && (worker.Checking? && worker.n.stamp == x ==> worker.now == now)
  }

  lemma WorkerChangesKeepReading(s: State, t: State, w: nat, x: nat, now: int)
    requires ReadAt(s, x, now) && w < |s.workers| && |t.workers| == |s.workers|
    requires forall v :: 0 <= v < |s.workers| && v != w ==> t.workers[v] == s.workers[v]
    requires WorkerReadAt(t.workers[w], x, now)
    requires x in t.place && !t.place[x].InQueue?
    requires forall i :: 0 <= i < |t.decisions| && t.decisions[i].stamp == x ==> t.decisions[i].call.now == now
    ensures ReadAt(t, x, now)
  {
    forall v | 0 <= v < |t.workers| ensures WorkerReadAt(t.workers[v], x, now) {
      assert v != w ==> WorkerReadAt(s.workers[v], x, now);
    }
  }

  lemma WorkerStepKeepsReading(setup: Setup, s: State, step: Step, x: nat, now: int)
    requires Ledger(setup, s) && ReadAt(s, x, now) && Enabled(s, step) && OfWorker(step)
    ensures ReadAt(Apply(setup, s, step), x, now)
  {
    var t, w := Apply(setup, s, step), step.w;
    assert WorkerReadAt(s.workers[w], x, now);
    assert WorkerOk(setup.lib, s.received, s.workers[w], s.place, w);
    if step.Dequeue? {
      assert At(s.place, s.queue[0].stamp, InQueue);
    } else if step.Parse? && ParseEvent(setup.lib, s.workers[w].evt).Ok? {
      ParseKeepsReception(setup.lib, s.workers[w].evt);
    } else if step.HandOver? {
      PlacedAfterAdd(setup, s, s.workers[w].n, x);
    }
    WorkerChangesKeepReading(s, t, w, x, now);
  }

  lemma StepKeepsReading(setup: Setup, s: State, step: Step, x: nat, now: int)
    requires Ledger(setup, s) && ReadAt(s, x, now) && Enabled(s, step)
    ensures ReadAt(Apply(setup, s, step), x, now)
  {
    if OfWorker(step) {
      WorkerStepKeepsReading(setup, s, step, x, now);
    }
  }

  lemma {:induction false} RunKeepsReading(setup: Setup, s: State, steps: seq<Step>, t: State, x: nat, now: int)
    requires Invariant(setup, s) && ReadAt(s, x, now) && Leads(setup, s, steps, t)
    ensures ReadAt(t, x, now)
    decreases |steps|
  {
    if steps != [] {
      StepKeepsLedger(setup, s, steps[0]);
      StepKeepsBounds(setup, s, steps[0]);
      StepKeepsReading(setup, s, steps[0], x, now);
      RunKeepsReading(setup, Apply(setup, s, steps[0]), steps[1..], t, x, now);
    }
  }

  /** While a worker holds an unparsed event, no decision has been taken on it. */
  lemma ParseTakesReading(setup: Setup, s: State, w: nat, now: int)
    requires Ledger(setup, s) && Decided(setup, s) && Enabled(s, Parse(w, now))
    ensures ReadAt(DoParse(setup, s, w, now), s.workers[w].evt.stamp, now)
  {
    var t, x := DoParse(setup, s, w, now), s.workers[w].evt.stamp;
    OthersStayPut(setup, s, w, x);
    forall i | 0 <= i < |s.decisions| ensures s.decisions[i].stamp != x {
      assert s.decisions[i].stamp == x ==> DecidedAs(s.decisions, x, s.decisions[i].accepted);
    }
    if ParseEvent(setup.lib, s.workers[w].evt).Ok? {
      ParseKeepsReception(setup.lib, s.workers[w].evt);
    }
    forall v | 0 <= v < |t.workers| ensures WorkerReadAt(t.workers[v], x, now) {
      assert v != w ==> WorkerOk(setup.lib, s.received, s.workers[v], s.place, v);
    }
  }

  /**
   Wherever a run parses an event and reads the clock, that reading, and no other, is the
   one by which the cache decides on the event, whenever that happens.
   */
  lemma ReadingsExactly(setup: Setup, steps: seq<Step>, a: State, w: nat, now: int, rest: seq<Step>, s: State)
    requires Passes(setup, steps, a, Parse(w, now), rest, s)
    ensures forall i :: 0 <= i < |s.decisions| && s.decisions[i].stamp == a.workers[w].evt.stamp ==>
      s.decisions[i].call.now == now
  {
    PassesSoundly(setup, steps, a, Parse(w, now), rest, s);
    DecisionsAreOneRun(setup, steps, a);
    ParseTakesReading(setup, a, w, now);
    RunKeepsReading(setup, DoParse(setup, a, w, now), rest, s, a.workers[w].evt.stamp, now);
  }

  // ---------------------------------------------------------------------------
  // Times of showing

  /** The toast of render `r` was shown at that time, or could not be shown. */
  ghost predicate ShownAt(s: State, r: nat, toast: ToastRequest, shownAt: Option<int>) {
    && r < |s.renders| && s.renders[r].toast == toast
    && (if shownAt.None? then s.renders[r].status.Failed?
        else s.renders[r].status.Acking? && s.renders[r].status.submittedAt == shownAt.value)
  }

  lemma StepKeepsShown(setup: Setup, s: State, step: Step, r: nat, toast: ToastRequest, shownAt: Option<int>)
    requires ShownAt(s, r, toast, shownAt) && Enabled(s, step)
    ensures ShownAt(Apply(setup, s, step), r, toast, shownAt)
  {
  }

  lemma {:induction false} RunKeepsShown(setup: Setup, s: State, steps: seq<Step>, t: State, r: nat,
      toast: ToastRequest, shownAt: Option<int>)
    requires ShownAt(s, r, toast, shownAt) && Leads(setup, s, steps, t)
    ensures ShownAt(t, r, toast, shownAt)
    decreases |steps|
  {
    if steps != [] {
      StepKeepsShown(setup, s, steps[0], r, toast, shownAt);
      RunKeepsShown(setup, Apply(setup, s, steps[0]), steps[1..], t, r, toast, shownAt);
    }
  }

  /** A submitted acknowledgement for a source of `toast` tells when it was shown; there is none if it could not be. */
  ghost predicate TellsShowing(a: AckAttempt, toast: ToastRequest, shownAt: Option<int>) {
    !IsObserved(a) && HasStamp(toast.sources, a.stamp) ==> shownAt.Some? && a.ack.toastSubmittedAt == shownAt
  }

  lemma AckTellsShowing(setup: Setup, s: State, i: nat, r: nat, toast: ToastRequest, shownAt: Option<int>)
    requires Ledger(setup, s) && Acks(setup, s) && ShownAt(s, r, toast, shownAt) && i < |s.log|
    ensures TellsShowing(s.log[i], toast, shownAt)
  {
    assert Matches(setup, s, s.log[i]);
    assert EventsAt(setup.lib, s.received, s.renders[r].toast.sources, s.place, InToast(r));
  }

  lemma AcksAlong(setup: Setup, steps: seq<Step>, a: State, step: Step, rest: seq<Step>, s: State)
    requires Passes(setup, steps, a, step, rest, s)
    ensures Acks(setup, s)
  {
    assert Invariant(setup, a) && Acks(setup, a) by {
      InitialInvariant(setup);
      RunKeepsAcks(setup, Initial(setup), steps, a);
    }
    AcksOnward(setup, a, step, rest, s);
  }

  lemma AcksOnward(setup: Setup, a: State, step: Step, rest: seq<Step>, s: State)
    requires Invariant(setup, a) && Acks(setup, a) && Enabled(a, step) && Leads(setup, Apply(setup, a, step), rest, s)
    ensures Acks(setup, s)
  {
    var t := Apply(setup, a, step);
    assert Invariant(setup, t) by {
      StepKeepsLedger(setup, a, step);
      StepKeepsBounds(setup, a, step);
    }
    assert Acks(setup, t) by {
      StepKeepsAcks(setup, a, step);
    }
    RunKeepsAcks(setup, t, rest, s);
  }

  /**
   Wherever a run shows a toast: every submitted acknowledgement there ever is for one of
   its sources tells the time at which it was shown, and there is none if it could not be.
   */
  lemma SubmissionTimesExactly(setup: Setup, steps: seq<Step>, a: State, r: nat, shownAt: Option<int>,
      rest: seq<Step>, s: State)
    requires Passes(setup, steps, a, Show(r, shownAt), rest, s)
    ensures forall i :: 0 <= i < |s.log| ==> TellsShowing(s.log[i], a.renders[r].toast, shownAt)
  {
    var t := Apply(setup, a, Show(r, shownAt));
    PassesSoundly(setup, steps, a, Show(r, shownAt), rest, s);
    AcksAlong(setup, steps, a, Show(r, shownAt), rest, s);
    assert ShownAt(t, r, a.renders[r].toast, shownAt);
    RunKeepsShown(setup, t, rest, s, r, a.renders[r].toast, shownAt);
    forall i | 0 <= i < |s.log| ensures TellsShowing(s.log[i], a.renders[r].toast, shownAt) {
      AckTellsShowing(setup, s, i, r, a.renders[r].toast, shownAt);
    }
  }
}
