/**
 Acknowledgements: in every run, submitted follows observed, each is attempted at
 most once per event, each carries the event's own reception time and its toast's
 submission time, and a shown toast acknowledges exactly its sources.
 */
module PipelineAcks {
  import opened Model
  import opened Parser
  import opened Buckets
  import opened Pipeline
  import opened PipelineLedger
  import A = Aggregation

  predicate IsObserved(a: AckAttempt) {
    a.ack.status == ObservedByAgent
  }

  ghost predicate ObservedIn(log: seq<AckAttempt>, x: nat) {
    exists j :: 0 <= j < |log| && log[j].stamp == x && IsObserved(log[j])
  }

  ghost predicate SubmittedIn(log: seq<AckAttempt>, x: nat) {
    exists j :: 0 <= j < |log| && log[j].stamp == x && !IsObserved(log[j])
  }

  /** The code has passed the observed acknowledgement of the event with stamp `x`. */
  ghost predicate PastObserving(s: State, x: nat) {
    && x in s.place
    && match s.place[x]
       case InQueue => false
       case AtWorker(w) => w < |s.workers| && s.workers[w].Handing?
       case InBucket(_) => true
       case InHand(_) => true
       case InToast(_) => true
       case Dropped(reason) => reason == BucketOverflow || reason == Superseded
  }

  /** Submitted follows observed, and nothing is attempted twice. */
  ghost predicate Causal(log: seq<AckAttempt>) {
    && (forall i :: 0 <= i < |log| && !IsObserved(log[i]) ==> ObservedIn(log[..i], log[i].stamp))
    && (forall i, j :: 0 <= i < j < |log| && log[i].stamp == log[j].stamp ==> IsObserved(log[i]) != IsObserved(log[j]))
  }

  /** The sources acknowledged so far are exactly the first `done` ones of a shown toast. */
  ghost predicate FansOut(log: seq<AckAttempt>, r: Render) {
    && (r.status.Acking? ==> r.status.done <= |r.toast.sources|)
    && forall i :: 0 <= i < |r.toast.sources| ==>
         (SubmittedIn(log, r.toast.sources[i].stamp) <==> r.status.Acking? && i < r.status.done)
  }

  /** The acknowledgement carries its own event's data and, once submitted, its toast's submission time. */
  ghost predicate Matches(setup: Setup, s: State, a: AckAttempt) {
    && 1 <= a.stamp <= |s.received|
    && ParseEvent(setup.lib, s.received[a.stamp - 1]).Ok?
    && a.ack.eventId == ParseEvent(setup.lib, s.received[a.stamp - 1]).value.eventId
    && a.ack.deviceId == setup.deviceId
    && a.ack.agentReceivedAt == s.received[a.stamp - 1].receivedAt
    && (if IsObserved(a) then a.ack.toastSubmittedAt == None else SubmittedWithToast(s, a))
  }

  ghost predicate SubmittedWithToast(s: State, a: AckAttempt) {
    && a.stamp in s.place && s.place[a.stamp].InToast?
    && var r := s.place[a.stamp].r;
       r < |s.renders| && s.renders[r].status.Acking? && a.ack.toastSubmittedAt == Some(s.renders[r].status.submittedAt)
  }

  ghost predicate Acks(setup: Setup, s: State) {
    && Causal(s.log)
    && (forall x: nat :: ObservedIn(s.log, x) <==> PastObserving(s, x))
    && (forall r :: 0 <= r < |s.renders| ==> FansOut(s.log, s.renders[r]))
    && (forall i :: 0 <= i < |s.log| ==> Matches(setup, s, s.log[i]))
  }

  // ---------------------------------------------------------------------------
  // Steps that attempt no acknowledgement

  lemma NotSubmitted(setup: Setup, s: State, x: nat)
    requires Acks(setup, s) && (x !in s.place || !s.place[x].InToast?)
    ensures !SubmittedIn(s.log, x)
  {
    forall j | 0 <= j < |s.log| && s.log[j].stamp == x ensures IsObserved(s.log[j]) {
      assert Matches(setup, s, s.log[j]);
    }
  }

  /** Toasts keep their number, status and events; new ones are pending. */
  ghost predicate RendersGrow(s: State, t: State) {
    && |s.renders| <= |t.renders|
    && (forall r :: 0 <= r < |s.renders| ==> t.renders[r] == s.renders[r])
    && (forall r :: |s.renders| <= r < |t.renders| ==> t.renders[r].status.Pending?)
    && (forall x: nat, r: nat :: At(s.place, x, InToast(r)) ==> At(t.place, x, InToast(r)))
  }

  lemma QuietStep(setup: Setup, s: State, t: State)
    requires Acks(setup, s) && Ledger(setup, t)
    requires t.log == s.log && s.received <= t.received && RendersGrow(s, t)
    requires forall x: nat :: PastObserving(s, x) <==> PastObserving(t, x)
    requires forall x: nat, r: nat :: At(t.place, x, InToast(r)) && r >= |s.renders| ==> !SubmittedIn(s.log, x)
    ensures Acks(setup, t)
  {
    forall r | 0 <= r < |t.renders| ensures FansOut(t.log, t.renders[r]) {
      if r >= |s.renders| {
        var sources := t.renders[r].toast.sources;
        assert EventsAt(setup.lib, t.received, sources, t.place, InToast(r));
        forall i | 0 <= i < |sources| ensures !SubmittedIn(t.log, sources[i].stamp) {
          assert At(t.place, sources[i].stamp, InToast(r));
        }
      } else {
        assert FansOut(s.log, s.renders[r]);
      }
    }
    forall i | 0 <= i < |t.log| ensures Matches(setup, t, t.log[i]) {
      assert Matches(setup, s, s.log[i]);
      MatchesFrame(setup, s, t, s.log[i]);
    }
  }

  lemma MatchesFrame(setup: Setup, s: State, t: State, a: AckAttempt)
    requires Matches(setup, s, a) && s.received <= t.received && RendersGrow(s, t)
    ensures Matches(setup, t, a)
  {
    if !IsObserved(a) {
      assert At(s.place, a.stamp, InToast(s.place[a.stamp].r));
      assert At(t.place, a.stamp, InToast(s.place[a.stamp].r));
    }
  }

  /** New places of events that were not in a toast before. */
  lemma NewToastsAreFresh(setup: Setup, s: State, t: State)
    requires Acks(setup, s) && Ledger(setup, s)
    requires forall x: nat, r: nat :: At(t.place, x, InToast(r)) && r >= |s.renders| ==>
      x in s.place && !s.place[x].InToast?
    ensures forall x: nat, r: nat :: At(t.place, x, InToast(r)) && r >= |s.renders| ==> !SubmittedIn(s.log, x)
  {
    forall x: nat, r: nat | At(t.place, x, InToast(r)) && r >= |s.renders| ensures !SubmittedIn(s.log, x) {
      NotSubmitted(setup, s, x);
    }
  }

  lemma ReceiveKeepsAcks(setup: Setup, s: State, payload: seq<Byte>, at: int)
    requires Acks(setup, s) && Ledger(setup, s)
    ensures Acks(setup, DoReceive(setup, s, payload, at))
  {
    var t := DoReceive(setup, s, payload, at);
    ReceiveKeepsLedger(setup, s, payload, at);
    QuietStep(setup, s, t);
  }

  lemma DequeueKeepsAcks(setup: Setup, s: State, w: nat)
    requires Acks(setup, s) && Ledger(setup, s) && w < |s.workers| && s.workers[w].Idle? && s.queue != []
    ensures Acks(setup, DoDequeue(s, w))
  {
    var t := DoDequeue(s, w);
    DequeueKeepsLedger(setup, s, w);
    assert At(s.place, s.queue[0].stamp, InQueue);
    forall x: nat ensures PastObserving(s, x) <==> PastObserving(t, x) {
      if x in s.place && s.place[x].AtWorker? {
        assert At(s.place, x, AtWorker(s.place[x].w));
      }
    }
    QuietStep(setup, s, t);
  }

  /** Worker `w`, which has not attempted its acknowledgement, moves on or drops its event. */
  lemma EarlyWorkerStep(setup: Setup, s: State, t: State, w: nat, x: nat)
    requires Acks(setup, s) && Ledger(setup, s) && Ledger(setup, t)
    requires w < |s.workers| && Holds(s.workers[w], x) && !s.workers[w].Handing?
    requires |t.workers| == |s.workers| && !t.workers[w].Handing?
    requires forall v :: 0 <= v < |s.workers| && v != w ==> t.workers[v] == s.workers[v]
    requires t.log == s.log && t.received == s.received && t.renders == s.renders
    requires t.place == s.place || exists r :: (r == Invalid || r == Duplicate) && t.place == s.place[x := Dropped(r)]
    ensures Acks(setup, t)
  {
    assert WorkerOk(setup.lib, s.received, s.workers[w], s.place, w);
    assert At(s.place, x, AtWorker(w));
    forall y: nat ensures PastObserving(s, y) <==> PastObserving(t, y) {
      if y in s.place && y != x && s.place[y].AtWorker? {
        assert At(s.place, y, AtWorker(s.place[y].w));
      }
    }
    QuietStep(setup, s, t);
  }

  lemma ParseKeepsAcks(setup: Setup, s: State, w: nat, now: int)
    requires Acks(setup, s) && Ledger(setup, s) && w < |s.workers| && s.workers[w].Holding?
    ensures Acks(setup, DoParse(setup, s, w, now))
  {
    ParseKeepsLedger(setup, s, w, now);
    EarlyWorkerStep(setup, s, DoParse(setup, s, w, now), w, s.workers[w].evt.stamp);
  }

  lemma CheckKeepsAcks(setup: Setup, s: State, w: nat)
    requires Acks(setup, s) && Ledger(setup, s) && w < |s.workers| && s.workers[w].Checking?
    ensures Acks(setup, DoCheck(setup, s, w))
  {
    CheckKeepsLedger(setup, s, w);
    EarlyWorkerStep(setup, s, DoCheck(setup, s, w), w, s.workers[w].n.stamp);
  }

  lemma ExitKeepsAcks(setup: Setup, s: State, w: nat)
    requires Acks(setup, s) && Ledger(setup, s) && w < |s.workers| && s.workers[w].Idle?
    ensures Acks(setup, s.(workers := s.workers[w := Exited]))
  {
    var t := s.(workers := s.workers[w := Exited]);
    ExitKeepsLedger(setup, s, w);
    forall x: nat ensures PastObserving(s, x) <==> PastObserving(t, x) {}
    QuietStep(setup, s, t);
  }

  lemma HandOverKeepsPast(setup: Setup, s: State, w: nat, x: nat)
    requires Ledger(setup, s) && w < |s.workers| && s.workers[w].Handing?
    ensures PastObserving(s, x) <==> PastObserving(DoHandOver(setup, s, w), x)
  {
    assert WorkerOk(setup.lib, s.received, s.workers[w], s.place, w);
    if x in s.place {
      PlacedAfterAdd(setup, s, s.workers[w].n, x);
      assert s.place[x].AtWorker? ==> At(s.place, x, AtWorker(s.place[x].w));
    }
  }

  lemma HandOverToasts(setup: Setup, s: State, w: nat)
    requires Ledger(setup, s) && w < |s.workers| && s.workers[w].Handing?
    ensures RendersGrow(s, DoHandOver(setup, s, w))
    ensures forall x: nat, r: nat :: At(DoHandOver(setup, s, w).place, x, InToast(r)) && r >= |s.renders| ==>
      x in s.place && !s.place[x].InToast?
  {
    var n := s.workers[w].n;
    assert WorkerOk(setup.lib, s.received, s.workers[w], s.place, w);
    ToastPlacesAfterAdd(setup, s, n, w);
    assert forall x: nat, r: nat :: At(s.place, x, InToast(r)) ==> r < |s.renders|;
  }

  lemma ToastPlacesAfterAdd(setup: Setup, s: State, n: Notification, w: nat)
    requires At(s.place, n.stamp, AtWorker(w))
    ensures forall x: nat, r: nat :: At(PlaceAfterAdd(setup, s, n), x, InToast(r)) <==>
      At(s.place, x, InToast(r)) || (n.priority == Critical && x == n.stamp && r == |s.renders|)
  {
    AddMovesOnly(setup, s, n, w);
  }

  lemma HandOverKeepsAcks(setup: Setup, s: State, w: nat)
    requires Acks(setup, s) && Ledger(setup, s) && w < |s.workers| && s.workers[w].Handing?
    ensures Acks(setup, DoHandOver(setup, s, w))
  {
    var t := DoHandOver(setup, s, w);
    HandOverKeepsLedger(setup, s, w);
    forall x: nat ensures PastObserving(s, x) <==> PastObserving(t, x) {
      HandOverKeepsPast(setup, s, w, x);
    }
    HandOverToasts(setup, s, w);
    NewToastsAreFresh(setup, s, t);
    QuietStep(setup, s, t);
  }

  lemma TakeKeepsAcks(setup: Setup, s: State, taken: A.Taken, key: Key, ofHost: bool)
    requires Acks(setup, s) && Ledger(setup, AfterTake(s, taken, key, ofHost))
    ensures Acks(setup, AfterTake(s, taken, key, ofHost))
  {
    var t := AfterTake(s, taken, key, ofHost);
    MoveAt(s.place, InBucket(key), InHand(|s.hands|));
    forall x: nat ensures PastObserving(s, x) <==> PastObserving(t, x) {}
    QuietStep(setup, s, t);
  }

  lemma SpawnTakenToasts(setup: Setup, s: State, h: nat)
    requires Ledger(setup, s) && Enabled(s, SpawnTaken(h))
    ensures RendersGrow(s, DoSpawnTaken(setup, s, h))
    ensures forall x: nat, r: nat :: At(DoSpawnTaken(setup, s, h).place, x, InToast(r)) && r >= |s.renders| ==>
      x in s.place && !s.place[x].InToast?
  {
    MoveAt(s.place, InHand(h), InToast(|s.renders|));
    assert forall x: nat, r: nat :: At(s.place, x, InToast(r)) ==> r < |s.renders|;
  }

  lemma SpawnTakenKeepsPast(setup: Setup, s: State, h: nat, x: nat)
    requires Enabled(s, SpawnTaken(h))
    ensures PastObserving(s, x) <==> PastObserving(DoSpawnTaken(setup, s, h), x)
  {
  }

  lemma SpawnTakenKeepsAcks(setup: Setup, s: State, h: nat)
    requires Acks(setup, s) && Ledger(setup, s) && Enabled(s, SpawnTaken(h))
    ensures Acks(setup, DoSpawnTaken(setup, s, h))
  {
    var t := DoSpawnTaken(setup, s, h);
    SpawnTakenKeepsLedger(setup, s, h);
    forall x: nat ensures PastObserving(s, x) <==> PastObserving(t, x) {
      SpawnTakenKeepsPast(setup, s, h, x);
    }
    SpawnTakenToasts(setup, s, h);
    NewToastsAreFresh(setup, s, t);
    QuietStep(setup, s, t);
  }

  // ---------------------------------------------------------------------------
  // Steps that do

  lemma ObservedAfter(log: seq<AckAttempt>, a: AckAttempt, x: nat)
    ensures ObservedIn(log + [a], x) <==> ObservedIn(log, x) || (a.stamp == x && IsObserved(a))
    ensures SubmittedIn(log + [a], x) <==> SubmittedIn(log, x) || (a.stamp == x && !IsObserved(a))
  {
    var log' := log + [a];
    if ObservedIn(log, x) {
      var j :| 0 <= j < |log| && log[j].stamp == x && IsObserved(log[j]);
      assert log'[j] == log[j];
    }
    if SubmittedIn(log, x) {
      var j :| 0 <= j < |log| && log[j].stamp == x && !IsObserved(log[j]);
      assert log'[j] == log[j];
    }
    assert log'[|log|] == a;
  }

  lemma CausalAfter(log: seq<AckAttempt>, a: AckAttempt)
    requires Causal(log)
    requires IsObserved(a) ==> !ObservedIn(log, a.stamp)
    requires !IsObserved(a) ==> ObservedIn(log, a.stamp) && !SubmittedIn(log, a.stamp)
    ensures Causal(log + [a])
  {
    var log' := log + [a];
    forall i | 0 <= i < |log'| && !IsObserved(log'[i]) ensures ObservedIn(log'[..i], log'[i].stamp) {
      if i < |log| {
        assert log'[..i] == log[..i];
      } else {
        assert log'[..i] == log;
      }
    }
  }

  lemma ParseKeepsReception(lib: Libraries, evt: ReceivedEvent)
    requires ParseEvent(lib, evt).Ok?
    ensures ParseEvent(lib, evt).value.receivedAt == evt.receivedAt
    ensures ParseEvent(lib, evt).value.stamp == evt.stamp
  {
  }

  lemma ObserveKeepsAcks(setup: Setup, s: State, w: nat)
    requires Acks(setup, s) && Ledger(setup, s) && w < |s.workers| && s.workers[w].Observing?
    ensures Acks(setup, DoObserve(setup, s, w))
  {
    var t := DoObserve(setup, s, w);
    var n := s.workers[w].n;
    var a := ObservedAck(setup, n);
    assert WorkerOk(setup.lib, s.received, s.workers[w], s.place, w);
    NotSubmitted(setup, s, n.stamp);
    assert !PastObserving(s, n.stamp);
    CausalAfter(s.log, a);
    forall x: nat ensures ObservedIn(t.log, x) <==> PastObserving(t, x) {
      ObservedAfter(s.log, a, x);
      ObservedPlaces(setup, s, w, x);
    }
    forall r | 0 <= r < |t.renders| ensures FansOut(t.log, t.renders[r]) {
      FansOutFrame(s.log, a, s.renders[r]);
    }
    ParseKeepsReception(setup.lib, s.received[n.stamp - 1]);
    forall i | 0 <= i < |t.log| ensures Matches(setup, t, t.log[i]) {
      if i < |s.log| {
        assert Matches(setup, s, s.log[i]);
      }
    }
  }

  lemma ObservedPlaces(setup: Setup, s: State, w: nat, x: nat)
    requires Ledger(setup, s) && w < |s.workers| && s.workers[w].Observing?
    ensures PastObserving(DoObserve(setup, s, w), x) <==> PastObserving(s, x) || x == s.workers[w].n.stamp
  {
    assert WorkerOk(setup.lib, s.received, s.workers[w], s.place, w);
    if x in s.place && s.place[x].AtWorker? {
      assert At(s.place, x, AtWorker(s.place[x].w));
    }
  }

  lemma FansOutFrame(log: seq<AckAttempt>, a: AckAttempt, r: Render)
    requires FansOut(log, r)
    requires IsObserved(a) || forall i :: 0 <= i < |r.toast.sources| ==> r.toast.sources[i].stamp != a.stamp
    ensures FansOut(log + [a], r)
  {
    forall i | 0 <= i < |r.toast.sources|
      ensures SubmittedIn(log + [a], r.toast.sources[i].stamp) <==> r.status.Acking? && i < r.status.done
    {
      ObservedAfter(log, a, r.toast.sources[i].stamp);
    }
  }

  /** The toast whose next source is acknowledged. */
  lemma FansOutNext(log: seq<AckAttempt>, a: AckAttempt, r: Render)
    requires FansOut(log, r) && r.status.Acking? && r.status.done < |r.toast.sources|
    requires DistinctStamps(r.toast.sources) && !IsObserved(a) && a.stamp == r.toast.sources[r.status.done].stamp
    ensures FansOut(log + [a], r.(status := r.status.(done := r.status.done + 1)))
  {
    forall i | 0 <= i < |r.toast.sources|
      ensures SubmittedIn(log + [a], r.toast.sources[i].stamp) <==> i < r.status.done + 1
    {
      ObservedAfter(log, a, r.toast.sources[i].stamp);
    }
  }

  lemma AckSourceKeepsAcks(setup: Setup, s: State, r: nat)
    requires Acks(setup, s) && Ledger(setup, s) && Enabled(s, AckSource(r))
    ensures Acks(setup, DoAckSource(setup, s, r))
  {
    var t := DoAckSource(setup, s, r);
    var status, sources := s.renders[r].status, s.renders[r].toast.sources;
    var n := sources[status.done];
    var a := SubmittedAck(setup, n, status.submittedAt);
    assert EventsAt(setup.lib, s.received, sources, s.place, InToast(r));
    assert At(s.place, n.stamp, InToast(r));
    assert PastObserving(s, n.stamp);
    assert FansOut(s.log, s.renders[r]);
    CausalAfter(s.log, a);
    forall x: nat ensures ObservedIn(t.log, x) <==> PastObserving(t, x) {
      ObservedAfter(s.log, a, x);
      assert PastObserving(t, x) <==> PastObserving(s, x);
    }
    AckSourceFansOut(setup, s, r);
    AckSourceMatches(setup, s, r);
  }

  lemma AckSourceFansOut(setup: Setup, s: State, r: nat)
    requires Acks(setup, s) && Ledger(setup, s) && Enabled(s, AckSource(r))
    ensures var t := DoAckSource(setup, s, r);
      forall q :: 0 <= q < |t.renders| ==> FansOut(t.log, t.renders[q])
  {
    var t := DoAckSource(setup, s, r);
    var sources := s.renders[r].toast.sources;
    var n := sources[s.renders[r].status.done];
    var a := SubmittedAck(setup, n, s.renders[r].status.submittedAt);
    assert EventsAt(setup.lib, s.received, sources, s.place, InToast(r));
    forall q | 0 <= q < |t.renders| ensures FansOut(t.log, t.renders[q]) {
      assert FansOut(s.log, s.renders[q]);
      if q == r {
        FansOutNext(s.log, a, s.renders[r]);
      } else {
        var others := s.renders[q].toast.sources;
        assert EventsAt(setup.lib, s.received, others, s.place, InToast(q));
        assert forall i :: 0 <= i < |others| ==> At(s.place, others[i].stamp, InToast(q));
        FansOutFrame(s.log, a, s.renders[q]);
      }
    }
  }

  lemma AckSourceMatches(setup: Setup, s: State, r: nat)
    requires Acks(setup, s) && Ledger(setup, s) && Enabled(s, AckSource(r))
    ensures var t := DoAckSource(setup, s, r);
      forall i :: 0 <= i < |t.log| ==> Matches(setup, t, t.log[i])
  {
    var t := DoAckSource(setup, s, r);
    var sources := s.renders[r].toast.sources;
    var n := sources[s.renders[r].status.done];
    assert EventsAt(setup.lib, s.received, sources, s.place, InToast(r));
    assert At(s.place, n.stamp, InToast(r));
    ParseKeepsReception(setup.lib, s.received[n.stamp - 1]);
    forall i | 0 <= i < |t.log| ensures Matches(setup, t, t.log[i]) {
      if i < |s.log| {
        assert Matches(setup, s, s.log[i]);
      }
    }
  }

  lemma ShowKeepsAcks(setup: Setup, s: State, r: nat, submittedAt: Option<int>)
    requires Acks(setup, s) && Ledger(setup, s) && Enabled(s, Show(r, submittedAt))
    ensures Acks(setup, DoShow(s, r, submittedAt))
  {
    var t := DoShow(s, r, submittedAt);
    forall x: nat ensures PastObserving(t, x) <==> PastObserving(s, x) {}
    forall q | 0 <= q < |t.renders| ensures FansOut(t.log, t.renders[q]) {
      assert FansOut(s.log, s.renders[q]);
    }
    forall i | 0 <= i < |t.log| ensures Matches(setup, t, t.log[i]) {
      assert Matches(setup, s, s.log[i]);
    }
  }

  lemma HostKeepsAcks(setup: Setup, s: State, h: Host)
    requires Acks(setup, s)
    ensures Acks(setup, s.(host := h))
  {
    var t := s.(host := h);
    forall x: nat ensures PastObserving(t, x) <==> PastObserving(s, x) {}
    forall i | 0 <= i < |t.log| ensures Matches(setup, t, t.log[i]) {
      assert Matches(setup, s, s.log[i]);
    }
  }

  // ---------------------------------------------------------------------------
  // Every step, every run

  lemma WorkerStepKeepsAcks(setup: Setup, s: State, step: Step)
    requires Ledger(setup, s) && Acks(setup, s) && Enabled(s, step) && OfWorker(step)
    ensures Acks(setup, Apply(setup, s, step))
  {
    match step
    case Dequeue(w) => DequeueKeepsAcks(setup, s, w);
    case Exit(w) => ExitKeepsAcks(setup, s, w);
    case Parse(w, now) => ParseKeepsAcks(setup, s, w, now);
    case Check(w) => CheckKeepsAcks(setup, s, w);
    case Observe(w) => ObserveKeepsAcks(setup, s, w);
    case HandOver(w) => HandOverKeepsAcks(setup, s, w);
  }

  lemma TakeStepKeepsAcks(setup: Setup, s: State, step: Step)
    requires Invariant(setup, s) && Acks(setup, s) && Enabled(s, step) && (step.TimerFires? || step.FlushNext?)
    ensures Acks(setup, Apply(setup, s, step))
  {
    TakeStepKeepsLedger(setup, s, step);
    match step
    case TimerFires(id, aborted) =>
      TakeKeepsAcks(setup, s, A.TimerTakes(s.table, id, aborted), s.table.timers[id].key, false);
    case FlushNext(aborted) =>
      var key := s.host.left[0];
      var taken := A.Take(s.table, key, aborted);
      var t := AfterTake(s, taken, key, true);
      assert t == Apply(setup, s, step).(host := s.host);
      TakeKeepsAcks(setup, s, taken, key, true);
      HostKeepsAcks(setup, t, Flushing(s.host.left[1..]));
  }

  lemma HostStepKeepsAcks(setup: Setup, s: State, step: Step)
    requires Acks(setup, s) && Enabled(s, step) && OfHost(step)
    ensures Acks(setup, Apply(setup, s, step))
  {
    var h := Apply(setup, s, step).host;
    assert Apply(setup, s, step) == s.(host := h);
    HostKeepsAcks(setup, s, h);
  }

  lemma StepKeepsAcks(setup: Setup, s: State, step: Step)
    requires Invariant(setup, s) && Acks(setup, s) && Enabled(s, step)
    ensures Acks(setup, Apply(setup, s, step))
  {
    if OfWorker(step) {
      WorkerStepKeepsAcks(setup, s, step);
    } else if OfHost(step) {
      HostStepKeepsAcks(setup, s, step);
    } else if step.TimerFires? || step.FlushNext? {
      TakeStepKeepsAcks(setup, s, step);
    } else if step.Receive? {
      ReceiveKeepsAcks(setup, s, step.payload, step.at);
    } else if step.SpawnTaken? {
      SpawnTakenKeepsAcks(setup, s, step.h);
    } else if step.Show? {
      ShowKeepsAcks(setup, s, step.r, step.submittedAt);
    } else {
      AckSourceKeepsAcks(setup, s, step.r);
    }
  }

  lemma {:induction false} RunKeepsAcks(setup: Setup, s: State, steps: seq<Step>, t: State)
    requires Invariant(setup, s) && Acks(setup, s) && Leads(setup, s, steps, t)
    ensures Invariant(setup, t) && Acks(setup, t)
    decreases |steps|
  {
    if steps != [] {
      StepKeepsLedger(setup, s, steps[0]);
      StepKeepsBounds(setup, s, steps[0]);
      StepKeepsAcks(setup, s, steps[0]);
      RunKeepsAcks(setup, Apply(setup, s, steps[0]), steps[1..], t);
    }
  }

  /**
   In the log of every run, submitted attempts follow observed ones, nothing is attempted
   twice, and the events with an observed attempt are exactly those whose worker has got
   past it.
   */
  lemma AckCausality(setup: Setup, steps: seq<Step>, s: State)
    requires Leads(setup, Initial(setup), steps, s)
    ensures forall i :: 0 <= i < |s.log| && !IsObserved(s.log[i]) ==>
      exists j :: 0 <= j < i && s.log[j].stamp == s.log[i].stamp && IsObserved(s.log[j])
    ensures forall i, j :: 0 <= i < j < |s.log| && s.log[i].stamp == s.log[j].stamp ==>
      IsObserved(s.log[i]) != IsObserved(s.log[j])
    ensures forall i :: 0 <= i < |s.log| ==> Matches(setup, s, s.log[i])
    ensures forall x: nat :: ObservedIn(s.log, x) <==> PastObserving(s, x)
  {
    assert Acks(setup, s) by {
      InitialInvariant(setup);
      RunKeepsAcks(setup, Initial(setup), steps, s);
    }
    forall i | 0 <= i < |s.log| && !IsObserved(s.log[i])
      ensures exists j :: 0 <= j < i && s.log[j].stamp == s.log[i].stamp && IsObserved(s.log[j])
    {
      assert ObservedIn(s.log[..i], s.log[i].stamp);
      var j :| 0 <= j < i && s.log[..i][j].stamp == s.log[i].stamp && IsObserved(s.log[..i][j]);
      assert s.log[..i][j] == s.log[j];
    }
  }

  /**
   Fan-out, in every state of every run: a toast whose show succeeded has attempted
   the submitted acknowledgement of exactly its first `done` sources; one that
   failed or has not been shown has attempted none. A render that is through has
   attempted exactly one for each of its sources, or failed and attempted none.
   */
  lemma AckFanOut(setup: Setup, steps: seq<Step>, s: State, r: nat)
    requires Leads(setup, Initial(setup), steps, s) && r < |s.renders|
    ensures FansOut(s.log, s.renders[r])
    ensures IsThrough(s.renders[r]) ==> Settled(s.log, s.renders[r])
  {
    InitialInvariant(setup);
    RunKeepsAcks(setup, Initial(setup), steps, s);
    if IsThrough(s.renders[r]) {
      ThroughIsSettled(s.log, s.renders[r]);
    }
  }

  // ---------------------------------------------------------------------------
  // Renders that are through

  /** The log holds exactly one submitted attempt for `x`. */
  ghost predicate SubmittedOnce(log: seq<AckAttempt>, x: nat) {
    && SubmittedIn(log, x)
    && forall i, j :: 0 <= i < j < |log| && log[i].stamp == x && log[j].stamp == x ==>
         IsObserved(log[i]) || IsObserved(log[j])
  }

  /** A shown toast has exactly one submitted attempt for each source, a failed one has none for any. */
  ghost predicate Settled(log: seq<AckAttempt>, r: Render) {
    forall i :: 0 <= i < |r.toast.sources| ==>
      if r.status.Acking? then SubmittedOnce(log, r.toast.sources[i].stamp)
      else !SubmittedIn(log, r.toast.sources[i].stamp)
  }

  lemma ThroughIsSettled(log: seq<AckAttempt>, r: Render)
    requires Causal(log) && FansOut(log, r) && IsThrough(r)
    ensures Settled(log, r)
  {
    forall i | 0 <= i < |r.toast.sources| && r.status.Acking? ensures SubmittedOnce(log, r.toast.sources[i].stamp) {
      assert SubmittedIn(log, r.toast.sources[i].stamp);
    }
  }
}
