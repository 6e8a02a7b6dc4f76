/**
 Draining terminates: once the subscriber has stopped, every step the agent takes
 lowers a natural number, and until the host is done some step can be taken.
 */
module PipelineDrain {
  import opened Model
  import opened Buckets
  import opened Sorting
  import opened Pipeline
  import opened PipelineLedger
  import opened PipelineAcks
  import opened PipelineShutdown
  import A = Aggregation

  function WorkerWeight(w: Worker): nat {
    match w
    case Idle => 0
    case Holding(_) => 9
    case Checking(_, _) => 8
    case Observing(_) => 7
    case Handing(_) => 6
    case Exited => 0
  }

  /** The steps the event with stamp `x` may still cause on its way. */
  ghost function Weight(s: State, x: nat): nat {
    if x !in s.place then 0 else
    match s.place[x]
    case InQueue => 10
    case AtWorker(w) => if w < |s.workers| then WorkerWeight(s.workers[w]) else 0
    case InBucket(_) => 1
    case InHand(_) => 1
    case InToast(_) => if SubmittedIn(s.log, x) then 0 else 1
    case Dropped(_) => 0
  }

  ghost function TotalWeight(s: State, n: nat): nat {
    if n == 0 then 0 else TotalWeight(s, n - 1) + Weight(s, n)
  }

  function PendingCount(renders: seq<Render>): nat {
    if renders == [] then 0 else
    PendingCount(renders[..|renders| - 1]) + (if renders[|renders| - 1].status.Pending? then 1 else 0)
  }

  function OpenCount(hands: seq<Hand>): nat {
    if hands == [] then 0 else
    OpenCount(hands[..|hands| - 1]) + (if hands[|hands| - 1].open then 1 else 0)
  }

  function LiveCount(workers: seq<Worker>): nat {
    if workers == [] then 0 else
    LiveCount(workers[..|workers| - 1]) + (if workers[|workers| - 1].Exited? then 0 else 1)
  }

  function HostWeight(setup: Setup, h: Host): nat {
    match h
    case Running => setup.aggregation.maxBuckets + 6
    case Cancelled => setup.aggregation.maxBuckets + 5
    case SubscriberGone => setup.aggregation.maxBuckets + 4
    case IntakeClosed => setup.aggregation.maxBuckets + 3
    case Flushing(left) => |left| + 2
    case Waiting => 1
    case Done(_) => 0
  }

  ghost function Measure(setup: Setup, s: State): nat {
    TotalWeight(s, |s.received|) + 3 * |s.table.buckets| + |s.table.timers| + 2 * OpenCount(s.hands)
    + PendingCount(s.renders) + LiveCount(s.workers) + HostWeight(setup, s.host)
  }

  // ---------------------------------------------------------------------------
  // Sums

  ghost predicate NoHeavier(s: State, t: State) {
    forall x: nat :: Weight(t, x) <= Weight(s, x)
  }

  lemma {:induction false} TotalShrinks(s: State, t: State, n: nat)
    requires NoHeavier(s, t)
    ensures TotalWeight(t, n) <= TotalWeight(s, n)
  {
    if n > 0 {
      TotalShrinks(s, t, n - 1);
    }
  }

  lemma {:induction false} TotalDrops(s: State, t: State, n: nat, x: nat, d: nat)
    requires NoHeavier(s, t) && 1 <= x <= n && Weight(t, x) + d <= Weight(s, x)
    ensures TotalWeight(t, n) + d <= TotalWeight(s, n)
  {
    if x == n {
      TotalShrinks(s, t, n - 1);
    } else {
      TotalDrops(s, t, n - 1, x, d);
    }
  }

  lemma {:induction false} PendingUpdate(renders: seq<Render>, r: nat, render: Render)
    requires r < |renders|
    ensures PendingCount(renders[r := render]) + (if renders[r].status.Pending? then 1 else 0)
         == PendingCount(renders) + (if render.status.Pending? then 1 else 0)
    decreases |renders|
  {
    var n := |renders| - 1;
    if r < n {
      PendingUpdate(renders[..n], r, render);
      assert renders[r := render][..n] == renders[..n][r := render];
    } else {
      assert renders[r := render][..n] == renders[..n];
    }
  }

  lemma {:induction false} OpenClosed(hands: seq<Hand>, h: nat)
    requires h < |hands| && hands[h].open
    ensures OpenCount(hands[h := hands[h].(open := false)]) + 1 == OpenCount(hands)
    decreases |hands|
  {
    var n, closed := |hands| - 1, hands[h].(open := false);
    if h < n {
      OpenClosed(hands[..n], h);
      assert hands[h := closed][..n] == hands[..n][h := closed];
    } else {
      assert hands[h := closed][..n] == hands[..n];
    }
  }

  lemma OpenTaken(hands: seq<Hand>, events: seq<Notification>, ofHost: bool)
    ensures OpenCount(hands + [Hand(events, ofHost, true)]) == OpenCount(hands) + 1
  {
    assert (hands + [Hand(events, ofHost, true)])[..|hands|] == hands;
  }

  lemma PendingSpawn(renders: seq<Render>, spawned: Option<ToastRequest>)
    ensures PendingCount(Spawn(renders, spawned)) == PendingCount(renders) + (if spawned.Some? then 1 else 0)
  {
    if spawned.Some? {
      var more := Spawn(renders, spawned);
      assert more[..|more| - 1] == renders;
    }
  }

  lemma {:induction false} LiveUpdate(workers: seq<Worker>, w: nat, worker: Worker)
    requires w < |workers|
    ensures LiveCount(workers[w := worker]) + (if workers[w].Exited? then 0 else 1)
         == LiveCount(workers) + (if worker.Exited? then 0 else 1)
    decreases |workers|
  {
    var n := |workers| - 1;
    if w < n {
      LiveUpdate(workers[..n], w, worker);
      assert workers[w := worker][..n] == workers[..n][w := worker];
    } else {
      assert workers[w := worker][..n] == workers[..n];
    }
  }

  // ---------------------------------------------------------------------------
  // Worker steps

  /** Worker `w` moves the event with stamp `x` one step along, and nothing else moves. */
  lemma OneEventMoves(setup: Setup, s: State, t: State, w: nat, x: nat, worker: Worker, p: Place)
    requires Ledger(setup, s) && w < |s.workers| && t.workers == s.workers[w := worker] && t.log == s.log
    requires x in s.place && (s.place[x] == AtWorker(w) || (s.place[x] == InQueue && s.workers[w].Idle?))
    requires t.place == s.place[x := p]
    requires Weight(t, x) < Weight(s, x)
    ensures NoHeavier(s, t) && TotalWeight(t, |s.received|) + 1 <= TotalWeight(s, |s.received|)
  {
    forall y: nat ensures Weight(t, y) <= Weight(s, y) {
      if y != x && y in s.place && s.place[y].AtWorker? {
        assert At(s.place, y, AtWorker(s.place[y].w));
        assert At(s.place, x, s.place[x]);
        assert s.place[y].w != w;
      }
    }
    TotalDrops(s, t, |s.received|, x, 1);
  }

  lemma DequeueLowers(setup: Setup, s: State, w: nat)
    requires Ledger(setup, s) && Enabled(s, Dequeue(w))
    ensures Measure(setup, DoDequeue(s, w)) < Measure(setup, s)
  {
    var t := DoDequeue(s, w);
    var x := s.queue[0].stamp;
    assert At(s.place, x, InQueue);
    assert t.place == s.place[x := AtWorker(w)];
    OneEventMoves(setup, s, t, w, x, Holding(s.queue[0]), AtWorker(w));
    LiveUpdate(s.workers, w, Holding(s.queue[0]));
  }

  lemma ParseLowers(setup: Setup, s: State, w: nat, now: int)
    requires Ledger(setup, s) && Enabled(s, Parse(w, now))
    ensures Measure(setup, DoParse(setup, s, w, now)) < Measure(setup, s)
  {
    var t := DoParse(setup, s, w, now);
    var x := s.workers[w].evt.stamp;
    assert WorkerOk(setup.lib, s.received, s.workers[w], s.place, w);
    assert t.place == s.place[x := t.place[x]];
    OneEventMoves(setup, s, t, w, x, t.workers[w], t.place[x]);
    LiveUpdate(s.workers, w, t.workers[w]);
  }

  lemma CheckLowers(setup: Setup, s: State, w: nat)
    requires Ledger(setup, s) && Enabled(s, Check(w))
    ensures Measure(setup, DoCheck(setup, s, w)) < Measure(setup, s)
  {
    var t := DoCheck(setup, s, w);
    var x := s.workers[w].n.stamp;
    assert WorkerOk(setup.lib, s.received, s.workers[w], s.place, w);
    assert t.place == s.place[x := t.place[x]];
    OneEventMoves(setup, s, t, w, x, t.workers[w], t.place[x]);
    LiveUpdate(s.workers, w, t.workers[w]);
  }

  lemma ObserveWeight(setup: Setup, s: State, w: nat, y: nat)
    requires Ledger(setup, s) && Enabled(s, Observe(w))
    ensures Weight(DoObserve(setup, s, w), y) + (if y == s.workers[w].n.stamp then 1 else 0) <= Weight(s, y)
    ensures 1 <= s.workers[w].n.stamp <= |s.received|
  {
    assert WorkerOk(setup.lib, s.received, s.workers[w], s.place, w);
    ObservedAfter(s.log, ObservedAck(setup, s.workers[w].n), y);
    if y in s.place && s.place[y].AtWorker? {
      assert At(s.place, y, AtWorker(s.place[y].w));
    }
  }

  lemma ObserveLowers(setup: Setup, s: State, w: nat)
    requires Ledger(setup, s) && Enabled(s, Observe(w))
    ensures Measure(setup, DoObserve(setup, s, w)) < Measure(setup, s)
  {
    var t := DoObserve(setup, s, w);
    var n := s.workers[w].n;
    forall y: nat ensures Weight(t, y) <= Weight(s, y) {
      ObserveWeight(setup, s, w, y);
    }
    ObserveWeight(setup, s, w, n.stamp);
    TotalDrops(s, t, |s.received|, n.stamp, 1);
    LiveUpdate(s.workers, w, Handing(n));
  }

  lemma OthersAfterAdd(setup: Setup, s: State, n: Notification, y: nat)
    requires y != n.stamp && y in s.place
    ensures var q := PlaceAfterAdd(setup, s, n);
      y in q && (q[y] == s.place[y] || (s.place[y].InBucket? && q[y].Dropped?))
  {
  }

  lemma HandOverWeight(setup: Setup, s: State, w: nat, y: nat)
    requires Ledger(setup, s) && Enabled(s, HandOver(w))
    ensures Weight(DoHandOver(setup, s, w), y) <= Weight(s, y)
  {
    var n := s.workers[w].n;
    assert WorkerOk(setup.lib, s.received, s.workers[w], s.place, w);
    if y == n.stamp {
      HandedOverWeight(setup, s, w);
    } else if y in s.place {
      OthersAfterAdd(setup, s, n, y);
      if s.place[y].AtWorker? {
        assert At(s.place, y, AtWorker(s.place[y].w));
      }
    } else {
      AddMovesOnly(setup, s, n, w);
    }
  }

  lemma HandedOverWeight(setup: Setup, s: State, w: nat)
    requires Ledger(setup, s) && Enabled(s, HandOver(w))
    ensures Weight(DoHandOver(setup, s, w), s.workers[w].n.stamp) <= 1
    ensures Weight(s, s.workers[w].n.stamp) == 6
  {
    assert WorkerOk(setup.lib, s.received, s.workers[w], s.place, w);
  }

  lemma HandOverWeights(setup: Setup, s: State, w: nat)
    requires Ledger(setup, s) && Enabled(s, HandOver(w))
    ensures var t := DoHandOver(setup, s, w);
      TotalWeight(t, |s.received|) + 5 <= TotalWeight(s, |s.received|)
  {
    var t := DoHandOver(setup, s, w);
    assert WorkerOk(setup.lib, s.received, s.workers[w], s.place, w);
    forall y: nat ensures Weight(t, y) <= Weight(s, y) {
      HandOverWeight(setup, s, w, y);
    }
    HandedOverWeight(setup, s, w);
    TotalDrops(s, t, |s.received|, s.workers[w].n.stamp, 5);
  }

  lemma UpdateGrowsBy<K, V>(m: map<K, V>, k: K, v: V)
    ensures |m[k := v]| == if k in m then |m| else |m| + 1
  {
    assert m[k := v].Keys == m.Keys + {k};
    if k in m {
      assert m.Keys + {k} == m.Keys;
    }
  }

  lemma AddGrowsBy(lib: Libraries, config: A.Config, t: A.Table, n: Notification)
    ensures var e := A.Add(lib, config, t, n);
      3 * |e.table.buckets| + |e.table.timers| + (if e.spawned.Some? then 1 else 0) <= 3 * |t.buckets| + |t.timers| + 4
  {
    if n.priority != Critical && KeyOf(n) in t.buckets {
      var b := t.buckets[KeyOf(n)];
      UpdateGrowsBy(t.buckets, KeyOf(n), b.(events := ApplyToBucket(b.events, n)));
    } else if n.priority != Critical && |t.buckets| < config.maxBuckets {
      UpdateGrowsBy(t.buckets, KeyOf(n), A.Bucket([n], t.nextTimer));
      UpdateGrowsBy(t.timers, t.nextTimer, A.Timer(KeyOf(n), A.Window(config, n.priority)));
    }
  }

  lemma HandOverLowers(setup: Setup, s: State, w: nat)
    requires Ledger(setup, s) && Enabled(s, HandOver(w))
    ensures Measure(setup, DoHandOver(setup, s, w)) < Measure(setup, s)
  {
    var n := s.workers[w].n;
    HandOverWeights(setup, s, w);
    AddGrowsBy(setup.lib, setup.aggregation, s.table, n);
    PendingSpawn(s.renders, A.Add(setup.lib, setup.aggregation, s.table, n).spawned);
    LiveUpdate(s.workers, w, Idle);
  }

  // ---------------------------------------------------------------------------
  // Timers, flushes and renders

  lemma TakeTable(t: A.Table, key: Key, aborted: bool)
    ensures var taken := A.Take(t, key, aborted);
      && |taken.table.buckets| + (if taken.events == [] then 0 else 1) <= |t.buckets|
      && |taken.table.timers| <= |t.timers|
  {
    var taken := A.Take(t, key, aborted);
    if key in t.buckets {
      assert taken.table.buckets.Keys == t.buckets.Keys - {key};
      assert taken.table.timers.Keys <= t.timers.Keys;
      Smaller(taken.table.timers.Keys, t.timers.Keys);
    }
  }

  lemma Smaller(a: set<nat>, b: set<nat>)
    requires a <= b
    ensures |a| <= |b|
  {
    assert b == a + (b - a);
  }

  /** What a bucket's removal does to the measure, apart from the timer that fired and the host. */
  lemma TakeLowers(setup: Setup, s: State, taken: A.Taken, key: Key, ofHost: bool)
    requires |taken.table.buckets| + (if taken.events == [] then 0 else 1) <= |s.table.buckets|
    ensures Measure(setup, AfterTake(s, taken, key, ofHost)) + |s.table.timers|
      <= Measure(setup, s) + |taken.table.timers|
  {
    var t := AfterTake(s, taken, key, ofHost);
    assert NoHeavier(s, t);
    TotalShrinks(s, t, |s.received|);
    if taken.events != [] {
      OpenTaken(s.hands, taken.events, ofHost);
    }
  }

  lemma TimerLowers(setup: Setup, s: State, id: nat, aborted: bool)
    requires Enabled(s, TimerFires(id, aborted))
    ensures Measure(setup, DoTimer(s, id, aborted)) < Measure(setup, s)
  {
    var key := s.table.timers[id].key;
    var without := s.table.(timers := s.table.timers - {id});
    assert without.timers.Keys == s.table.timers.Keys - {id};
    TakeTable(without, key, aborted);
    TakeLowers(setup, s, A.TimerTakes(s.table, id, aborted), key, false);
  }

  lemma FlushNextLowers(setup: Setup, s: State, aborted: bool)
    requires Enabled(s, FlushNext(aborted))
    ensures Measure(setup, DoFlushNext(s, aborted)) < Measure(setup, s)
  {
    var key := s.host.left[0];
    var taken := A.Take(s.table, key, aborted);
    TakeTable(s.table, key, aborted);
    TakeLowers(setup, s, taken, key, true);
    HostLowers(setup, AfterTake(s, taken, key, true), Flushing(s.host.left[1..]));
  }

  lemma SpawnTakenLowers(setup: Setup, s: State, h: nat)
    requires Enabled(s, SpawnTaken(h))
    ensures Measure(setup, DoSpawnTaken(setup, s, h)) < Measure(setup, s)
  {
    var t := DoSpawnTaken(setup, s, h);
    assert NoHeavier(s, t);
    TotalShrinks(s, t, |s.received|);
    OpenClosed(s.hands, h);
    PendingSpawn(s.renders, Some(FlushToast(setup.lib, s.hands[h].events)));
  }

  lemma ShowLowers(setup: Setup, s: State, r: nat, submittedAt: Option<int>)
    requires Ledger(setup, s) && Enabled(s, Show(r, submittedAt))
    ensures Measure(setup, DoShow(s, r, submittedAt)) < Measure(setup, s)
  {
    var t := DoShow(s, r, submittedAt);
    assert NoHeavier(s, t);
    TotalShrinks(s, t, |s.received|);
    PendingUpdate(s.renders, r, t.renders[r]);
  }

  lemma AckSourceLowers(setup: Setup, s: State, r: nat)
    requires Ledger(setup, s) && Acks(setup, s) && Enabled(s, AckSource(r))
    ensures Measure(setup, DoAckSource(setup, s, r)) < Measure(setup, s)
  {
    var t := DoAckSource(setup, s, r);
    var status, sources := s.renders[r].status, s.renders[r].toast.sources;
    var n := sources[status.done];
    var a := SubmittedAck(setup, n, status.submittedAt);
    assert FansOut(s.log, s.renders[r]);
    assert At(s.place, n.stamp, InToast(r)) by {
      assert EventsAt(setup.lib, s.received, sources, s.place, InToast(r));
    }
    forall y: nat ensures Weight(t, y) <= Weight(s, y) {
      ObservedAfter(s.log, a, y);
    }
    ObservedAfter(s.log, a, n.stamp);
    TotalDrops(s, t, |s.received|, n.stamp, 1);
    PendingUpdate(s.renders, r, t.renders[r]);
  }

  // ---------------------------------------------------------------------------
  // The host

  lemma HostLowers(setup: Setup, s: State, h: Host)
    requires HostWeight(setup, h) < HostWeight(setup, s.host)
    ensures Measure(setup, s.(host := h)) < Measure(setup, s)
  {
    var t := s.(host := h);
    assert NoHeavier(s, t);
    TotalShrinks(s, t, |s.received|);
  }

  lemma ExitLowers(setup: Setup, s: State, w: nat)
    requires Ledger(setup, s) && Enabled(s, Exit(w))
    ensures Measure(setup, s.(workers := s.workers[w := Exited])) < Measure(setup, s)
  {
    var t := s.(workers := s.workers[w := Exited]);
    assert NoHeavier(s, t);
    TotalShrinks(s, t, |s.received|);
    LiveUpdate(s.workers, w, Exited);
  }

  lemma WorkerStepLowers(setup: Setup, s: State, step: Step)
    requires Ledger(setup, s) && Enabled(s, step) && OfWorker(step)
    ensures Measure(setup, Apply(setup, s, step)) < Measure(setup, s)
  {
    if step.Dequeue? {
      DequeueLowers(setup, s, step.w);
    } else if step.Exit? {
      ExitLowers(setup, s, step.w);
    } else if step.Parse? {
      ParseLowers(setup, s, step.w, step.now);
    } else if step.Check? {
      CheckLowers(setup, s, step.w);
    } else if step.Observe? {
      ObserveLowers(setup, s, step.w);
    } else {
      HandOverLowers(setup, s, step.w);
    }
  }

  lemma HostStepLowers(setup: Setup, s: State, step: Step)
    requires Bounds(setup, s) && Enabled(s, step) && OfHost(step)
    ensures Measure(setup, Apply(setup, s, step)) < Measure(setup, s)
  {
    match step
    case Cancel => HostLowers(setup, s, Cancelled);
    case SubscriberStops => HostLowers(setup, s, SubscriberGone);
    case CloseIntake => HostLowers(setup, s, IntakeClosed);
    case BeginFlush(order) =>
      EnumerationLength(order, s.table.buckets.Keys);
      HostLowers(setup, s, Flushing(order));
    case EndFlush => HostLowers(setup, s, Waiting);
    case Finish(timedOut) => HostLowers(setup, s, Done(timedOut));
  }

  /** Every step but the reception of a message lowers the measure. */
  lemma StepLowersMeasure(setup: Setup, s: State, step: Step)
    requires Sound(setup, s) && Enabled(s, step) && !step.Receive?
    ensures Measure(setup, Apply(setup, s, step)) < Measure(setup, s)
  {
    if OfWorker(step) {
      WorkerStepLowers(setup, s, step);
    } else if OfHost(step) {
      HostStepLowers(setup, s, step);
    } else if step.TimerFires? {
      TimerLowers(setup, s, step.id, step.aborted);
    } else if step.FlushNext? {
      FlushNextLowers(setup, s, step.aborted);
    } else if step.SpawnTaken? {
      SpawnTakenLowers(setup, s, step.h);
    } else if step.Show? {
      ShowLowers(setup, s, step.r, step.submittedAt);
    } else {
      AckSourceLowers(setup, s, step.r);
    }
  }

  lemma StepsLeaveSubscriberStopped(setup: Setup, s: State, step: Step)
    requires Enabled(s, step) && !s.host.Running? && !s.host.Cancelled?
    ensures !step.Receive? && !Apply(setup, s, step).host.Running? && !Apply(setup, s, step).host.Cancelled?
    ensures Apply(setup, s, step).received == s.received
  {
  }

  /** Once the subscriber has stopped, no run is longer than the measure it starts with. */
  lemma {:induction false} DrainTerminates(setup: Setup, s: State, steps: seq<Step>, t: State)
    requires Sound(setup, s) && !s.host.Running? && !s.host.Cancelled? && Leads(setup, s, steps, t)
    ensures |steps| + Measure(setup, t) <= Measure(setup, s)
    decreases |steps|
  {
    if steps != [] {
      StepsLeaveSubscriberStopped(setup, s, steps[0]);
      StepIsSound(setup, s, steps[0]);
      StepLowersMeasure(setup, s, steps[0]);
      DrainTerminates(setup, Apply(setup, s, steps[0]), steps[1..], t);
    }
  }

  /** What a worker that has not exited can do next. */
  function WorkerStep(s: State, w: nat): Step
    requires w < |s.workers|
  {
    match s.workers[w]
    case Idle => if s.queue == [] then Exit(w) else Dequeue(w)
    case Holding(_) => Parse(w, 0)
    case Checking(_, _) => Check(w)
    case Observing(_) => Observe(w)
    case Handing(_) => HandOver(w)
    case Exited => Exit(w)
  }

  /** Until the host is done, the agent itself can take a step: shutdown never deadlocks. */
  lemma DrainNeverStalls(setup: Setup, s: State) returns (step: Step)
    requires Ledger(setup, s) && !s.host.Done?
    ensures Enabled(s, step) && !step.Receive?
  {
    match s.host
    case Running => step := Cancel;
    case Cancelled => step := SubscriberStops;
    case SubscriberGone => step := CloseIntake;
    case IntakeClosed =>
      if AllExited(s) {
        var order := CanEnumerate(s.table.buckets.Keys);
        step := BeginFlush(order);
      } else {
        var w :| 0 <= w < |s.workers| && !s.workers[w].Exited?;
        step := WorkerStep(s, w);
      }
    case Flushing(left) =>
      if HostFree(s) {
        step := if left == [] then EndFlush else FlushNext(true);
      } else {
        var h :| 0 <= h < |s.hands| && s.hands[h].open && s.hands[h].ofHost;
        step := SpawnTaken(h);
      }
    case Waiting => step := Finish(true);
    case Done(_) =>
  }

  ghost predicate Stuck(s: State) {
    forall step :: !Enabled(s, step)
  }

  lemma StuckMeansDone(setup: Setup, s: State)
    requires Sound(setup, s) && Stuck(s)
    ensures s.host.Done? && HandsEmpty(s) && (setup.workers >= 1 ==> s.queue == [] && s.table.buckets == map[])
  {
    if !s.host.Done? {
      var step := DrainNeverStalls(setup, s);
    }
    forall h | 0 <= h < |s.hands| ensures !s.hands[h].open {
      assert !Enabled(s, SpawnTaken(h));
    }
    assert setup.workers >= 1 ==> s.workers[0].Exited?;
  }

  lemma StuckMeansThrough(setup: Setup, s: State)
    requires Sound(setup, s) && Stuck(s)
    ensures forall r :: 0 <= r < |s.renders| ==> IsThrough(s.renders[r]) && Settled(s.log, s.renders[r])
  {
    forall r | 0 <= r < |s.renders| ensures IsThrough(s.renders[r]) && Settled(s.log, s.renders[r]) {
      assert FansOut(s.log, s.renders[r]);
      assert !Enabled(s, Show(r, None)) && !Enabled(s, AckSource(r));
      ThroughIsSettled(s.log, s.renders[r]);
    }
  }

  /**
   Shutdown drains: from any reachable state whose subscriber has stopped, every run
   has at most `Measure` steps, and one that cannot be continued ends with the host
   done, nothing in the hands of a timer, every render through with all its
   acknowledgements attempted once, and, given a worker, with nothing left in the queue or
   the buckets.
   */
  lemma ShutdownDrains(setup: Setup, before: seq<Step>, s: State, steps: seq<Step>, t: State)
    requires Leads(setup, Initial(setup), before, s) && !s.host.Running? && !s.host.Cancelled?
    requires Leads(setup, s, steps, t)
    ensures |steps| <= Measure(setup, s)
    ensures Stuck(t) ==>
      t.host.Done? && HandsEmpty(t) && (setup.workers >= 1 ==> t.queue == [] && t.table.buckets == map[])
    ensures Stuck(t) ==>
      forall r :: 0 <= r < |t.renders| ==> IsThrough(t.renders[r]) && Settled(t.log, t.renders[r])
  {
    InitialIsSound(setup);
    RunIsSound(setup, Initial(setup), before, s);
    DrainTerminates(setup, s, steps, t);
    RunIsSound(setup, s, steps, t);
    if Stuck(t) {
      StuckMeansDone(setup, t);
      StuckMeansThrough(setup, t);
    }
  }
}
