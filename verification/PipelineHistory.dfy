/**
 What was handed to each bucket. A history kept beside a run records, for every open
 bucket, the events handed to it since it opened, and for every toast the events handed
 to the bucket it came from. In every run each bucket is exactly what `Buckets` says its
 arrivals leave, so what is proved there of arrival sequences holds of the agent: a toast
 shows the newest of all the events handed to its bucket, whatever became of the others.
 */
module PipelineHistory {
  import opened Model
  import opened Toasts
  import opened Sorting
  import opened Buckets
  import opened Pipeline
  import opened PipelineLedger
  import opened PipelineDedup
  import A = Aggregation

  datatype History = History(
    open: map<Key, seq<Notification>>,
    taken: seq<seq<Notification>>,
    shown: seq<seq<Notification>>)

  const NOTHING: History := History(map[], [], [])

  function ArrivalsFor(h: History, key: Key): seq<Notification> {
    if key in h.open then h.open[key] else []
  }

  /** `n` is handed to the aggregator. */
  function AfterAdd(setup: Setup, s: State, h: History, n: Notification): History {
    var key := KeyOf(n);
    if n.priority == Critical then h.(shown := h.shown + [[n]])
    else if key in s.table.buckets then h.(open := h.open[key := ArrivalsFor(h, key) + [n]])
    else if |s.table.buckets| >= setup.aggregation.maxBuckets then h
    else h.(open := h.open[key := [n]])
  }

  /** The bucket of `key` is removed, if it is open. */
  function AfterClose(s: State, h: History, key: Key): History {
    if key in s.table.buckets && s.table.buckets[key].events != [] then h.(taken := h.taken + [ArrivalsFor(h, key)])
    else h
  }

  ghost function AfterStep(setup: Setup, s: State, h: History, step: Step): History
    requires Enabled(s, step)
  {
    match step
    case HandOver(w) => AfterAdd(setup, s, h, s.workers[w].n)
    case TimerFires(id, _) => AfterClose(s, h, s.table.timers[id].key)
    case FlushNext(_) => AfterClose(s, h, s.host.left[0])
    case SpawnTaken(i) => h.(shown := h.shown + [if i < |h.taken| then h.taken[i] else []])
    case _ => h
  }

  /** The history once `steps` are done. */
  ghost function Along(setup: Setup, s: State, h: History, steps: seq<Step>): History
    decreases |steps|
  {
    if steps == [] || !Enabled(s, steps[0]) then h
    else Along(setup, Apply(setup, s, steps[0]), AfterStep(setup, s, h, steps[0]), steps[1..])
  }

  // ---------------------------------------------------------------------------
  // What the history explains

  /** The event is waiting in the bucket of `k`, or was replaced by a newer one. */
  ghost predicate HandedTo(place: map<nat, Place>, x: nat, k: Key) {
    x in place && (place[x] == InBucket(k) || place[x] == Dropped(Superseded))
  }

  /** `events` is what the bucket keeps of `arrivals`, which are distinct events handed to it. */
  ghost predicate Explains(arrivals: seq<Notification>, events: seq<Notification>, place: map<nat, Place>, k: Key) {
    && arrivals != [] && DistinctStamps(arrivals) && events == BucketAfter(arrivals)
    && forall i :: 0 <= i < |arrivals| ==> BelongsTo(arrivals[i], k) && HandedTo(place, arrivals[i].stamp, k)
  }

  ghost predicate ExplainsBuckets(h: History, buckets: map<Key, A.Bucket>, place: map<nat, Place>) {
    forall k :: k in buckets ==> k in h.open && Explains(h.open[k], buckets[k].events, place, k)
  }

  /** The toast is the flush of what the bucket kept, and shows the newest event handed to it. */
  ghost predicate ExplainsToast(lib: Libraries, arrivals: seq<Notification>, toast: ToastRequest) {
    && arrivals != [] && DistinctStamps(arrivals) && BucketAfter(arrivals) != []
    && toast == FlushToast(lib, BucketAfter(arrivals))
    && Latest(arrivals) in toast.sources && ShowsDetailsOf(toast, Latest(arrivals))
  }

  ghost predicate ExplainsToasts(lib: Libraries, shown: seq<seq<Notification>>, renders: seq<Render>) {
    |shown| == |renders| && forall r :: 0 <= r < |renders| ==> ExplainsToast(lib, shown[r], renders[r].toast)
  }

  /** What is in somebody's hands is what its bucket kept. */
  ghost predicate ExplainsHands(taken: seq<seq<Notification>>, hands: seq<Hand>) {
    |taken| == |hands| && forall i :: 0 <= i < |hands| ==> ExplainsHand(taken[i], hands[i].events)
  }

  ghost predicate ExplainsHand(arrivals: seq<Notification>, events: seq<Notification>) {
    arrivals != [] && DistinctStamps(arrivals) && events == BucketAfter(arrivals)
  }

  ghost predicate Remembers(setup: Setup, s: State, h: History) {
    && ExplainsBuckets(h, s.table.buckets, s.place)
    && ExplainsHands(h.taken, s.hands)
    && ExplainsToasts(setup.lib, h.shown, s.renders)
  }

  // ---------------------------------------------------------------------------
  // Steps

  ghost predicate KeepsHanded(p: map<nat, Place>, q: map<nat, Place>, k: Key) {
    forall x: nat :: HandedTo(p, x, k) ==> HandedTo(q, x, k)
  }

  lemma ExplainsFrame(arrivals: seq<Notification>, events: seq<Notification>, p: map<nat, Place>, q: map<nat, Place>,
      k: Key)
    requires Explains(arrivals, events, p, k) && KeepsHanded(p, q, k)
    ensures Explains(arrivals, events, q, k)
  {
  }

  /** The buckets are what they were, and no event handed to them moves elsewhere. */
  lemma BucketsFrame(h: History, buckets: map<Key, A.Bucket>, p: map<nat, Place>, q: map<nat, Place>)
    requires ExplainsBuckets(h, buckets, p) && forall k :: KeepsHanded(p, q, k)
    ensures ExplainsBuckets(h, buckets, q)
  {
    forall k | k in buckets ensures k in h.open && Explains(h.open[k], buckets[k].events, q, k) {
      ExplainsFrame(h.open[k], buckets[k].events, p, q, k);
    }
  }

  lemma QuietStep(setup: Setup, s: State, t: State, h: History)
    requires Remembers(setup, s, h) && t.table.buckets == s.table.buckets && t.hands == s.hands
    requires ExplainsToasts(setup.lib, h.shown, t.renders)
    requires forall k :: KeepsHanded(s.place, t.place, k)
    ensures Remembers(setup, t, h)
  {
    BucketsFrame(h, s.table.buckets, s.place, t.place);
  }

  lemma SingleIsExplained(lib: Libraries, n: Notification)
    ensures ExplainsToast(lib, [n], FromSingle(lib, n))
  {
    assert BucketAfter([n]) == [n];
    SortKeepsElements(ByStamp, [n]);
    assert Sort(ByStamp, [n]) == [n];
  }

  lemma FlushIsExplained(lib: Libraries, arrivals: seq<Notification>, events: seq<Notification>)
    requires ExplainsHand(arrivals, events)
    ensures events != [] && ExplainsToast(lib, arrivals, FlushToast(lib, events))
  {
    LatestWins(lib, arrivals);
  }

  lemma SpawnIsExplained(lib: Libraries, shown: seq<seq<Notification>>, renders: seq<Render>,
      arrivals: seq<Notification>, toast: ToastRequest)
    requires ExplainsToasts(lib, shown, renders) && ExplainsToast(lib, arrivals, toast)
    ensures ExplainsToasts(lib, shown + [arrivals], Spawn(renders, Some(toast)))
  {
  }

  /** `n` joins a bucket: one arrival more. */
  lemma JoinIsExplained(arrivals: seq<Notification>, events: seq<Notification>, p: map<nat, Place>, q: map<nat,
      Place>, n: Notification)
    requires Explains(arrivals, events, p, KeyOf(n)) && KeepsHanded(p, q, KeyOf(n))
    requires HandedTo(q, n.stamp, KeyOf(n)) && !HandedTo(p, n.stamp, KeyOf(n))
    ensures Explains(arrivals + [n], ApplyToBucket(events, n), q, KeyOf(n))
  {
    var more := arrivals + [n];
    assert more[..|arrivals|] == arrivals;
  }

  lemma AddKeepsHanded(setup: Setup, s: State, n: Notification, k: Key)
    requires n.stamp in s.place && s.place[n.stamp].AtWorker?
    ensures KeepsHanded(s.place, PlaceAfterAdd(setup, s, n), k)
  {
    forall x: nat | HandedTo(s.place, x, k) ensures HandedTo(PlaceAfterAdd(setup, s, n), x, k) {
      PlacedAfterAdd(setup, s, n, x);
    }
  }

  lemma AddExplainsBuckets(setup: Setup, s: State, h: History, n: Notification)
    requires ExplainsBuckets(h, s.table.buckets, s.place) && n.stamp in s.place && s.place[n.stamp].AtWorker?
    ensures ExplainsBuckets(AfterAdd(setup, s, h, n), A.Add(setup.lib, setup.aggregation, s.table, n).table.buckets,
                            PlaceAfterAdd(setup, s, n))
  {
    var key, q := KeyOf(n), PlaceAfterAdd(setup, s, n);
    var after, g := A.Add(setup.lib, setup.aggregation, s.table, n).table.buckets, AfterAdd(setup, s, h, n);
    forall k | k in after ensures k in g.open && Explains(g.open[k], after[k].events, q, k) {
      AddKeepsHanded(setup, s, n, k);
      if k == key && n.priority != Critical {
        if key in s.table.buckets {
          JoinIsExplained(h.open[key], s.table.buckets[key].events, s.place, q, n);
        } else {
          assert BucketAfter([n]) == [n];
        }
      } else {
        ExplainsFrame(h.open[k], s.table.buckets[k].events, s.place, q, k);
      }
    }
  }

  lemma HandOverRemembers(setup: Setup, s: State, h: History, w: nat)
    requires Remembers(setup, s, h) && Ledger(setup, s) && Enabled(s, HandOver(w))
    ensures Remembers(setup, DoHandOver(setup, s, w), AfterAdd(setup, s, h, s.workers[w].n))
  {
    var n := s.workers[w].n;
    OthersStayPut(setup, s, w, n.stamp);
    AddExplainsBuckets(setup, s, h, n);
    if n.priority == Critical {
      SingleIsExplained(setup.lib, n);
      SpawnIsExplained(setup.lib, h.shown, s.renders, [n], FromSingle(setup.lib, n));
    }
  }

  lemma CloseRemembers(setup: Setup, s: State, h: History, taken: A.Taken, key: Key, ofHost: bool)
    requires Remembers(setup, s, h) && taken.table.buckets == s.table.buckets - {key}
    requires taken.events == if key in s.table.buckets then s.table.buckets[key].events else []
    ensures Remembers(setup, AfterTake(s, taken, key, ofHost), AfterClose(s, h, key))
  {
    var t := AfterTake(s, taken, key, ofHost);
    forall k | k in t.table.buckets
      ensures k in h.open && Explains(h.open[k], t.table.buckets[k].events, t.place, k)
    {
      assert KeepsHanded(s.place, t.place, k);
      ExplainsFrame(h.open[k], s.table.buckets[k].events, s.place, t.place, k);
    }
  }

  lemma SpawnTakenRemembers(setup: Setup, s: State, h: History, i: nat)
    requires Remembers(setup, s, h) && Enabled(s, SpawnTaken(i))
    ensures Remembers(setup, DoSpawnTaken(setup, s, i), AfterStep(setup, s, h, SpawnTaken(i)))
  {
    var t := DoSpawnTaken(setup, s, i);
    FlushIsExplained(setup.lib, h.taken[i], s.hands[i].events);
    SpawnIsExplained(setup.lib, h.shown, s.renders, h.taken[i], FlushToast(setup.lib, s.hands[i].events));
    BucketsFrame(h, s.table.buckets, s.place, t.place);
  }

  lemma StatusIsExplained(lib: Libraries, shown: seq<seq<Notification>>, renders: seq<Render>, r: nat,
      status: RenderStatus)
    requires ExplainsToasts(lib, shown, renders) && r < |renders|
    ensures ExplainsToasts(lib, shown, renders[r := renders[r].(status := status)])
  {
  }

  /** An event that no bucket has changes its place. */
  lemma MoveElsewhere(setup: Setup, s: State, t: State, h: History, x: nat, p: Place)
    requires Remembers(setup, s, h) && t.table == s.table && t.hands == s.hands && t.renders == s.renders
    requires t.place == s.place[x := p]
    requires x in s.place ==> s.place[x].InQueue? || s.place[x].AtWorker?
    ensures Remembers(setup, t, h)
  {
    QuietStep(setup, s, t, h);
  }

  lemma IntakeRemembers(setup: Setup, s: State, h: History, step: Step)
    requires Remembers(setup, s, h) && Ledger(setup, s) && Enabled(s, step) && (step.Receive? || step.Dequeue?)
    ensures Remembers(setup, Apply(setup, s, step), h)
  {
    var t := Apply(setup, s, step);
    match step
    case Receive(payload, _) =>
      if payload != [] {
        var x := |s.received| + 1;
        MoveElsewhere(setup, s, t, h, x, t.place[x]);
      }
    case Dequeue(w) =>
      var x := s.queue[0].stamp;
      assert At(s.place, x, InQueue);
      MoveElsewhere(setup, s, t, h, x, AtWorker(w));
  }

  lemma DropRemembers(setup: Setup, s: State, h: History, w: nat, x: nat, reason: Reason)
    requires Remembers(setup, s, h) && Ledger(setup, s) && w < |s.workers| && Holds(s.workers[w], x)
    ensures Remembers(setup, s.(place := s.place[x := Dropped(reason)]), h)
  {
    OthersStayPut(setup, s, w, x);
    MoveElsewhere(setup, s, s.(place := s.place[x := Dropped(reason)]), h, x, Dropped(reason));
  }

  lemma DecideRemembers(setup: Setup, s: State, h: History, step: Step)
    requires Remembers(setup, s, h) && Ledger(setup, s) && Enabled(s, step) && (step.Parse? || step.Check?)
    ensures Remembers(setup, Apply(setup, s, step), h)
  {
    match step
    case Parse(w, _) => DropRemembers(setup, s, h, w, s.workers[w].evt.stamp, Invalid);
    case Check(w) => DropRemembers(setup, s, h, w, s.workers[w].n.stamp, Duplicate);
  }

  lemma FlushStepRemembers(setup: Setup, s: State, h: History, step: Step)
    requires Remembers(setup, s, h) && Enabled(s, step) && (step.TimerFires? || step.FlushNext?)
    ensures Remembers(setup, Apply(setup, s, step), AfterStep(setup, s, h, step))
  {
    match step
    case TimerFires(id, aborted) =>
      CloseRemembers(setup, s, h, A.TimerTakes(s.table, id, aborted), s.table.timers[id].key, false);
    case FlushNext(aborted) =>
      CloseRemembers(setup, s, h, A.Take(s.table, s.host.left[0], aborted), s.host.left[0], true);
  }

  lemma RenderStepRemembers(setup: Setup, s: State, h: History, step: Step)
    requires Remembers(setup, s, h) && Enabled(s, step) && (step.Show? || step.AckSource?)
    ensures Remembers(setup, Apply(setup, s, step), h)
  {
    match step
    case Show(r, t) =>
      StatusIsExplained(setup.lib, h.shown, s.renders, r, if t.Some? then Acking(t.value, 0) else Failed);
    case AckSource(r) =>
      var status := s.renders[r].status;
      StatusIsExplained(setup.lib, h.shown, s.renders, r, status.(done := status.done + 1));
  }

  lemma StepRemembers(setup: Setup, s: State, h: History, step: Step)
    requires Remembers(setup, s, h) && Ledger(setup, s) && Enabled(s, step)
    ensures Remembers(setup, Apply(setup, s, step), AfterStep(setup, s, h, step))
  {
    if step.HandOver? {
      HandOverRemembers(setup, s, h, step.w);
    } else if step.TimerFires? || step.FlushNext? {
      FlushStepRemembers(setup, s, h, step);
    } else if step.SpawnTaken? {
      SpawnTakenRemembers(setup, s, h, step.h);
    } else if step.Show? || step.AckSource? {
      RenderStepRemembers(setup, s, h, step);
    } else if step.Receive? || step.Dequeue? {
      IntakeRemembers(setup, s, h, step);
    } else if step.Parse? || step.Check? {
      DecideRemembers(setup, s, h, step);
    }
  }

  lemma {:induction false} RunRemembers(setup: Setup, s: State, h: History, steps: seq<Step>, t: State)
    requires Remembers(setup, s, h) && Invariant(setup, s) && Leads(setup, s, steps, t)
    ensures Remembers(setup, t, Along(setup, s, h, steps))
    decreases |steps|
  {
    if steps != [] {
      StepKeepsLedger(setup, s, steps[0]);
      StepKeepsBounds(setup, s, steps[0]);
      StepRemembers(setup, s, h, steps[0]);
      RunRemembers(setup, Apply(setup, s, steps[0]), AfterStep(setup, s, h, steps[0]), steps[1..], t);
    }
  }

  /**
   In every run, every open bucket is exactly what its arrivals since it opened leave,
   and every toast is the flush of what its bucket's arrivals left and shows the newest
   event that was ever handed to that bucket.
   */
  lemma BucketsFollowTheirArrivals(setup: Setup, steps: seq<Step>, s: State)
    requires Leads(setup, Initial(setup), steps, s)
    ensures Remembers(setup, s, Along(setup, Initial(setup), NOTHING, steps))
  {
    InitialInvariant(setup);
    RunRemembers(setup, Initial(setup), NOTHING, steps, s);
  }
}
