/**
 Conservation: in every reachable state each message received is in exactly one
 place, and the queue, the workers, the buckets, what timers and host have just taken
 out of buckets, and the toasts hold exactly what
 the ledger says, with the data of the message it came from.
 */
module PipelineLedger {
  import opened Model
  import opened Parser
  import opened Toasts
  import opened Sorting
  import opened Buckets
  import opened Pipeline
  import A = Aggregation

  ghost predicate At(place: map<nat, Place>, s: nat, p: Place) {
    s in place && place[s] == p
  }

  ghost predicate FromMessage(received: seq<ReceivedEvent>, evt: ReceivedEvent) {
    1 <= evt.stamp <= |received| && received[evt.stamp - 1] == evt
  }

  /** `n` is what parsing the message with its stamp gives. */
  ghost predicate FromEvent(lib: Libraries, received: seq<ReceivedEvent>, n: Notification) {
    1 <= n.stamp <= |received| && ParseEvent(lib, received[n.stamp - 1]) == Ok(n)
  }

  /** Messages are numbered 1, 2, ... in order of arrival, and the ledger covers exactly them. */
  ghost predicate Numbered(received: seq<ReceivedEvent>, place: map<nat, Place>) {
    && (forall i :: 0 <= i < |received| ==> received[i].stamp == i + 1 && received[i].payload != [])
    && (forall s :: s in place <==> 1 <= s <= |received|)
  }

  ghost predicate QueueHas(queue: seq<ReceivedEvent>, s: nat) {
    exists i :: 0 <= i < |queue| && queue[i].stamp == s
  }

  ghost predicate QueueOk(received: seq<ReceivedEvent>, queue: seq<ReceivedEvent>, place: map<nat, Place>) {
    && (forall i :: 0 <= i < |queue| ==> FromMessage(received, queue[i]) && At(place, queue[i].stamp, InQueue))
    && (forall i, j :: 0 <= i < j < |queue| ==> queue[i].stamp < queue[j].stamp)
    && (forall s: nat :: At(place, s, InQueue) ==> QueueHas(queue, s))
  }

  /** The worker is processing the event with stamp `s`. */
  ghost predicate Holds(worker: Worker, s: nat) {
    match worker
    case Idle => false
    case Holding(evt) => evt.stamp == s
    case Checking(n, _) => n.stamp == s
    case Observing(n) => n.stamp == s
    case Handing(n) => n.stamp == s
    case Exited => false
  }

  ghost predicate WorkerOk(lib: Libraries, received: seq<ReceivedEvent>, worker: Worker, place: map<nat, Place>,
      w: nat)
  {
    match worker
    case Idle => true
    case Holding(evt) => FromMessage(received, evt) && At(place, evt.stamp, AtWorker(w))
    case Checking(n, _) => FromEvent(lib, received, n) && At(place, n.stamp, AtWorker(w))
    case Observing(n) => FromEvent(lib, received, n) && At(place, n.stamp, AtWorker(w))
    case Handing(n) => FromEvent(lib, received, n) && At(place, n.stamp, AtWorker(w))
    case Exited => true
  }

  ghost predicate WorkersOk(lib: Libraries, received: seq<ReceivedEvent>, workers: seq<Worker>, place: map<nat,
      Place>)
  {
    && (forall w :: 0 <= w < |workers| ==> WorkerOk(lib, received, workers[w], place, w))
    && (forall s: nat, w: nat :: At(place, s, AtWorker(w)) ==> w < |workers| && Holds(workers[w], s))
  }

  ghost predicate HasStamp(events: seq<Notification>, s: nat) {
    exists i :: 0 <= i < |events| && events[i].stamp == s
  }

  /** The events are distinct, each is at `p`, and each carries its message's data. */
  ghost predicate EventsAt(lib: Libraries, received: seq<ReceivedEvent>, events: seq<Notification>, place: map<nat,
      Place>, p: Place)
  {
    && (forall i :: 0 <= i < |events| ==> FromEvent(lib, received, events[i]) && At(place, events[i].stamp, p))
    && DistinctStamps(events)
  }

  ghost predicate BucketsOk(lib: Libraries, received: seq<ReceivedEvent>, buckets: map<Key, A.Bucket>,
      place: map<nat, Place>)
  {
    && (forall k :: k in buckets ==> EventsAt(lib, received, buckets[k].events, place, InBucket(k)))
    && (forall s: nat, k :: At(place, s, InBucket(k)) ==> k in buckets && HasStamp(buckets[k].events, s))
  }

  ghost predicate HandsOk(lib: Libraries, received: seq<ReceivedEvent>, hands: seq<Hand>, place: map<nat, Place>) {
    && (forall h :: 0 <= h < |hands| && hands[h].open ==>
          hands[h].events != [] && EventsAt(lib, received, hands[h].events, place, InHand(h)))
    && (forall s: nat, h: nat :: At(place, s, InHand(h)) ==>
          h < |hands| && hands[h].open && HasStamp(hands[h].events, s))
  }

  ghost predicate RendersOk(lib: Libraries, received: seq<ReceivedEvent>, renders: seq<Render>, place: map<nat,
      Place>)
  {
    && (forall r :: 0 <= r < |renders| ==>
          renders[r].toast.sources != [] && EventsAt(lib, received, renders[r].toast.sources, place, InToast(r)))
    && (forall s: nat, r: nat :: At(place, s, InToast(r)) ==> r < |renders| && HasStamp(renders[r].toast.sources, s))
  }

  ghost predicate Ledger(setup: Setup, s: State) {
    && Numbered(s.received, s.place)
    && QueueOk(s.received, s.queue, s.place)
    && WorkersOk(setup.lib, s.received, s.workers, s.place)
    && BucketsOk(setup.lib, s.received, s.table.buckets, s.place)
    && HandsOk(setup.lib, s.received, s.hands, s.place)
    && RendersOk(setup.lib, s.received, s.renders, s.place)
  }

  ghost predicate Bounds(setup: Setup, s: State) {
    && |s.queue| <= setup.queueCapacity
    && |s.workers| == setup.workers
    && A.WellKept(setup.aggregation, s.table)
  }

  // ---------------------------------------------------------------------------
  // A part of the state that a step does not touch still agrees with the ledger

  ghost predicate SameQueued(p: map<nat, Place>, q: map<nat, Place>) {
    forall s: nat :: At(p, s, InQueue) <==> At(q, s, InQueue)
  }

  ghost predicate SameAtWorkers(p: map<nat, Place>, q: map<nat, Place>) {
    forall s: nat, w: nat :: At(p, s, AtWorker(w)) <==> At(q, s, AtWorker(w))
  }

  ghost predicate SameInBuckets(p: map<nat, Place>, q: map<nat, Place>) {
    forall s: nat, k :: At(p, s, InBucket(k)) <==> At(q, s, InBucket(k))
  }

  ghost predicate SameInHands(p: map<nat, Place>, q: map<nat, Place>) {
    forall s: nat, h: nat :: At(p, s, InHand(h)) <==> At(q, s, InHand(h))
  }

  ghost predicate SameInToasts(p: map<nat, Place>, q: map<nat, Place>) {
    forall s: nat, r: nat :: At(p, s, InToast(r)) <==> At(q, s, InToast(r))
  }

  lemma QueueFrame(received: seq<ReceivedEvent>, received': seq<ReceivedEvent>, queue: seq<ReceivedEvent>,
      p: map<nat, Place>, q: map<nat, Place>)
    requires QueueOk(received, queue, p) && received <= received' && SameQueued(p, q)
    ensures QueueOk(received', queue, q)
  {
  }

  lemma WorkersFrame(lib: Libraries, received: seq<ReceivedEvent>, received': seq<ReceivedEvent>,
      workers: seq<Worker>, p: map<nat, Place>, q: map<nat, Place>)
    requires WorkersOk(lib, received, workers, p) && received <= received' && SameAtWorkers(p, q)
    ensures WorkersOk(lib, received', workers, q)
  {
    forall w | 0 <= w < |workers| ensures WorkerOk(lib, received', workers[w], q, w) {
      assert WorkerOk(lib, received, workers[w], p, w);
    }
  }

  lemma EventsFrame(lib: Libraries, received: seq<ReceivedEvent>, received': seq<ReceivedEvent>,
      events: seq<Notification>, p: map<nat, Place>, q: map<nat, Place>, x: Place, y: Place)
    requires EventsAt(lib, received, events, p, x) && received <= received'
    requires forall s: nat :: At(p, s, x) ==> At(q, s, y)
    ensures EventsAt(lib, received', events, q, y)
  {
  }

  lemma BucketsFrame(lib: Libraries, received: seq<ReceivedEvent>, received': seq<ReceivedEvent>, buckets: map<Key,
      A.Bucket>, p: map<nat, Place>, q: map<nat, Place>)
    requires BucketsOk(lib, received, buckets, p) && received <= received' && SameInBuckets(p, q)
    ensures BucketsOk(lib, received', buckets, q)
  {
    forall k | k in buckets ensures EventsAt(lib, received', buckets[k].events, q, InBucket(k)) {
      EventsFrame(lib, received, received', buckets[k].events, p, q, InBucket(k), InBucket(k));
    }
  }

  lemma HandsFrame(lib: Libraries, received: seq<ReceivedEvent>, received': seq<ReceivedEvent>, hands: seq<Hand>,
      p: map<nat, Place>, q: map<nat, Place>)
    requires HandsOk(lib, received, hands, p) && received <= received' && SameInHands(p, q)
    ensures HandsOk(lib, received', hands, q)
  {
    forall h | 0 <= h < |hands| && hands[h].open ensures EventsAt(lib, received', hands[h].events, q, InHand(h)) {
      EventsFrame(lib, received, received', hands[h].events, p, q, InHand(h), InHand(h));
    }
  }

  lemma RendersFrame(lib: Libraries, received: seq<ReceivedEvent>, received': seq<ReceivedEvent>,
      renders: seq<Render>, p: map<nat, Place>, q: map<nat, Place>)
    requires RendersOk(lib, received, renders, p) && received <= received' && SameInToasts(p, q)
    ensures RendersOk(lib, received', renders, q)
  {
    forall r | 0 <= r < |renders| ensures EventsAt(lib, received', renders[r].toast.sources, q, InToast(r)) {
      EventsFrame(lib, received, received', renders[r].toast.sources, p, q, InToast(r), InToast(r));
    }
  }

  /** A step before the aggregator leaves everything after it alone. */
  lemma LateFrame(setup: Setup, s: State, received': seq<ReceivedEvent>, q: map<nat, Place>)
    requires Ledger(setup, s) && s.received <= received'
    requires SameInBuckets(s.place, q) && SameInHands(s.place, q) && SameInToasts(s.place, q)
    ensures BucketsOk(setup.lib, received', s.table.buckets, q)
    ensures HandsOk(setup.lib, received', s.hands, q)
    ensures RendersOk(setup.lib, received', s.renders, q)
  {
    BucketsFrame(setup.lib, s.received, received', s.table.buckets, s.place, q);
    HandsFrame(setup.lib, s.received, received', s.hands, s.place, q);
    RendersFrame(setup.lib, s.received, received', s.renders, s.place, q);
  }

  // ---------------------------------------------------------------------------
  // Intake

  lemma ReceiveKeepsLedger(setup: Setup, s: State, payload: seq<Byte>, at: int)
    requires Ledger(setup, s)
    ensures Ledger(setup, DoReceive(setup, s, payload, at))
  {
    if payload != [] {
      var t := DoReceive(setup, s, payload, at);
      assert s.received <= t.received;
      WorkersFrame(setup.lib, s.received, t.received, s.workers, s.place, t.place);
      LateFrame(setup, s, t.received, t.place);
      ReceiveQueue(setup, s, payload, at);
    }
  }

  lemma ReceiveQueue(setup: Setup, s: State, payload: seq<Byte>, at: int)
    requires payload != [] && Numbered(s.received, s.place) && QueueOk(s.received, s.queue, s.place)
    ensures var t := DoReceive(setup, s, payload, at);
      Numbered(t.received, t.place) && QueueOk(t.received, t.queue, t.place)
  {
    var t := DoReceive(setup, s, payload, at);
    forall x | At(t.place, x, InQueue) ensures QueueHas(t.queue, x) {
      if x == |s.received| + 1 {
        assert t.queue[|s.queue|].stamp == x;
      } else {
        assert At(s.place, x, InQueue);
        var i :| 0 <= i < |s.queue| && s.queue[i].stamp == x;
        assert t.queue[i].stamp == x;
      }
    }
  }

  lemma DequeueKeepsLedger(setup: Setup, s: State, w: nat)
    requires Ledger(setup, s) && w < |s.workers| && s.workers[w].Idle? && s.queue != []
    ensures Ledger(setup, DoDequeue(s, w))
  {
    var t := DoDequeue(s, w);
    var evt := s.queue[0];
    assert At(s.place, evt.stamp, InQueue);
    LateFrame(setup, s, t.received, t.place);
    DequeueQueue(setup, s, w);
    TakeUp(setup.lib, s.received, s.workers, s.place, w, Holding(evt), evt.stamp);
  }

  lemma DequeueQueue(setup: Setup, s: State, w: nat)
    requires QueueOk(s.received, s.queue, s.place) && w < |s.workers| && s.queue != []
    ensures var t := DoDequeue(s, w); QueueOk(t.received, t.queue, t.place)
  {
    var t := DoDequeue(s, w);
    assert forall i :: 0 <= i < |t.queue| ==> t.queue[i] == s.queue[i + 1];
    forall x | At(t.place, x, InQueue) ensures QueueHas(t.queue, x) {
      assert At(s.place, x, InQueue);
      var i :| 0 <= i < |s.queue| && s.queue[i].stamp == x;
      assert t.queue[i - 1].stamp == x;
    }
  }

  // ---------------------------------------------------------------------------
  // Workers

  /** A worker takes up the event with stamp `x`, which no worker held. */
  lemma TakeUp(lib: Libraries, received: seq<ReceivedEvent>, workers: seq<Worker>, place: map<nat, Place>, w: nat,
      worker: Worker, x: nat)
    requires WorkersOk(lib, received, workers, place) && w < |workers| && workers[w].Idle?
    requires x in place && !place[x].AtWorker?
    requires Holds(worker, x) && WorkerOk(lib, received, worker, place[x := AtWorker(w)], w)
    ensures WorkersOk(lib, received, workers[w := worker], place[x := AtWorker(w)])
  {
    var q := place[x := AtWorker(w)];
    var workers' := workers[w := worker];
    forall v | 0 <= v < |workers'| ensures WorkerOk(lib, received, workers'[v], q, v) {
      if v != w {
        assert WorkerOk(lib, received, workers[v], place, v);
      }
    }
    forall y: nat, v: nat | At(q, y, AtWorker(v)) ensures v < |workers'| && Holds(workers'[v], y) {
      if y != x {
        assert At(place, y, AtWorker(v));
      }
    }
  }

  /** A worker moves on with the same event. */
  lemma MoveOn(lib: Libraries, received: seq<ReceivedEvent>, workers: seq<Worker>, place: map<nat, Place>, w: nat,
      worker: Worker, x: nat)
    requires WorkersOk(lib, received, workers, place) && w < |workers|
    requires Holds(workers[w], x) && Holds(worker, x) && WorkerOk(lib, received, worker, place, w)
    ensures WorkersOk(lib, received, workers[w := worker], place)
  {
    var workers' := workers[w := worker];
    forall y: nat, v: nat | At(place, y, AtWorker(v)) ensures v < |workers'| && Holds(workers'[v], y) {
      assert v < |workers| && Holds(workers[v], y);
      if v == w {
        assert y == x;
      }
    }
    forall v | 0 <= v < |workers'| ensures WorkerOk(lib, received, workers'[v], place, v) {
      if v != w {
        assert WorkerOk(lib, received, workers[v], place, v);
      }
    }
  }

  /** A worker is done with the event with stamp `x`, which goes elsewhere; so may other events that no worker holds. */
  lemma LetGo(lib: Libraries, received: seq<ReceivedEvent>, workers: seq<Worker>, place: map<nat, Place>,
      place': map<nat, Place>, w: nat, worker: Worker, x: nat)
    requires WorkersOk(lib, received, workers, place) && w < |workers| && Holds(workers[w], x)
    requires worker.Idle?
    requires forall y: nat, v: nat :: At(place', y, AtWorker(v)) <==> y != x && At(place, y, AtWorker(v))
    ensures WorkersOk(lib, received, workers[w := worker], place')
  {
    var workers' := workers[w := worker];
    forall y: nat, v: nat | At(place', y, AtWorker(v)) ensures v < |workers'| && Holds(workers'[v], y) {
      assert At(place, y, AtWorker(v));
    }
    forall v | 0 <= v < |workers'| ensures WorkerOk(lib, received, workers'[v], place', v) {
      if v != w {
        assert WorkerOk(lib, received, workers[v], place, v);
        assert WorkerOk(lib, received, workers[w], place, w);
        assert !Holds(workers[v], x);
      }
    }
  }

  /** Every other part is untouched when one event leaves a worker for a place that is no part of the state. */
  lemma DropFromWorker(setup: Setup, s: State, w: nat, x: nat, reason: Reason)
    requires Ledger(setup, s) && w < |s.workers| && Holds(s.workers[w], x) && At(s.place, x, AtWorker(w))
    ensures Ledger(setup, s.(workers := s.workers[w := Idle], place := s.place[x := Dropped(reason)]))
  {
    var q := s.place[x := Dropped(reason)];
    QueueFrame(s.received, s.received, s.queue, s.place, q);
    LetGo(setup.lib, s.received, s.workers, s.place, q, w, Idle, x);
    LateFrame(setup, s, s.received, q);
  }

  lemma WorkerMovesOn(setup: Setup, s: State, w: nat, worker: Worker, x: nat)
    requires Ledger(setup, s) && w < |s.workers| && Holds(s.workers[w], x)
    requires Holds(worker, x) && WorkerOk(setup.lib, s.received, worker, s.place, w)
    ensures Ledger(setup, s.(workers := s.workers[w := worker]))
  {
    MoveOn(setup.lib, s.received, s.workers, s.place, w, worker, x);
  }

  lemma ParseKeepsLedger(setup: Setup, s: State, w: nat, now: int)
    requires Ledger(setup, s) && w < |s.workers| && s.workers[w].Holding?
    ensures Ledger(setup, DoParse(setup, s, w, now))
  {
    var evt := s.workers[w].evt;
    assert WorkerOk(setup.lib, s.received, s.workers[w], s.place, w);
    match ParseEvent(setup.lib, evt)
    case Ok(n) =>
      WorkerMovesOn(setup, s, w, Checking(n, now), evt.stamp);
    case Err(_) =>
      DropFromWorker(setup, s, w, evt.stamp, Invalid);
  }

  lemma CheckKeepsLedger(setup: Setup, s: State, w: nat)
    requires Ledger(setup, s) && w < |s.workers| && s.workers[w].Checking?
    ensures Ledger(setup, DoCheck(setup, s, w))
  {
    var n := s.workers[w].n;
    assert WorkerOk(setup.lib, s.received, s.workers[w], s.place, w);
    WorkerMovesOn(setup, s, w, Observing(n), n.stamp);
    DropFromWorker(setup, s, w, n.stamp, Duplicate);
  }

  lemma ObserveKeepsLedger(setup: Setup, s: State, w: nat)
    requires Ledger(setup, s) && w < |s.workers| && s.workers[w].Observing?
    ensures Ledger(setup, DoObserve(setup, s, w))
  {
    var n := s.workers[w].n;
    assert WorkerOk(setup.lib, s.received, s.workers[w], s.place, w);
    WorkerMovesOn(setup, s, w, Handing(n), n.stamp);
  }

  // ---------------------------------------------------------------------------
  // Hand-over to the aggregator

  /** A bucket gets the events `events'`, all of them at the bucket in `q`; the other buckets are untouched. */
  lemma BucketChanges(lib: Libraries, received: seq<ReceivedEvent>, buckets: map<Key, A.Bucket>, p: map<nat, Place>,
      q: map<nat, Place>, key: Key, b: A.Bucket)
    requires BucketsOk(lib, received, buckets, p)
    requires EventsAt(lib, received, b.events, q, InBucket(key))
    requires forall s: nat :: At(q, s, InBucket(key)) ==> HasStamp(b.events, s)
    requires forall s: nat, k :: k != key ==> (At(p, s, InBucket(k)) <==> At(q, s, InBucket(k)))
    ensures BucketsOk(lib, received, buckets[key := b], q)
  {
    var buckets' := buckets[key := b];
    forall k | k in buckets' ensures EventsAt(lib, received, buckets'[k].events, q, InBucket(k)) {
      if k != key {
        EventsFrame(lib, received, received, buckets[k].events, p, q, InBucket(k), InBucket(k));
      }
    }
  }

  /** `n` is appended to events that are all at `x`. */
  lemma AppendEvent(lib: Libraries, received: seq<ReceivedEvent>, events: seq<Notification>, p: map<nat, Place>,
      n: Notification, x: Place)
    requires EventsAt(lib, received, events, p, x) && !At(p, n.stamp, x) && FromEvent(lib, received, n)
    requires forall s: nat :: At(p, s, x) ==> HasStamp(events, s)
    ensures EventsAt(lib, received, events + [n], p[n.stamp := x], x)
    ensures forall s: nat :: At(p[n.stamp := x], s, x) ==> HasStamp(events + [n], s)
  {
    var q, events' := p[n.stamp := x], events + [n];
    forall s: nat | At(q, s, x) ensures HasStamp(events', s) {
      if s == n.stamp {
        assert events'[|events|].stamp == s;
      } else {
        assert At(p, s, x);
        var i :| 0 <= i < |events| && events[i].stamp == s;
        assert events'[i].stamp == s;
      }
    }
  }

  /** `n` is alone at `x`, everything that was there having moved to `y`. */
  lemma ReplaceEvents(lib: Libraries, received: seq<ReceivedEvent>, p: map<nat, Place>, n: Notification, x: Place,
      y: Place)
    requires FromEvent(lib, received, n) && x != y
    ensures EventsAt(lib, received, [n], Move(p, x, y)[n.stamp := x], x)
    ensures forall s: nat :: At(Move(p, x, y)[n.stamp := x], s, x) ==> HasStamp([n], s)
  {
    assert [n][0] == n;
  }

  lemma OpenKeepsBuckets(setup: Setup, s: State, n: Notification)
    requires BucketsOk(setup.lib, s.received, s.table.buckets, s.place)
    requires FromEvent(setup.lib, s.received, n) && n.stamp in s.place && s.place[n.stamp].AtWorker?
    requires KeyOf(n) !in s.table.buckets
    ensures BucketsOk(setup.lib, s.received, s.table.buckets[KeyOf(n) := A.Bucket([n], s.table.nextTimer)],
                      s.place[n.stamp := InBucket(KeyOf(n))])
  {
    var key := KeyOf(n);
    assert forall x: nat :: !At(s.place, x, InBucket(key));
    assert EventsAt(setup.lib, s.received, [], s.place, InBucket(key));
    AppendEvent(setup.lib, s.received, [], s.place, n, InBucket(key));
    assert [] + [n] == [n];
    BucketChanges(setup.lib, s.received, s.table.buckets, s.place, s.place[n.stamp := InBucket(key)], key,
                  A.Bucket([n], s.table.nextTimer));
  }

  lemma JoinKeepsBuckets(setup: Setup, s: State, n: Notification)
    requires BucketsOk(setup.lib, s.received, s.table.buckets, s.place)
    requires FromEvent(setup.lib, s.received, n) && n.stamp in s.place && s.place[n.stamp].AtWorker?
    requires n.priority != Critical && KeyOf(n) in s.table.buckets
    ensures BucketsOk(setup.lib, s.received, A.JoinBucket(s.table, n).buckets, PlaceAfterAdd(setup, s, n))
  {
    var key := KeyOf(n);
    var b := s.table.buckets[key];
    var q := PlaceAfterAdd(setup, s, n);
    var b' := b.(events := ApplyToBucket(b.events, n));
    if !n.isReplaceable {
      AppendEvent(setup.lib, s.received, b.events, s.place, n, InBucket(key));
      BucketChanges(setup.lib, s.received, s.table.buckets, s.place, q, key, b');
    } else if n.stamp >= NewestStamp(b.events) {
      ReplaceEvents(setup.lib, s.received, s.place, n, InBucket(key), Dropped(Superseded));
      BucketChanges(setup.lib, s.received, s.table.buckets, s.place, q, key, b');
    } else {
      BucketsFrame(setup.lib, s.received, s.received, s.table.buckets, s.place, q);
      assert s.table.buckets[key := b'] == s.table.buckets;
    }
  }

  /** What the hand-over does to the other parts' entries in the ledger. */
  lemma AddMovesOnly(setup: Setup, s: State, n: Notification, w: nat)
    requires At(s.place, n.stamp, AtWorker(w))
    ensures var q := PlaceAfterAdd(setup, s, n);
      && SameQueued(s.place, q)
      && (forall y: nat, v: nat :: At(q, y, AtWorker(v)) <==> y != n.stamp && At(s.place, y, AtWorker(v)))
      && SameInHands(s.place, q)
      && (n.priority != Critical ==> SameInToasts(s.place, q))
      && q.Keys == s.place.Keys
  {
  }

  lemma SpawnKeepsRenders(lib: Libraries, received: seq<ReceivedEvent>, renders: seq<Render>, p: map<nat, Place>,
      q: map<nat, Place>, toast: ToastRequest)
    requires RendersOk(lib, received, renders, p)
    requires toast.sources != [] && EventsAt(lib, received, toast.sources, q, InToast(|renders|))
    requires forall s: nat, r: nat :: r != |renders| ==> (At(p, s, InToast(r)) <==> At(q, s, InToast(r)))
    requires forall s: nat :: At(q, s, InToast(|renders|)) ==> HasStamp(toast.sources, s)
    ensures RendersOk(lib, received, renders + [Render(toast, Pending)], q)
  {
    var renders' := renders + [Render(toast, Pending)];
    forall r | 0 <= r < |renders'|
      ensures renders'[r].toast.sources != [] && EventsAt(lib, received, renders'[r].toast.sources, q, InToast(r))
    {
      if r < |renders| {
        EventsFrame(lib, received, received, renders[r].toast.sources, p, q, InToast(r), InToast(r));
      }
    }
  }

  lemma CriticalKeepsRenders(setup: Setup, s: State, n: Notification)
    requires RendersOk(setup.lib, s.received, s.renders, s.place)
    requires FromEvent(setup.lib, s.received, n) && n.stamp in s.place && s.place[n.stamp].AtWorker?
    ensures RendersOk(setup.lib, s.received, Spawn(s.renders, Some(FromSingle(setup.lib, n))),
                      s.place[n.stamp := InToast(|s.renders|)])
  {
    var q := s.place[n.stamp := InToast(|s.renders|)];
    assert FromSingle(setup.lib, n).sources == [n] && HasStamp([n], n.stamp) by {
      assert [n][0].stamp == n.stamp;
    }
    var p := InToast(|s.renders|);
    assert forall x: nat :: !At(s.place, x, p);
    assert forall x: nat :: At(q, x, p) ==> x == n.stamp || At(s.place, x, p);
    SpawnKeepsRenders(setup.lib, s.received, s.renders, s.place, q, FromSingle(setup.lib, n));
  }

  /** Where an event goes when it, or another one, is handed over: nowhere short of or back to the cache. */
  lemma PlacedAfterAdd(setup: Setup, s: State, n: Notification, y: nat)
    requires y in s.place
    ensures var q := PlaceAfterAdd(setup, s, n);
      && y in q
      && (y == n.stamp ==>
           q[y].InBucket? || q[y].InToast? || q[y] == Dropped(Superseded) || q[y] == Dropped(BucketOverflow))
      && (y != n.stamp ==> q[y] == s.place[y] || (s.place[y].InBucket? && q[y] == Dropped(Superseded)))
  {
  }

  lemma HandOverKeepsLedger(setup: Setup, s: State, w: nat)
    requires Ledger(setup, s) && w < |s.workers| && s.workers[w].Handing?
    ensures Ledger(setup, DoHandOver(setup, s, w))
  {
    var n := s.workers[w].n;
    var t := DoHandOver(setup, s, w);
    assert WorkerOk(setup.lib, s.received, s.workers[w], s.place, w);
    AddMovesOnly(setup, s, n, w);
    QueueFrame(s.received, s.received, s.queue, s.place, t.place);
    LetGo(setup.lib, s.received, s.workers, s.place, t.place, w, Idle, n.stamp);
    HandsFrame(setup.lib, s.received, s.received, s.hands, s.place, t.place);
    HandOverRenders(setup, s, n);
    HandOverBuckets(setup, s, n);
  }

  lemma HandOverRenders(setup: Setup, s: State, n: Notification)
    requires RendersOk(setup.lib, s.received, s.renders, s.place)
    requires FromEvent(setup.lib, s.received, n) && n.stamp in s.place && s.place[n.stamp].AtWorker?
    ensures var e := A.Add(setup.lib, setup.aggregation, s.table, n);
      RendersOk(setup.lib, s.received, Spawn(s.renders, e.spawned), PlaceAfterAdd(setup, s, n))
  {
    AddMovesOnly(setup, s, n, s.place[n.stamp].w);
    if n.priority == Critical {
      CriticalKeepsRenders(setup, s, n);
    } else {
      RendersFrame(setup.lib, s.received, s.received, s.renders, s.place, PlaceAfterAdd(setup, s, n));
    }
  }

  lemma HandOverBuckets(setup: Setup, s: State, n: Notification)
    requires BucketsOk(setup.lib, s.received, s.table.buckets, s.place)
    requires FromEvent(setup.lib, s.received, n) && n.stamp in s.place && s.place[n.stamp].AtWorker?
    ensures BucketsOk(setup.lib, s.received, A.Add(setup.lib, setup.aggregation, s.table, n).table.buckets,
                      PlaceAfterAdd(setup, s, n))
  {
    if n.priority != Critical && KeyOf(n) in s.table.buckets {
      JoinKeepsBuckets(setup, s, n);
    } else if n.priority != Critical && |s.table.buckets| < setup.aggregation.maxBuckets {
      OpenKeepsBuckets(setup, s, n);
    } else {
      BucketsFrame(setup.lib, s.received, s.received, s.table.buckets, s.place, PlaceAfterAdd(setup, s, n));
    }
  }

  // ---------------------------------------------------------------------------
  // Flushing

  lemma SortedEventsAt(lib: Libraries, received: seq<ReceivedEvent>, events: seq<Notification>, p: map<nat, Place>,
      x: Place)
    requires EventsAt(lib, received, events, p, x)
    ensures EventsAt(lib, received, Sort(ByStamp, events), p, x)
    ensures forall s: nat :: HasStamp(events, s) ==> HasStamp(Sort(ByStamp, events), s)
  {
    var sorted := Sort(ByStamp, events);
    SortKeepsElements(ByStamp, events);
    SortKeepsMembers(ByStamp, events);
    DistinctPermutation(events, sorted);
    forall i | 0 <= i < |sorted| ensures FromEvent(lib, received, sorted[i]) && At(p, sorted[i].stamp, x) {
      assert sorted[i] in events;
    }
    forall s: nat | HasStamp(events, s) ensures HasStamp(sorted, s) {
      var i :| 0 <= i < |events| && events[i].stamp == s;
      assert events[i] in sorted;
    }
  }

  lemma MoveAt(p: map<nat, Place>, from: Place, to: Place)
    requires from != to
    ensures forall s: nat, x {:trigger At(Move(p, from, to), s, x)} ::
      At(Move(p, from, to), s, x) <==> (x != from && At(p, s, x)) || (x == to && At(p, s, from))
  {
  }

  lemma FlushedEventsAt(lib: Libraries, received: seq<ReceivedEvent>, events: seq<Notification>, p: map<nat, Place>,
      x: Place)
    requires EventsAt(lib, received, events, p, x) && events != []
    ensures EventsAt(lib, received, FlushToast(lib, events).sources, p, x) && FlushToast(lib, events).sources != []
    ensures forall s: nat :: HasStamp(events, s) ==> HasStamp(FlushToast(lib, events).sources, s)
  {
    SortedEventsAt(lib, received, events, p, x);
    SortKeepsElements(ByStamp, events);
    BatchShowsLatest(lib, Sort(ByStamp, events));
  }

  lemma TakeKeepsBuckets(lib: Libraries, received: seq<ReceivedEvent>, buckets: map<Key, A.Bucket>, p: map<nat,
      Place>, key: Key, h: nat)
    requires BucketsOk(lib, received, buckets, p)
    ensures BucketsOk(lib, received, buckets - {key}, Move(p, InBucket(key), InHand(h)))
  {
    var q := Move(p, InBucket(key), InHand(h));
    MoveAt(p, InBucket(key), InHand(h));
    var buckets' := buckets - {key};
    forall k | k in buckets' ensures EventsAt(lib, received, buckets'[k].events, q, InBucket(k)) {
      EventsFrame(lib, received, received, buckets[k].events, p, q, InBucket(k), InBucket(k));
    }
  }

  lemma TakeKeepsHands(lib: Libraries, received: seq<ReceivedEvent>, hands: seq<Hand>, buckets: map<Key, A.Bucket>,
      p: map<nat, Place>, key: Key, ofHost: bool)
    requires HandsOk(lib, received, hands, p) && BucketsOk(lib, received, buckets, p)
    requires key in buckets && buckets[key].events != []
    ensures var more := hands + [Hand(buckets[key].events, ofHost, true)];
      HandsOk(lib, received, more, Move(p, InBucket(key), InHand(|hands|)))
  {
    var q, hands' := Move(p, InBucket(key), InHand(|hands|)), hands + [Hand(buckets[key].events, ofHost, true)];
    MoveAt(p, InBucket(key), InHand(|hands|));
    assert forall x: nat :: !At(p, x, InHand(|hands|));
    forall h | 0 <= h < |hands'| && hands'[h].open ensures EventsAt(lib, received, hands'[h].events, q, InHand(h)) {
      if h < |hands| {
        EventsFrame(lib, received, received, hands[h].events, p, q, InHand(h), InHand(h));
      } else {
        EventsFrame(lib, received, received, buckets[key].events, p, q, InBucket(key), InHand(h));
      }
    }
  }

  lemma NothingToMove(p: map<nat, Place>, from: Place, to: Place)
    requires forall s: nat :: !At(p, s, from)
    ensures Move(p, from, to) == p
  {
    forall s | s in p ensures p[s] != from {
      assert !At(p, s, from);
    }
  }

  /** A bucket is removed by a timer or by the shutdown, if it is still there. */
  lemma TakeKeepsLedger(setup: Setup, s: State, taken: A.Taken, key: Key, ofHost: bool)
    requires Ledger(setup, s)
    requires if key in s.table.buckets
      then taken.events == s.table.buckets[key].events != [] && taken.table.buckets == s.table.buckets - {key}
      else taken.events == [] && taken.table.buckets == s.table.buckets
    ensures Ledger(setup, AfterTake(s, taken, key, ofHost))
  {
    var q := Move(s.place, InBucket(key), InHand(|s.hands|));
    if key in s.table.buckets {
      MoveAt(s.place, InBucket(key), InHand(|s.hands|));
      QueueFrame(s.received, s.received, s.queue, s.place, q);
      WorkersFrame(setup.lib, s.received, s.received, s.workers, s.place, q);
      TakeKeepsBuckets(setup.lib, s.received, s.table.buckets, s.place, key, |s.hands|);
      TakeKeepsHands(setup.lib, s.received, s.hands, s.table.buckets, s.place, key, ofHost);
      RendersFrame(setup.lib, s.received, s.received, s.renders, s.place, q);
    } else {
      NothingToMove(s.place, InBucket(key), InHand(|s.hands|));
    }
  }

  lemma SpawnKeepsHands(lib: Libraries, received: seq<ReceivedEvent>, hands: seq<Hand>, p: map<nat, Place>, h: nat,
      r: nat)
    requires HandsOk(lib, received, hands, p) && h < |hands|
    ensures HandsOk(lib, received, hands[h := hands[h].(open := false)], Move(p, InHand(h), InToast(r)))
  {
    var q, hands' := Move(p, InHand(h), InToast(r)), hands[h := hands[h].(open := false)];
    MoveAt(p, InHand(h), InToast(r));
    forall i | 0 <= i < |hands'| && hands'[i].open ensures EventsAt(lib, received, hands'[i].events, q, InHand(i)) {
      EventsFrame(lib, received, received, hands[i].events, p, q, InHand(i), InHand(i));
    }
  }

  lemma SpawnTakenKeepsRenders(lib: Libraries, received: seq<ReceivedEvent>, renders: seq<Render>, hands: seq<Hand>,
      p: map<nat, Place>, h: nat)
    requires RendersOk(lib, received, renders, p) && HandsOk(lib, received, hands, p) && h < |hands| && hands[h].open
    ensures hands[h].events != []
    ensures RendersOk(lib, received, renders + [Render(FlushToast(lib, hands[h].events), Pending)],
                      Move(p, InHand(h), InToast(|renders|)))
  {
    var events, q := hands[h].events, Move(p, InHand(h), InToast(|renders|));
    MoveAt(p, InHand(h), InToast(|renders|));
    EventsFrame(lib, received, received, events, p, q, InHand(h), InToast(|renders|));
    FlushedEventsAt(lib, received, events, q, InToast(|renders|));
    assert forall x: nat :: !At(p, x, InToast(|renders|));
    SpawnKeepsRenders(lib, received, renders, p, q, FlushToast(lib, events));
  }

  lemma SpawnTakenKeepsLedger(setup: Setup, s: State, h: nat)
    requires Ledger(setup, s) && Enabled(s, SpawnTaken(h))
    ensures Ledger(setup, DoSpawnTaken(setup, s, h))
  {
    var q := DoSpawnTaken(setup, s, h).place;
    MoveAt(s.place, InHand(h), InToast(|s.renders|));
    QueueFrame(s.received, s.received, s.queue, s.place, q);
    WorkersFrame(setup.lib, s.received, s.received, s.workers, s.place, q);
    BucketsFrame(setup.lib, s.received, s.received, s.table.buckets, s.place, q);
    SpawnKeepsHands(setup.lib, s.received, s.hands, s.place, h, |s.renders|);
    SpawnTakenKeepsRenders(setup.lib, s.received, s.renders, s.hands, s.place, h);
  }

  lemma RenderStatusKeepsLedger(setup: Setup, s: State, r: nat, status: RenderStatus)
    requires Ledger(setup, s) && r < |s.renders|
    ensures Ledger(setup, s.(renders := s.renders[r := s.renders[r].(status := status)]))
  {
    var renders' := s.renders[r := s.renders[r].(status := status)];
    assert forall q :: 0 <= q < |renders'| ==> renders'[q].toast == s.renders[q].toast;
  }

  // ---------------------------------------------------------------------------
  // Every step, every run

  /** The ledger agrees with the state, and the bounded parts are within their limits. */
  ghost predicate Invariant(setup: Setup, s: State) {
    Ledger(setup, s) && Bounds(setup, s)
  }

  lemma TakeStepKeepsLedger(setup: Setup, s: State, step: Step)
    requires Invariant(setup, s) && Enabled(s, step) && (step.TimerFires? || step.FlushNext?)
    ensures Ledger(setup, Apply(setup, s, step))
  {
    var key := if step.TimerFires? then s.table.timers[step.id].key else s.host.left[0];
    assert key in s.table.buckets ==> A.BucketWellKept(setup.aggregation, s.table, key);
    var taken := if step.TimerFires? then A.TimerTakes(s.table, step.id, step.aborted)
                 else A.Take(s.table, key, step.aborted);
    assert key !in s.table.buckets ==> s.table.buckets - {key} == s.table.buckets;
    TakeKeepsLedger(setup, s, taken, key, step.FlushNext?);
  }

  lemma ExitKeepsLedger(setup: Setup, s: State, w: nat)
    requires Ledger(setup, s) && w < |s.workers| && s.workers[w].Idle?
    ensures Ledger(setup, s.(workers := s.workers[w := Exited]))
  {
    var workers' := s.workers[w := Exited];
    forall v | 0 <= v < |workers'| ensures WorkerOk(setup.lib, s.received, workers'[v], s.place, v) {
      assert WorkerOk(setup.lib, s.received, s.workers[v], s.place, v);
    }
    forall y: nat, v: nat | At(s.place, y, AtWorker(v)) ensures v < |workers'| && Holds(workers'[v], y) {
      assert Holds(s.workers[v], y);
    }
  }

  lemma WorkerStepKeepsLedger(setup: Setup, s: State, step: Step)
    requires Ledger(setup, s) && Enabled(s, step) && OfWorker(step)
    ensures Ledger(setup, Apply(setup, s, step))
  {
    match step
    case Dequeue(w) => DequeueKeepsLedger(setup, s, w);
    case Exit(w) => ExitKeepsLedger(setup, s, w);
    case Parse(w, now) => ParseKeepsLedger(setup, s, w, now);
    case Check(w) => CheckKeepsLedger(setup, s, w);
    case Observe(w) => ObserveKeepsLedger(setup, s, w);
    case HandOver(w) => HandOverKeepsLedger(setup, s, w);
  }

  lemma RenderStepKeepsLedger(setup: Setup, s: State, step: Step)
    requires Ledger(setup, s) && Enabled(s, step) && (step.Show? || step.AckSource?)
    ensures Ledger(setup, Apply(setup, s, step))
  {
    match step
    case Show(r, t) => RenderStatusKeepsLedger(setup, s, r, if t.Some? then Acking(t.value, 0) else Failed);
    case AckSource(r) =>
      var status := s.renders[r].status;
      RenderStatusKeepsLedger(setup, s, r, status.(done := status.done + 1));
  }

  lemma HostStepKeepsLedger(setup: Setup, s: State, step: Step)
    requires Ledger(setup, s) && Enabled(s, step) && OfHost(step)
    ensures Ledger(setup, Apply(setup, s, step))
  {
    var t := Apply(setup, s, step);
    assert t == s.(host := t.host);
  }

  lemma StepKeepsLedger(setup: Setup, s: State, step: Step)
    requires Invariant(setup, s) && Enabled(s, step)
    ensures Ledger(setup, Apply(setup, s, step))
  {
    if OfWorker(step) {
      WorkerStepKeepsLedger(setup, s, step);
    } else if OfHost(step) {
      HostStepKeepsLedger(setup, s, step);
    } else if step.Show? || step.AckSource? {
      RenderStepKeepsLedger(setup, s, step);
    } else if step.Receive? {
      ReceiveKeepsLedger(setup, s, step.payload, step.at);
    } else if step.SpawnTaken? {
      SpawnTakenKeepsLedger(setup, s, step.h);
    } else {
      TakeStepKeepsLedger(setup, s, step);
    }
  }

  lemma StepKeepsBounds(setup: Setup, s: State, step: Step)
    requires Bounds(setup, s) && Enabled(s, step)
    ensures Bounds(setup, Apply(setup, s, step))
  {
    match step
    case HandOver(w) => A.AddKeepsTable(setup.lib, setup.aggregation, s.table, s.workers[w].n);
    case TimerFires(id, aborted) => A.TimerKeepsTable(setup.aggregation, s.table, id, aborted);
    case FlushNext(aborted) => A.TakeKeepsTable(setup.aggregation, s.table, s.host.left[0], aborted);
    case _ =>
  }

  lemma InitialInvariant(setup: Setup)
    ensures Invariant(setup, Initial(setup))
  {
  }

  lemma {:induction false} RunKeepsInvariant(setup: Setup, s: State, steps: seq<Step>, t: State)
    requires Invariant(setup, s) && Leads(setup, s, steps, t)
    ensures Invariant(setup, t)
    decreases |steps|
  {
    if steps != [] {
      StepKeepsLedger(setup, s, steps[0]);
      StepKeepsBounds(setup, s, steps[0]);
      RunKeepsInvariant(setup, Apply(setup, s, steps[0]), steps[1..], t);
    }
  }

  // ---------------------------------------------------------------------------
  // Conservation, in terms of the state alone

  /** The event with stamp `x` is found at `p`; only the dropped places are known to the ledger alone. */
  ghost predicate FoundAt(s: State, x: nat, p: Place) {
    match p
    case InQueue => QueueHas(s.queue, x)
    case AtWorker(w) => w < |s.workers| && Holds(s.workers[w], x)
    case InBucket(k) => k in s.table.buckets && HasStamp(s.table.buckets[k].events, x)
    case InHand(h) => h < |s.hands| && s.hands[h].open && HasStamp(s.hands[h].events, x)
    case InToast(r) => r < |s.renders| && HasStamp(s.renders[r].toast.sources, x)
    case Dropped(_) => At(s.place, x, p)
  }

  lemma FoundIffLedger(setup: Setup, s: State, x: nat, p: Place)
    requires Ledger(setup, s)
    ensures FoundAt(s, x, p) <==> At(s.place, x, p)
  {
    match p
    case InQueue =>
      if QueueHas(s.queue, x) {
        var i :| 0 <= i < |s.queue| && s.queue[i].stamp == x;
      }
    case AtWorker(w) =>
      if w < |s.workers| {
        assert WorkerOk(setup.lib, s.received, s.workers[w], s.place, w);
      }
    case InBucket(k) =>
      if k in s.table.buckets && HasStamp(s.table.buckets[k].events, x) {
        var i :| 0 <= i < |s.table.buckets[k].events| && s.table.buckets[k].events[i].stamp == x;
      }
    case InHand(h) =>
      if h < |s.hands| && s.hands[h].open && HasStamp(s.hands[h].events, x) {
        var i :| 0 <= i < |s.hands[h].events| && s.hands[h].events[i].stamp == x;
      }
    case InToast(r) =>
      if r < |s.renders| && HasStamp(s.renders[r].toast.sources, x) {
        var i :| 0 <= i < |s.renders[r].toast.sources| && s.renders[r].toast.sources[i].stamp == x;
      }
    case Dropped(_) =>
  }

  ghost predicate InExactlyOnePlace(s: State, x: nat) {
    exists p :: FoundAt(s, x, p) && forall q :: FoundAt(s, x, q) ==> q == p
  }

  lemma ReceivedIsInOnePlace(setup: Setup, s: State, x: nat)
    requires Ledger(setup, s) && 1 <= x <= |s.received|
    ensures InExactlyOnePlace(s, x)
  {
    assert x in s.place;
    FoundIffLedger(setup, s, x, s.place[x]);
    forall q | FoundAt(s, x, q) ensures q == s.place[x] {
      FoundIffLedger(setup, s, x, q);
    }
  }

  /** No queue, bucket, hand or toast holds an event twice. */
  ghost predicate NothingTwice(s: State) {
    && (forall i, j :: 0 <= i < j < |s.queue| ==> s.queue[i].stamp < s.queue[j].stamp)
    && (forall k :: k in s.table.buckets ==> DistinctStamps(s.table.buckets[k].events))
    && (forall h :: 0 <= h < |s.hands| && s.hands[h].open ==> DistinctStamps(s.hands[h].events))
    && (forall r :: 0 <= r < |s.renders| ==> DistinctStamps(s.renders[r].toast.sources))
  }

  /**
   Conservation and at-most-once, over every interleaving: after any run, every
   message received is found in exactly one place, nothing else is found anywhere,
   and no queue, bucket, hand or toast holds an event twice. The queue never exceeds its
   capacity and the open buckets never exceed their limit.
   */
  lemma Conservation(setup: Setup, steps: seq<Step>, s: State)
    requires Leads(setup, Initial(setup), steps, s)
    ensures forall x: nat :: 1 <= x <= |s.received| ==> InExactlyOnePlace(s, x)
    ensures forall x: nat, p :: FoundAt(s, x, p) ==> 1 <= x <= |s.received|
    ensures NothingTwice(s)
    ensures |s.queue| <= setup.queueCapacity
    ensures |s.table.buckets| <= setup.aggregation.maxBuckets
  {
    InitialInvariant(setup);
    RunKeepsInvariant(setup, Initial(setup), steps, s);
    forall x: nat | 1 <= x <= |s.received| ensures InExactlyOnePlace(s, x) {
      ReceivedIsInOnePlace(setup, s, x);
    }
    forall x: nat, p | FoundAt(s, x, p) ensures 1 <= x <= |s.received| {
      FoundIffLedger(setup, s, x, p);
    }
    assert NothingTwice(s) by {
      forall k | k in s.table.buckets ensures DistinctStamps(s.table.buckets[k].events) {
        assert EventsAt(setup.lib, s.received, s.table.buckets[k].events, s.place, InBucket(k));
      }
    }
  }
}
