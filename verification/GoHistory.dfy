/**
 What was added to each bucket of the Go aggregator. A history kept beside a run of adds,
 advances and flushes records, for every open bucket, the events added for its aggregation
 key and priority since it opened; for every batch rendered, the events added to the bucket
 it came from; and the events turned away. It knows nothing of timers or of what a bucket
 keeps. In every run each bucket and each batch is the arrival-order bucket of what was
 added, so what `CrossPort` proves of arrival sequences holds of the aggregator.
 */
module GoHistory {
  import opened Model
  import opened Sorting
  import opened CrossPort
  import opened GoBatching

  datatype History = History(
    open: map<Key, seq<Notification>>,
    shown: seq<seq<Notification>>,
    turnedAway: seq<Notification>)

  const NOTHING: History := History(map[], [], [])

  /** `n` is added. */
  function AfterAdd(maxBuckets: int, h: History, n: Notification): History {
    var key := Key(n.aggregationKey, n.priority);
    if n.priority == Critical then h.(shown := h.shown + [[n]])
    else if key in h.open then h.(open := h.open[key := h.open[key] + [n]])
    else if |h.open| >= maxBuckets then h.(turnedAway := h.turnedAway + [n])
    else h.(open := h.open[key := [n]])
  }

  function Added(h: History, keys: seq<Key>): (r: seq<seq<Notification>>)
    ensures |r| == |keys|
    ensures forall i :: 0 <= i < |r| ==> r[i] == if keys[i] in h.open then h.open[keys[i]] else []
  {
    seq(|keys|, i requires 0 <= i < |keys| => if keys[i] in h.open then h.open[keys[i]] else [])
  }

  /** The buckets of `keys` are rendered, in that order. */
  function AfterClose(h: History, keys: seq<Key>): History {
    h.(open := h.open - (set k | k in keys), shown := h.shown + Added(h, keys))
  }

  ghost function AfterOperation(o: Options, w: World, h: History, op: Operation): History {
    match op
    case DoAdd(n) => AfterAdd(o.maxBuckets, h, n)
    case DoAdvance(d) => AfterClose(h, KeyList(DueList(w, w.now + d)))
    case DoFlush(order) => AfterClose(h, order)
  }

  /** The history once `ops` are done. */
  ghost function Along(o: Options, w: World, h: History, ops: seq<Operation>): History
    decreases |ops|
  {
    if ops == [] || !Possible(w, ops[0]) then h
    else Along(o, Perform(o, w, ops[0]), AfterOperation(o, w, h, ops[0]), ops[1..])
  }

  /** `events` is what the arrival order leaves of `added`. */
  ghost predicate IsLeftOf(added: seq<Notification>, events: seq<Notification>) {
    added != [] && events == ArrivalBucket(added)
  }

  ghost predicate Remembers(w: World, h: History) {
    && h.open.Keys == w.buckets.Keys
    && (forall k :: k in w.buckets ==> IsLeftOf(h.open[k], w.buckets[k].events) && HasOnly(h.open[k], k))
    && |h.shown| == |w.rendered|
    && (forall i :: 0 <= i < |h.shown| ==> IsLeftOf(h.shown[i], w.rendered[i]))
    && w.dropped == |h.turnedAway|
  }

  lemma OneMoreIsLeft(added: seq<Notification>, n: Notification)
    ensures ArrivalBucket(added + [n]) == ArrivalApply(ArrivalBucket(added), n)
  {
    assert (added + [n])[..|added|] == added;
  }

  lemma AloneIsLeft(n: Notification)
    ensures IsLeftOf([n], [n])
  {
    OneMoreIsLeft([], n);
    assert [] + [n] == [n];
  }

  /** The bucket of `key` holds `events`, which are left of `added`; the others are as they were. */
  lemma BucketRemembers(w: World, h: History, key: Key, added: seq<Notification>, b: Bucket, t: World)
    requires Remembers(w, h) && IsLeftOf(added, b.events) && HasOnly(added, key)
    requires t.buckets == w.buckets[key := b] && t.rendered == w.rendered && t.dropped == w.dropped
    ensures Remembers(t, h.(open := h.open[key := added]))
  {
    var open := h.open[key := added];
    assert open.Keys == t.buckets.Keys;
    forall k | k in t.buckets ensures IsLeftOf(open[k], t.buckets[k].events) && HasOnly(open[k], k) {
      assert k != key ==> IsLeftOf(h.open[k], w.buckets[k].events) && HasOnly(h.open[k], k);
    }
  }

  lemma JoinRemembers(o: Options, w: World, h: History, n: Notification, key: Key)
    requires Remembers(w, h) && key == Key(n.aggregationKey, n.priority) && n.priority != Critical && key in w.buckets
    ensures Remembers(AddEvent(o, w, n), h.(open := h.open[key := h.open[key] + [n]]))
  {
    var b := w.buckets[key];
    assert IsLeftOf(h.open[key], b.events) && HasOnly(h.open[key], key);
    OneMoreIsLeft(h.open[key], n);
    BucketRemembers(w, h, key, h.open[key] + [n], b.(events := ArrivalApply(b.events, n)), AddEvent(o, w, n));
  }

  lemma OpenRemembers(o: Options, w: World, h: History, n: Notification, key: Key)
    requires Remembers(w, h) && key == Key(n.aggregationKey, n.priority) && n.priority != Critical
    requires key !in w.buckets && |w.buckets| < o.maxBuckets
    ensures Remembers(AddEvent(o, w, n), h.(open := h.open[key := [n]]))
  {
    AloneIsLeft(n);
    assert ArrivalApply([], n) == [n];
    BucketRemembers(w, h, key, [n], Bucket([n], w.nextId + 1, w.now), AddEvent(o, w, n));
  }

  lemma AddRemembers(o: Options, w: World, h: History, n: Notification)
    requires Remembers(w, h)
    ensures Remembers(AddEvent(o, w, n), AfterAdd(o.maxBuckets, h, n))
  {
    var key := Key(n.aggregationKey, n.priority);
    assert |h.open| == |h.open.Keys| == |w.buckets.Keys| == |w.buckets|;
    if n.priority == Critical {
      AloneIsLeft(n);
    } else if key in w.buckets {
      JoinRemembers(o, w, h, n, key);
    } else if |w.buckets| < o.maxBuckets {
      OpenRemembers(o, w, h, n, key);
    }
  }

  /** Batches rendered whole are what is left of what was added to their buckets. */
  lemma CloseRemembers(w: World, h: History, keys: seq<Key>, t: World)
    requires Remembers(w, h) && forall i :: 0 <= i < |keys| ==> keys[i] in w.buckets
    requires t.buckets == w.buckets - (set k | k in keys) && t.dropped == w.dropped
    requires t.rendered == w.rendered + Batches(w.buckets, keys)
    ensures Remembers(t, AfterClose(h, keys))
  {
    var g := AfterClose(h, keys);
    assert g.open.Keys == t.buckets.Keys;
    forall i | 0 <= i < |g.shown| ensures IsLeftOf(g.shown[i], t.rendered[i]) {
      if i >= |h.shown| {
        var k := keys[i - |h.shown|];
        assert g.shown[i] == h.open[k] && t.rendered[i] == w.buckets[k].events;
      }
    }
  }

  lemma AdvanceRemembers(o: Options, w: World, h: History, d: int)
    requires Invariant(o, w) && Remembers(w, h)
    ensures Remembers(Advance(w, d), AfterClose(h, KeyList(DueList(w, w.now + d))))
  {
    AdvanceRendersDue(o, w, d);
    AdvanceEffect(o, w, d);
    CloseRemembers(w, h, KeyList(DueList(w, w.now + d)), Advance(w, d));
  }

  lemma FlushRemembers(o: Options, w: World, h: History, order: seq<Key>)
    requires Invariant(o, w) && Remembers(w, h) && Enumerates(order, w.buckets.Keys)
    ensures forall i :: 0 <= i < |order| ==> order[i] in w.buckets
    ensures Remembers(Flush(w, order), AfterClose(h, order))
  {
    FlushLeavesNothing(o, w, order);
    assert (set k | k in order) == w.buckets.Keys;
    CloseRemembers(w, h, order, Flush(w, order));
  }

  lemma FlushOperationRemembers(o: Options, w: World, h: History, op: Operation)
    requires Invariant(o, w) && Remembers(w, h) && op.DoFlush? && Possible(w, op)
    ensures Remembers(Perform(o, w, op), AfterOperation(o, w, h, op))
  {
    FlushRemembers(o, w, h, op.order);
  }

  lemma AddOperationRemembers(o: Options, w: World, h: History, op: Operation)
    requires Remembers(w, h) && op.DoAdd?
    ensures Remembers(Perform(o, w, op), AfterOperation(o, w, h, op))
  {
    AddRemembers(o, w, h, op.n);
  }

  lemma AdvanceOperationRemembers(o: Options, w: World, h: History, op: Operation)
    requires Invariant(o, w) && Remembers(w, h) && op.DoAdvance?
    ensures Remembers(Perform(o, w, op), AfterOperation(o, w, h, op))
  {
    AdvanceRemembers(o, w, h, op.d);
  }

  lemma OperationRemembers(o: Options, w: World, h: History, op: Operation)
    requires Invariant(o, w) && Remembers(w, h) && Possible(w, op)
    ensures Remembers(Perform(o, w, op), AfterOperation(o, w, h, op))
  {
    if op.DoAdd? {
      AddOperationRemembers(o, w, h, op);
    } else if op.DoAdvance? {
      AdvanceOperationRemembers(o, w, h, op);
    } else {
      FlushOperationRemembers(o, w, h, op);
    }
  }

  lemma {:induction false} RunRemembers(o: Options, w: World, h: History, ops: seq<Operation>, t: World)
    requires Sensible(o) && Invariant(o, w) && Remembers(w, h) && Leads(o, w, ops, t)
    ensures Remembers(t, Along(o, w, h, ops))
    decreases |ops|
  {
    if ops != [] {
      PerformKeeps(o, w, ops[0]);
      OperationRemembers(o, w, h, ops[0]);
      RunRemembers(o, Perform(o, w, ops[0]), AfterOperation(o, w, h, ops[0]), ops[1..], t);
    }
  }

  /** The settings in force, in numbers. */
  function InForce(settings: Options): Options {
    Options(
      if settings.maxBuckets <= 0 then 100 else settings.maxBuckets,
      if settings.importantWindow <= 0 then 2_000_000_000 else settings.importantWindow,
      if settings.normalWindow <= 0 then 10_000_000_000 else settings.normalWindow)
  }

  /**
   In every sequential run, whatever the settings: every open bucket is what the arrival
   order leaves of the events added for its aggregation key and priority since it opened;
   every rendered batch is that of its bucket, or the critical event itself; and as many
   events were dropped as were turned away at a full table with no bucket for them.
   */
  lemma BucketsFollowTheirArrivals(settings: Options, start: int, ops: seq<Operation>, w: World)
    requires Leads(WithDefaults(settings), Start(start), ops, w)
    ensures Remembers(w, Along(InForce(settings), Start(start), NOTHING, ops))
  {
    var o := WithDefaults(settings);
    assert o == InForce(settings);
    RunRemembers(o, Start(start), NOTHING, ops, w);
  }

  /**
   Wherever a run adds an event: it goes where its own priority and aggregation key send it,
   a critical one is rendered by itself at once, and the counter of drops rises exactly if
   it is not critical, its bucket is not open and the table is full.
   */
  lemma AddsInEveryRun(settings: Options, start: int, ops: seq<Operation>, w: World, n: Notification)
    requires Leads(WithDefaults(settings), Start(start), ops, w)
    ensures var u := Perform(WithDefaults(settings), w, DoAdd(n));
      && GoesWhereItShould(InForce(settings), w, n, u)
      && (u.dropped > w.dropped <==>
            && n.priority != Critical && Key(n.aggregationKey, n.priority) !in w.buckets
            && |w.buckets| >= if settings.maxBuckets <= 0 then 100 else settings.maxBuckets)
  {
    AddsExactly(InForce(settings), w, n);
  }
}
