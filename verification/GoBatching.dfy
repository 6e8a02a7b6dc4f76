/**
 The Go aggregator on its injectable clock (aggregator.go, clock.go): batching
 windows driven by a manually advanced clock. In every sequential run the open
 buckets and the pending timers are in bijection, a bucket's deadline is its
 opening time plus its priority's window whatever is added later, and the timers
 that fire are exactly the ones that are due, in deadline order.
 */
module GoBatching {
  import opened Model
  import opened Sorting
  import opened CrossPort

  const SECOND: int := 1_000_000_000

  datatype Options = Options(maxBuckets: int, importantWindow: int, normalWindow: int)

  /** Zero and negative settings fall back to the defaults. */
  function WithDefaults(o: Options): (r: Options)
    ensures r.maxBuckets > 0 && r.importantWindow > 0 && r.normalWindow > 0
  {
    Options(
      if o.maxBuckets <= 0 then 100 else o.maxBuckets,
      if o.importantWindow <= 0 then 2 * SECOND else o.importantWindow,
      if o.normalWindow <= 0 then 10 * SECOND else o.normalWindow)
  }

  function Window(o: Options, k: Key): int {
    if k.priority == Important then o.importantWindow else o.normalWindow
  }

  /** A scheduled callback; the aggregator's callback is `fire(key)`. */
  datatype FakeTimer = FakeTimer(id: nat, deadline: int, key: Key)

  /** `openedAt` only records when the bucket was created. */
  datatype Bucket = Bucket(events: seq<Notification>, timer: nat, openedAt: int)

  /** Clock and aggregator together; `rendered` and `fired` are the calls made so far. */
  datatype World = World(
    now: int,
    nextId: nat,
    pending: map<nat, FakeTimer>,
    buckets: map<Key, Bucket>,
    dropped: nat,
    rendered: seq<seq<Notification>>,
    fired: seq<nat>)

  function Start(now: int): World {
    World(now, 0, map[], map[], 0, [], [])
  }

  // ---------------------------------------------------------------------------
  // The operations on values

  function AddEvent(o: Options, w: World, n: Notification): World {
    var key := KeyOf(n);
    if n.priority == Critical then w.(rendered := w.rendered + [[n]])
    else if key in w.buckets then
      var b := w.buckets[key];
      w.(buckets := w.buckets[key := b.(events := ArrivalApply(b.events, n))])
    else if |w.buckets| >= o.maxBuckets then w.(dropped := w.dropped + 1)
    else
      var id := w.nextId + 1;
      w.(nextId := id,
         pending := w.pending[id := FakeTimer(id, w.now + Window(o, key), key)],
         buckets := w.buckets[key := Bucket(ArrivalApply([], n), id, w.now)])
  }

  /** A replaceable event is left alone; any other is the last. */
  predicate Appended(events: seq<Notification>, n: Notification, after: seq<Notification>) {
    after == if n.isReplaceable then [n] else events + [n]
  }

  /** Nothing but the buckets, the timers, the counter and the rendered batches named is different. */
  ghost predicate SameClock(w: World, u: World) {
    u.now == w.now && u.fired == w.fired
  }

  /** Where `n` goes, told by its own fields. */
  ghost predicate GoesWhereItShould(o: Options, w: World, n: Notification, u: World) {
    var key := Key(n.aggregationKey, n.priority);
    && SameClock(w, u)
    && u.rendered == (if n.priority == Critical then w.rendered + [[n]] else w.rendered)
    && u.dropped == (if n.priority != Critical && key !in w.buckets && |w.buckets| >= o.maxBuckets
                     then w.dropped + 1 else w.dropped)
    && (if n.priority == Critical || (key !in w.buckets && |w.buckets| >= o.maxBuckets)
        then u.buckets == w.buckets && u.pending == w.pending && u.nextId == w.nextId
        else if key in w.buckets then JoinedOpen(w, n, u, key)
        else OpenedNew(o, w, n, u, key))
  }

  ghost predicate JoinedOpen(w: World, n: Notification, u: World, key: Key)
    requires key in w.buckets
  {
    && u.pending == w.pending && u.nextId == w.nextId && u.buckets.Keys == w.buckets.Keys
    && Appended(w.buckets[key].events, n, u.buckets[key].events)
    && u.buckets[key].timer == w.buckets[key].timer && u.buckets[key].openedAt == w.buckets[key].openedAt
    && forall k :: k in w.buckets && k != key ==> u.buckets[k] == w.buckets[k]
  }

  ghost predicate OpenedNew(o: Options, w: World, n: Notification, u: World, key: Key) {
    var id := w.nextId + 1;
    && u.nextId == id && u.buckets == w.buckets[key := Bucket([n], id, w.now)]
    && u.pending == w.pending[id := FakeTimer(id,
         w.now + if n.priority == Important then o.importantWindow else o.normalWindow, key)]
  }

  /** An addition treats every event by its own priority and aggregation key. */
  lemma AddsExactly(o: Options, w: World, n: Notification)
    ensures GoesWhereItShould(o, w, n, AddEvent(o, w, n))
  {
    assert ArrivalApply([], n) == [n];
  }

  /** `fire`: the bucket, if it is still there, is removed and rendered. */
  function Fire(w: World, t: FakeTimer): World {
    var w' := w.(fired := w.fired + [t.id]);
    if t.key !in w.buckets then w' else
    var events := w.buckets[t.key].events;
    w'.(buckets := w.buckets - {t.key}, rendered := if events == [] then w.rendered else w.rendered + [events])
  }

  function FireAll(w: World, due: seq<FakeTimer>): World {
    if due == [] then w else Fire(FireAll(w, due[..|due| - 1]), due[|due| - 1])
  }

  predicate ByDeadline(a: FakeTimer, b: FakeTimer) {
    a.deadline < b.deadline || (a.deadline == b.deadline && a.id <= b.id)
  }

  predicate IsDue(t: FakeTimer, now: int) {
    t.deadline <= now
  }

  /** The due timers among the ids up to `n`, in id order. */
  function DueUpTo(pending: map<nat, FakeTimer>, now: int, n: nat): seq<FakeTimer> {
    if n == 0 then [] else
    DueUpTo(pending, now, n - 1) + (if n in pending && IsDue(pending[n], now) then [pending[n]] else [])
  }

  /** The due timers in the order they fire. */
  function DueList(w: World, now: int): seq<FakeTimer> {
    Sort(ByDeadline, DueUpTo(w.pending, now, w.nextId))
  }

  function NotDue(pending: map<nat, FakeTimer>, now: int): map<nat, FakeTimer> {
    map id | id in pending && !IsDue(pending[id], now) :: pending[id]
  }

  function Advance(w: World, d: int): World {
    var now := w.now + d;
    FireAll(w.(now := now, pending := NotDue(w.pending, now)), DueList(w, now))
  }

  /** Rendering the buckets of `order` and stopping their timers. */
  function FlushBuckets(w: World, taken: map<Key, Bucket>, order: seq<Key>): World
    requires forall i :: 0 <= i < |order| ==> order[i] in taken
  {
    if order == [] then w else
    var n := |order| - 1;
    var before := FlushBuckets(w, taken, order[..n]);
    var b := taken[order[n]];
    before.(pending := before.pending - {b.timer},
            rendered := if b.events == [] then before.rendered else before.rendered + [b.events])
  }

  function Flush(w: World, order: seq<Key>): World
    requires forall i :: 0 <= i < |order| ==> order[i] in w.buckets
  {
    FlushBuckets(w.(buckets := map[]), w.buckets, order)
  }

  // ---------------------------------------------------------------------------
  // What every run keeps

  /** Open buckets and armed timers are in bijection, each deadline at opening time plus window. */
  ghost predicate Paired(o: Options, buckets: map<Key, Bucket>, armed: map<nat, FakeTimer>) {
    && (forall k :: k in buckets ==> BucketPaired(o, buckets[k], k, armed))
    && (forall id :: id in armed ==> TimerPaired(armed[id], id, buckets))
  }

  ghost predicate BucketPaired(o: Options, b: Bucket, k: Key, armed: map<nat, FakeTimer>) {
    && b.events != [] && HasOnly(b.events, k)
    && b.timer in armed
    && armed[b.timer] == FakeTimer(b.timer, b.openedAt + Window(o, k), k)
  }

  /** All the events name the key and have the priority of `k`, which is not critical. */
  ghost predicate HasOnly(events: seq<Notification>, k: Key) {
    k.priority != Critical && forall i :: 0 <= i < |events| ==> BelongsTo(events[i], k)
  }

  ghost predicate TimerPaired(t: FakeTimer, id: nat, buckets: map<Key, Bucket>) {
    t.id == id && t.key in buckets && buckets[t.key].timer == id
  }

  ghost predicate FiredOnce(w: World) {
    && (forall i, j :: 0 <= i < j < |w.fired| ==> w.fired[i] != w.fired[j])
    && (forall i :: 0 <= i < |w.fired| ==> w.fired[i] <= w.nextId && w.fired[i] !in w.pending)
  }

  ghost predicate Invariant(o: Options, w: World) {
    && Paired(o, w.buckets, w.pending)
    && (forall id :: id in w.pending ==> 1 <= id <= w.nextId && w.pending[id].deadline > w.now)
    && FiredOnce(w)
    && |w.buckets| <= o.maxBuckets
  }

  ghost predicate Sensible(o: Options) {
    o.maxBuckets > 0 && o.importantWindow > 0 && o.normalWindow > 0
  }

  lemma AddKeeps(o: Options, w: World, n: Notification)
    requires Sensible(o) && Invariant(o, w)
    ensures Invariant(o, AddEvent(o, w, n))
  {
    var t := AddEvent(o, w, n);
    if n.priority != Critical && KeyOf(n) in w.buckets {
      JoinKeeps(o, w, n);
    } else if n.priority != Critical && |w.buckets| < o.maxBuckets {
      OpenKeeps(o, w, n);
    }
  }

  lemma AppendKeepsOnly(events: seq<Notification>, n: Notification, k: Key)
    requires HasOnly(events, k)
    ensures ArrivalApply(events, n) != [] && (BelongsTo(n, k) ==> HasOnly(ArrivalApply(events, n), k))
  {
  }

  lemma JoinKeeps(o: Options, w: World, n: Notification)
    requires Invariant(o, w) && n.priority != Critical && KeyOf(n) in w.buckets
    ensures Invariant(o, AddEvent(o, w, n))
  {
    var t := AddEvent(o, w, n);
    assert t.buckets.Keys == w.buckets.Keys;
    forall k | k in t.buckets ensures BucketPaired(o, t.buckets[k], k, t.pending) {
      assert BucketPaired(o, w.buckets[k], k, w.pending);
      AppendKeepsOnly(w.buckets[k].events, n, k);
    }
    forall id | id in t.pending ensures TimerPaired(t.pending[id], id, t.buckets) {
      assert TimerPaired(w.pending[id], id, w.buckets);
    }
  }

  lemma OpenKeeps(o: Options, w: World, n: Notification)
    requires Sensible(o) && Invariant(o, w)
    requires n.priority != Critical && KeyOf(n) !in w.buckets && |w.buckets| < o.maxBuckets
    ensures Invariant(o, AddEvent(o, w, n))
  {
    var t := AddEvent(o, w, n);
    assert |t.buckets| <= |w.buckets| + 1 by {
      assert t.buckets.Keys == w.buckets.Keys + {KeyOf(n)};
    }
    forall k | k in t.buckets ensures BucketPaired(o, t.buckets[k], k, t.pending) {
      if k != KeyOf(n) {
        assert BucketPaired(o, w.buckets[k], k, w.pending);
      }
    }
    forall id | id in t.pending ensures TimerPaired(t.pending[id], id, t.buckets) {
      if id != t.nextId {
        assert TimerPaired(w.pending[id], id, w.buckets);
      }
    }
  }

  /** A later event never moves the deadline of an open bucket. */
  lemma AddNeverExtends(o: Options, w: World, n: Notification, k: Key)
    requires Invariant(o, w) && k in w.buckets
    ensures var t := AddEvent(o, w, n);
      && k in t.buckets && t.buckets[k].timer == w.buckets[k].timer && t.buckets[k].openedAt == w.buckets[k].openedAt
      && t.buckets[k].timer in w.pending && t.buckets[k].timer in t.pending
      && t.pending[t.buckets[k].timer] == w.pending[w.buckets[k].timer]
  {
    assert BucketPaired(o, w.buckets[k], k, w.pending);
  }

  // ---------------------------------------------------------------------------
  // Advancing

  lemma {:induction false} DueUpToExactly(pending: map<nat, FakeTimer>, now: int, n: nat)
    requires forall id :: id in pending ==> pending[id].id == id
    ensures forall t :: t in DueUpTo(pending, now, n) <==>
      1 <= t.id <= n && t.id in pending && pending[t.id] == t && IsDue(t, now)
    ensures forall i, j :: 0 <= i < j < |DueUpTo(pending, now, n)| ==>
      DueUpTo(pending, now, n)[i].id < DueUpTo(pending, now, n)[j].id
  {
    if n > 0 {
      DueUpToExactly(pending, now, n - 1);
      var front := DueUpTo(pending, now, n - 1);
      forall i | 0 <= i < |front| ensures front[i].id < n {
        assert front[i] in front;
      }
    }
  }

  ghost predicate DistinctIds(s: seq<FakeTimer>) {
    forall i, j :: 0 <= i < j < |s| ==> s[i].id != s[j].id
  }

  lemma ByDeadlineIsPreorder()
    ensures TotalPreorder(ByDeadline)
  {
  }

  lemma DistinctAfterSort(s: seq<FakeTimer>)
    requires DistinctIds(s)
    ensures DistinctIds(Sort(ByDeadline, s))
  {
    var t := Sort(ByDeadline, s);
    SortKeepsElements(ByDeadline, s);
    SortKeepsMembers(ByDeadline, s);
    PermutationHasNoDuplicates(s, t);
    forall i, j | 0 <= i < j < |t| ensures t[i].id != t[j].id {
      assert t[i] in t && t[j] in t;
      var p :| 0 <= p < |s| && s[p] == t[i];
      var q :| 0 <= q < |s| && s[q] == t[j];
      assert p != q;
    }
  }

  /** Any collection order sorts to the same list. */
  lemma SortedAlike(s: seq<FakeTimer>, t: seq<FakeTimer>)
    requires DistinctIds(s) && DistinctIds(t) && forall x :: x in s <==> x in t
    ensures Sort(ByDeadline, s) == Sort(ByDeadline, t)
  {
    ByDeadlineIsPreorder();
    SameMembersSameMultiset(s, t);
    SortOrders(ByDeadline, s);
    SortOrders(ByDeadline, t);
    SortKeepsElements(ByDeadline, s);
    SortKeepsElements(ByDeadline, t);
    DistinctAfterSort(s);
    OrderedPermutationsAgree(ByDeadline, Sort(ByDeadline, s), Sort(ByDeadline, t));
  }

  /** Earlier deadlines first, and of equal ones the timer that was set first. */
  ghost predicate InFiringOrder(due: seq<FakeTimer>) {
    forall i, j :: 0 <= i < j < |due| ==>
      due[i].deadline < due[j].deadline || (due[i].deadline == due[j].deadline && due[i].id < due[j].id)
  }

  lemma OrderedDistinctly(due: seq<FakeTimer>)
    requires Ordered(ByDeadline, due) && DistinctIds(due)
    ensures InFiringOrder(due)
  {
    forall i, j | 0 <= i < j < |due|
      ensures due[i].deadline < due[j].deadline || (due[i].deadline == due[j].deadline && due[i].id < due[j].id)
    {
      assert ByDeadline(due[i], due[j]);
    }
  }

  /** What fires in one advance: each due timer once, in deadline order, ties by id. */
  lemma DueListExactly(w: World, now: int)
    requires forall id :: id in w.pending ==> w.pending[id].id == id && 1 <= id <= w.nextId
    ensures forall t :: t in DueList(w, now) <==> t.id in w.pending && w.pending[t.id] == t && t.deadline <= now
    ensures DistinctIds(DueList(w, now)) && InFiringOrder(DueList(w, now))
  {
    DueUpToExactly(w.pending, now, w.nextId);
    SortKeepsMembers(ByDeadline, DueUpTo(w.pending, now, w.nextId));
    DistinctAfterSort(DueUpTo(w.pending, now, w.nextId));
    ByDeadlineIsPreorder();
    SortOrders(ByDeadline, DueUpTo(w.pending, now, w.nextId));
    OrderedDistinctly(DueList(w, now));
  }

  function Ids(due: seq<FakeTimer>): set<nat> {
    set t | t in due :: t.id
  }

  lemma IdsOfMore(due: seq<FakeTimer>, t: FakeTimer)
    ensures Ids(due + [t]) == Ids(due) + {t.id}
  {
    forall x ensures x in Ids(due + [t]) <==> x in Ids(due) + {t.id} {
      if x in Ids(due) {
        var u :| u in due && u.id == x;
        assert u in due + [t];
      }
      if x == t.id {
        assert t in due + [t];
      }
    }
  }

  /** One callback removes its own bucket and nothing else. */
  lemma FireKeepsPaired(o: Options, buckets: map<Key, Bucket>, armed: map<nat, FakeTimer>, t: FakeTimer)
    requires Paired(o, buckets, armed) && t.id in armed && armed[t.id] == t
    ensures Paired(o, buckets - {t.key}, armed - {t.id})
  {
    assert TimerPaired(t, t.id, buckets);
    var buckets', armed' := buckets - {t.key}, armed - {t.id};
    forall k | k in buckets' ensures BucketPaired(o, buckets'[k], k, armed') {
      assert BucketPaired(o, buckets[k], k, armed);
    }
    forall id | id in armed' ensures TimerPaired(armed'[id], id, buckets') {
      assert TimerPaired(armed[id], id, buckets);
    }
  }

  /** The contents of the buckets of `keys`, in that order. */
  function Batches(buckets: map<Key, Bucket>, keys: seq<Key>): seq<seq<Notification>>
    requires forall i :: 0 <= i < |keys| ==> keys[i] in buckets
  {
    seq(|keys|, i requires 0 <= i < |keys| => buckets[keys[i]].events)
  }

  function KeyList(due: seq<FakeTimer>): (r: seq<Key>)
    ensures |r| == |due| && forall i :: 0 <= i < |r| ==> r[i] == due[i].key
  {
    seq(|due|, i requires 0 <= i < |due| => due[i].key)
  }

  /** The keys of the timers in `due`. */
  ghost function KeySet(due: seq<FakeTimer>): set<Key> {
    set k | k in KeyList(due)
  }

  ghost predicate AllArmed(due: seq<FakeTimer>, armed: map<nat, FakeTimer>) {
    forall i :: 0 <= i < |due| ==> due[i].id in armed && armed[due[i].id] == due[i]
  }

  /** The callbacks of distinct armed timers, run in turn. */
  lemma {:induction false} FireAllKeepsPaired(o: Options, w: World, armed: map<nat, FakeTimer>, due: seq<FakeTimer>)
    requires Paired(o, w.buckets, armed) && DistinctIds(due) && AllArmed(due, armed)
    ensures var t := FireAll(w, due);
      && Paired(o, t.buckets, armed - Ids(due))
      && t.now == w.now && t.nextId == w.nextId && t.pending == w.pending && t.dropped == w.dropped
    decreases |due|
  {
    if due == [] {
      assert armed - Ids(due) == armed;
    } else {
      var n := |due| - 1;
      var front, last := due[..n], due[n];
      FireAllKeepsPaired(o, w, armed, front);
      assert due == front + [last];
      assert last.id !in Ids(front);
      FireLastKeepsPaired(o, FireAll(w, front), armed, front, last);
    }
  }

  lemma FireLastKeepsPaired(o: Options, before: World, armed: map<nat, FakeTimer>, front: seq<FakeTimer>,
      last: FakeTimer)
    requires Paired(o, before.buckets, armed - Ids(front))
    requires last.id in armed && armed[last.id] == last && last.id !in Ids(front)
    ensures Paired(o, Fire(before, last).buckets, armed - Ids(front + [last]))
  {
    var left := armed - Ids(front);
    assert TimerPaired(last, last.id, before.buckets) by {
      assert last.id in left && left[last.id] == last;
    }
    FireKeepsPaired(o, before.buckets, left, last);
    IdsOfMore(front, last);
    assert left - {last.id} == armed - Ids(front + [last]);
  }

  function IdList(due: seq<FakeTimer>): (r: seq<nat>)
    ensures |r| == |due| && forall i :: 0 <= i < |r| ==> r[i] == due[i].id
  {
    seq(|due|, i requires 0 <= i < |due| => due[i].id)
  }

  lemma {:induction false} FireAllRecords(w: World, due: seq<FakeTimer>)
    ensures FireAll(w, due).fired == w.fired + IdList(due)
    ensures |FireAll(w, due).buckets| <= |w.buckets|
    decreases |due|
  {
    if due == [] {
      assert IdList(due) == [];
    } else {
      var n := |due| - 1;
      FireAllRecords(w, due[..n]);
      assert IdList(due) == IdList(due[..n]) + [due[n].id];
      var before := FireAll(w, due[..n]);
      if due[n].key in before.buckets {
        assert (before.buckets - {due[n].key}).Keys == before.buckets.Keys - {due[n].key};
      }
    }
  }

  lemma NotDueIsRest(o: Options, w: World, now: int)
    requires Invariant(o, w)
    ensures NotDue(w.pending, now) == w.pending - Ids(DueList(w, now))
    ensures DistinctIds(DueList(w, now)) && AllArmed(DueList(w, now), w.pending)
  {
    forall id | id in w.pending ensures w.pending[id].id == id && 1 <= id <= w.nextId {
      assert TimerPaired(w.pending[id], id, w.buckets);
    }
    DueListExactly(w, now);
    var due := DueList(w, now);
    forall i | 0 <= i < |due| ensures due[i].id in w.pending && w.pending[due[i].id] == due[i] {
      assert due[i] in due;
    }
    forall id | id in w.pending ensures IsDue(w.pending[id], now) <==> id in Ids(due) {
      if IsDue(w.pending[id], now) {
        assert w.pending[id] in due;
      }
    }
  }

  lemma AdvanceEffect(o: Options, w: World, d: int)
    requires Invariant(o, w)
    ensures var t := Advance(w, d);
      && t.now == w.now + d && t.nextId == w.nextId && t.dropped == w.dropped
      && t.pending == NotDue(w.pending, t.now)
      && Paired(o, t.buckets, t.pending)
      && |t.buckets| <= |w.buckets|
      && t.fired == w.fired + IdList(DueList(w, t.now))
  {
    var now := w.now + d;
    var due := DueList(w, now);
    assert NotDue(w.pending, now) == w.pending - Ids(due) && DistinctIds(due) && AllArmed(due, w.pending) by {
      NotDueIsRest(o, w, now);
    }
    FireDueEffect(o, w, now, due);
  }

  lemma FireDueEffect(o: Options, w: World, now: int, due: seq<FakeTimer>)
    requires Paired(o, w.buckets, w.pending) && DistinctIds(due) && AllArmed(due, w.pending)
    requires NotDue(w.pending, now) == w.pending - Ids(due)
    ensures var t := FireAll(w.(now := now, pending := NotDue(w.pending, now)), due);
      && t.now == now && t.nextId == w.nextId && t.dropped == w.dropped
      && t.pending == NotDue(w.pending, now)
      && Paired(o, t.buckets, t.pending)
      && |t.buckets| <= |w.buckets|
      && t.fired == w.fired + IdList(due)
  {
    var start := w.(now := now, pending := NotDue(w.pending, now));
    FireAllKeepsPaired(o, start, w.pending, due);
    FireAllRecords(start, due);
  }

  lemma FiredStaysOnce(o: Options, w: World, now: int, t: World)
    requires Invariant(o, w) && t.nextId == w.nextId && t.pending == NotDue(w.pending, now)
    requires t.fired == w.fired + IdList(DueList(w, now))
    ensures FiredOnce(t)
  {
    NotDueIsRest(o, w, now);
    var due := DueList(w, now);
    var ids := IdList(due);
    forall i | 0 <= i < |ids| ensures ids[i] in w.pending && ids[i] <= w.nextId && ids[i] !in t.pending {
      assert due[i] in due && ids[i] in Ids(due);
    }
  }

  lemma AdvanceKeeps(o: Options, w: World, d: int)
    requires Invariant(o, w)
    ensures Invariant(o, Advance(w, d))
  {
    AdvanceEffect(o, w, d);
    FiredStaysOnce(o, w, w.now + d, Advance(w, d));
  }

  /** After an advance a bucket is still open exactly when its deadline has not come. */
  lemma AdvanceClosesExactlyDue(o: Options, w: World, d: int, k: Key)
    requires Invariant(o, w) && k in w.buckets
    ensures k in Advance(w, d).buckets <==> w.buckets[k].openedAt + Window(o, k) > w.now + d
  {
    AdvanceEffect(o, w, d);
    var t := Advance(w, d);
    assert BucketPaired(o, w.buckets[k], k, w.pending);
    var id := w.buckets[k].timer;
    if id in t.pending {
      assert TimerPaired(t.pending[id], id, t.buckets);
    }
    if k in t.buckets {
      assert BucketPaired(o, t.buckets[k], k, t.pending);
      assert TimerPaired(w.pending[t.buckets[k].timer], t.buckets[k].timer, w.buckets);
    }
  }

  /** Distinct armed timers have distinct buckets. */
  lemma ArmedKeysDiffer(o: Options, buckets: map<Key, Bucket>, armed: map<nat, FakeTimer>, due: seq<FakeTimer>)
    requires Paired(o, buckets, armed) && DistinctIds(due) && AllArmed(due, armed)
    ensures forall i :: 0 <= i < |due| ==> due[i].key in buckets && buckets[due[i].key].events != []
    ensures forall i, j :: 0 <= i < j < |due| ==> due[i].key != due[j].key
  {
    forall i | 0 <= i < |due|
      ensures due[i].key in buckets && buckets[due[i].key].timer == due[i].id && buckets[due[i].key].events != []
    {
      assert TimerPaired(armed[due[i].id], due[i].id, buckets);
      assert BucketPaired(o, buckets[due[i].key], due[i].key, armed);
    }
  }

  lemma {:induction false} FireAllRenders(w: World, due: seq<FakeTimer>)
    requires forall i :: 0 <= i < |due| ==> due[i].key in w.buckets && w.buckets[due[i].key].events != []
    requires forall i, j :: 0 <= i < j < |due| ==> due[i].key != due[j].key
    ensures FireAll(w, due).rendered == w.rendered + Batches(w.buckets, KeyList(due))
    ensures FireAll(w, due).buckets == w.buckets - (set k | k in KeyList(due))
    decreases |due|
  {
    if due == [] {
      assert KeyList(due) == [] && Batches(w.buckets, []) == [];
      assert w.buckets - (set k | k in KeyList(due)) == w.buckets;
    } else {
      var n := |due| - 1;
      var front, last := due[..n], due[n];
      FireAllRenders(w, front);
      FireAllRendersLast(w, front, last, FireAll(w, front));
      assert due == front + [last];
    }
  }

  lemma FireAllRendersLast(w: World, front: seq<FakeTimer>, last: FakeTimer, before: World)
    requires forall i :: 0 <= i < |front| ==> front[i].key in w.buckets && front[i].key != last.key
    requires last.key in w.buckets && w.buckets[last.key].events != []
    requires before.rendered == w.rendered + Batches(w.buckets, KeyList(front))
    requires before.buckets == w.buckets - (set k | k in KeyList(front))
    ensures Fire(before, last).rendered == w.rendered + Batches(w.buckets, KeyList(front + [last]))
    ensures Fire(before, last).buckets == w.buckets - (set k | k in KeyList(front + [last]))
  {
    var keys, more := KeyList(front), KeyList(front + [last]);
    assert more == keys + [last.key];
    assert last.key !in keys;
    assert Batches(w.buckets, more) == Batches(w.buckets, keys) + [w.buckets[last.key].events];
    assert (set k | k in more) == (set k | k in keys) + {last.key};
  }

  lemma FiresInOrder(o: Options, w: World, now: int)
    requires Invariant(o, w)
    ensures InFiringOrder(DueList(w, now))
  {
    forall id | id in w.pending ensures w.pending[id].id == id && 1 <= id <= w.nextId {
      assert TimerPaired(w.pending[id], id, w.buckets);
    }
    DueListExactly(w, now);
  }

  /** An advance renders exactly the due buckets, whole, in deadline order. */
  lemma AdvanceRendersDue(o: Options, w: World, d: int)
    requires Invariant(o, w)
    ensures var due := DueList(w, w.now + d);
      && (forall i :: 0 <= i < |due| ==> due[i].key in w.buckets)
      && Advance(w, d).rendered == w.rendered + Batches(w.buckets, KeyList(due))
      && Advance(w, d).buckets == w.buckets - KeySet(due)
      && InFiringOrder(due)
  {
    var now := w.now + d;
    FiresInOrder(o, w, now);
    NotDueIsRest(o, w, now);
    FireDueRenders(o, w, now, DueList(w, now));
  }

  lemma FireDueRenders(o: Options, w: World, now: int, due: seq<FakeTimer>)
    requires Paired(o, w.buckets, w.pending) && DistinctIds(due) && AllArmed(due, w.pending)
    ensures forall i :: 0 <= i < |due| ==> due[i].key in w.buckets
    ensures FireAll(w.(now := now, pending := NotDue(w.pending, now)), due).rendered
      == w.rendered + Batches(w.buckets, KeyList(due))
    ensures FireAll(w.(now := now, pending := NotDue(w.pending, now)), due).buckets == w.buckets - KeySet(due)
  {
    ArmedKeysDiffer(o, w.buckets, w.pending, due);
    FireAllRenders(w.(now := now, pending := NotDue(w.pending, now)), due);
  }

  // ---------------------------------------------------------------------------
  // Flushing

  function TimersOf(taken: map<Key, Bucket>, order: seq<Key>): set<nat>
    requires forall i :: 0 <= i < |order| ==> order[i] in taken
  {
    set i | 0 <= i < |order| :: taken[order[i]].timer
  }

  lemma TimersStopped(taken: map<Key, Bucket>, order: seq<Key>)
    requires order != [] && forall i :: 0 <= i < |order| ==> order[i] in taken
    ensures TimersOf(taken, order) == TimersOf(taken, order[..|order| - 1]) + {taken[order[|order| - 1]].timer}
  {
    var n := |order| - 1;
    forall id ensures id in TimersOf(taken, order) <==> id in TimersOf(taken, order[..n]) + {taken[order[n]].timer} {
      if id in TimersOf(taken, order[..n]) {
        var i :| 0 <= i < n && taken[order[..n][i]].timer == id;
        assert order[i] == order[..n][i];
      }
      if id in TimersOf(taken, order) {
        var i :| 0 <= i <= n && taken[order[i]].timer == id;
        assert i < n ==> order[..n][i] == order[i];
      }
    }
  }

  lemma {:induction false} FlushBucketsEffect(w: World, taken: map<Key, Bucket>, order: seq<Key>)
    requires forall i :: 0 <= i < |order| ==> order[i] in taken && taken[order[i]].events != []
    ensures var t := FlushBuckets(w, taken, order);
      && t.now == w.now && t.nextId == w.nextId && t.buckets == w.buckets
      && t.dropped == w.dropped && t.fired == w.fired
      && t.rendered == w.rendered + Batches(taken, order)
      && (forall id :: id in t.pending <==> id in w.pending && id !in TimersOf(taken, order))
    decreases |order|
  {
    if order == [] {
      assert Batches(taken, order) == [];
    } else {
      var n := |order| - 1;
      FlushBucketsEffect(w, taken, order[..n]);
      assert Batches(taken, order) == Batches(taken, order[..n]) + [taken[order[n]].events];
      TimersStopped(taken, order);
    }
  }

  lemma TimerIsFlushed(o: Options, w: World, order: seq<Key>, id: nat)
    requires Paired(o, w.buckets, w.pending) && id in w.pending
    requires Enumerates(order, w.buckets.Keys) && forall i :: 0 <= i < |order| ==> order[i] in w.buckets
    ensures id in TimersOf(w.buckets, order)
  {
    assert TimerPaired(w.pending[id], id, w.buckets);
    assert w.pending[id].key in order;
    var i :| 0 <= i < |order| && order[i] == w.pending[id].key;
    assert w.buckets[order[i]].timer == id;
  }

  /** A flush renders every open bucket once, stops every timer and leaves nothing pending. */
  lemma FlushLeavesNothing(o: Options, w: World, order: seq<Key>)
    requires Invariant(o, w) && Enumerates(order, w.buckets.Keys)
    ensures forall i :: 0 <= i < |order| ==> order[i] in w.buckets
    ensures var t := Flush(w, order);
      && t.buckets == map[] && t.pending == map[]
      && t.rendered == w.rendered + Batches(w.buckets, order)
      && t.dropped == w.dropped && Invariant(o, t)
  {
    forall i | 0 <= i < |order| ensures order[i] in w.buckets && w.buckets[order[i]].events != [] {
      assert order[i] in order;
      assert BucketPaired(o, w.buckets[order[i]], order[i], w.pending);
    }
    FlushBucketsEffect(w.(buckets := map[]), w.buckets, order);
    var t := Flush(w, order);
    forall id | id in w.pending ensures id !in t.pending {
      TimerIsFlushed(o, w, order, id);
    }
    assert t.pending == map[];
  }

  // ---------------------------------------------------------------------------
  // Every run

  datatype Operation = DoAdd(n: Notification) | DoAdvance(d: int) | DoFlush(order: seq<Key>)

  ghost predicate Possible(w: World, op: Operation) {
    op.DoFlush? ==> Enumerates(op.order, w.buckets.Keys)
  }

  ghost function Perform(o: Options, w: World, op: Operation): World
    requires Possible(w, op)
  {
    match op
    case DoAdd(n) => AddEvent(o, w, n)
    case DoAdvance(d) => Advance(w, d)
    case DoFlush(order) =>
      assert forall i :: 0 <= i < |order| ==> order[i] in order;
      Flush(w, order)
  }

  ghost predicate Leads(o: Options, w: World, ops: seq<Operation>, t: World)
    decreases |ops|
  {
    if ops == [] then w == t
    else Possible(w, ops[0]) && Leads(o, Perform(o, w, ops[0]), ops[1..], t)
  }

  lemma PerformKeeps(o: Options, w: World, op: Operation)
    requires Sensible(o) && Invariant(o, w) && Possible(w, op)
    ensures Invariant(o, Perform(o, w, op))
  {
    match op
    case DoAdd(n) => AddKeeps(o, w, n);
    case DoAdvance(d) => AdvanceKeeps(o, w, d);
    case DoFlush(order) => FlushLeavesNothing(o, w, order);
  }

  lemma {:induction false} RunKeeps(o: Options, w: World, ops: seq<Operation>, t: World)
    requires Sensible(o) && Invariant(o, w) && Leads(o, w, ops, t)
    ensures Invariant(o, t)
    decreases |ops|
  {
    if ops != [] {
      PerformKeeps(o, w, ops[0]);
      RunKeeps(o, Perform(o, w, ops[0]), ops[1..], t);
    }
  }

  /** The bucket's own timer is pending, for `deadline`, which lies ahead of the clock. */
  ghost predicate HasDeadline(w: World, k: Key, deadline: int) {
    && k in w.buckets && w.buckets[k].timer in w.pending
    && w.pending[w.buckets[k].timer] == FakeTimer(w.buckets[k].timer, deadline, k)
    && deadline > w.now
  }

  /**
   In every sequential run of adds, advances and flushes, whatever the settings: open
   buckets and pending timers are in bijection, every deadline is the bucket's opening
   time plus its priority's window and lies ahead of the clock, no timer has fired
   twice, and the buckets are within their limit.
   */
  lemma BoundedBatchingDelay(settings: Options, start: int, ops: seq<Operation>, w: World)
    requires Leads(WithDefaults(settings), Start(start), ops, w)
    ensures Invariant(WithDefaults(settings), w)
    ensures forall k :: k in w.buckets ==> HasDeadline(w, k,
      w.buckets[k].openedAt +
        if k.priority == Important
        then (if settings.importantWindow <= 0 then 2_000_000_000 else settings.importantWindow)
        else (if settings.normalWindow <= 0 then 10_000_000_000 else settings.normalWindow))
    ensures |w.buckets| <= if settings.maxBuckets <= 0 then 100 else settings.maxBuckets
  {
    var o := WithDefaults(settings);
    RunKeeps(o, Start(start), ops, w);
    forall k | k in w.buckets ensures HasDeadline(w, k, w.buckets[k].openedAt + Window(o, k)) {
      assert BucketPaired(o, w.buckets[k], k, w.pending);
    }
  }
}
