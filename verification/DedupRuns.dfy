/** What whole runs of the duplicate cache guarantee, over every sequence of calls. */
module DedupRuns {
  import opened Dedup

  /** One call, in lock order; `now` is the reading taken before the lock. */
  datatype Call = Call(key: string, now: int)

  datatype Run = Run(cache: Cache, accepted: seq<Call>, answers: seq<bool>)

  /** One more call at the end of a run. */
  function Extend(lim: Limits, r: Run, call: Call): Run {
    var answer := Offer(lim, r.cache, call.key, call.now);
    Run(answer.cache,
        if answer.accepted then r.accepted + [call] else r.accepted,
        r.answers + [answer.accepted])
  }

  function Execute(lim: Limits, calls: seq<Call>): Run {
    if calls == [] then Run(EMPTY, [], []) else
    Extend(lim, Execute(lim, calls[..|calls| - 1]), calls[|calls| - 1])
  }

  lemma ExecuteMore(lim: Limits, calls: seq<Call>, call: Call)
    ensures Execute(lim, calls + [call]) == Extend(lim, Execute(lim, calls), call)
  {
    assert (calls + [call])[..|calls|] == calls;
  }

  // ---------------------------------------------------------------------------
  // Agreement of map and queue

  ghost predicate Fits(lim: Limits, c: Cache) {
    Agrees(c) && |c.expiry| <= lim.capacity
  }

  lemma ExtendFits(lim: Limits, r: Run, call: Call)
    requires lim.capacity >= 1 && lim.ttl > 0 && Fits(lim, r.cache)
    ensures Fits(lim, Extend(lim, r, call).cache)
  {
    OfferKeepsAgreement(lim, r.cache, call.key, call.now);
  }

  lemma {:induction false} AgreementInEveryRun(lim: Limits, calls: seq<Call>)
    requires lim.capacity >= 1 && lim.ttl > 0
    ensures Fits(lim, Execute(lim, calls).cache)
    decreases |calls|
  {
    if calls != [] {
      var n := |calls| - 1;
      AgreementInEveryRun(lim, calls[..n]);
      ExtendFits(lim, Execute(lim, calls[..n]), calls[n]);
    }
  }

  ghost predicate Singleton(c: Cache) {
    Agrees(c) && |c.order| <= 1
  }

  lemma PurgeKeepsSingleton(c: Cache, now: int)
    requires Singleton(c)
    ensures Singleton(Purge(c, now))
  {
    PurgeKeeps(c, now);
    if c.order != [] && c.order[0].expires <= now {
      assert DequeueOne(c).order == [];
    }
  }

  lemma EvictEmptiesSingleton(c: Cache)
    requires Singleton(c)
    ensures Evict(c, 1) == EMPTY
  {
    EvictKeeps(c, 1);
    if c.order != [] {
      assert IsBound(c, 0);
      assert |c.expiry.Keys - {c.order[0].key}| == |c.expiry.Keys| - 1;
      assert DequeueOne(c).order == [];
    }
    assert Evict(c, 1).expiry == map[];
  }

  lemma {:induction false} CapacityOneAgrees(lim: Limits, calls: seq<Call>)
    requires lim.capacity == 1
    ensures Singleton(Execute(lim, calls).cache)
    decreases |calls|
  {
    if calls != [] {
      var n := |calls| - 1;
      CapacityOneAgrees(lim, calls[..n]);
      ExtendKeepsSingleton(lim, Execute(lim, calls[..n]), calls[n]);
    }
  }

  lemma ExtendKeepsSingleton(lim: Limits, r: Run, call: Call)
    requires lim.capacity == 1 && Singleton(r.cache)
    ensures Singleton(Extend(lim, r, call).cache)
  {
    var purged := Purge(r.cache, call.now);
    PurgeKeepsSingleton(r.cache, call.now);
    if !Live(purged, call.key, call.now) {
      EvictEmptiesSingleton(purged);
      RecordInEmpty(call.key, call.now + lim.ttl);
    }
  }

  lemma RecordInEmpty(key: string, expires: int)
    ensures Singleton(Record(EMPTY, key, expires))
  {
    RecordKeepsAgreement(EMPTY, key, expires);
  }

  lemma ZeroLifetimeBreaksAgreement(lim: Limits)
    requires lim.capacity >= 2 && lim.ttl == 0
    ensures !Agrees(Execute(lim, [Call("a", 10), Call("k", 5), Call("k", 5)]).cache)
  {
    var calls := [Call("a", 10), Call("k", 5), Call("k", 5)];
    assert calls[..2] == [Call("a", 10), Call("k", 5)];
    assert calls[..2][..1] == [Call("a", 10)];
    assert [Call("a", 10)][..0] == [];
    assert Execute(lim, []).cache == EMPTY == Purge(EMPTY, 10);
    var c1 := Execute(lim, [Call("a", 10)]).cache;
    assert Evict(EMPTY, lim.capacity) == EMPTY;
    assert c1 == Cache(map["a" := 10], [Entry("a", 10)]);
    var c2 := Execute(lim, calls[..2]).cache;
    assert |c1.expiry| == 1;
    assert Evict(c1, lim.capacity) == c1;
    assert c2 == Cache(map["a" := 10, "k" := 5], [Entry("a", 10), Entry("k", 5)]);
    ThirdCallDoublesEntry(lim, c2);
  }

  lemma ThirdCallDoublesEntry(lim: Limits, c: Cache)
    requires lim.capacity >= 2 && lim.ttl == 0
    requires c == Cache(map["a" := 10, "k" := 5], [Entry("a", 10), Entry("k", 5)])
    ensures !Increasing(Offer(lim, c, "k", 5).cache.order)
  {
    assert Purge(c, 5) == c;
    var d := DequeueOne(c);
    assert c.expiry.Keys == {"a", "k"};
    assert d.expiry.Keys == {"k"} && d.order == [Entry("k", 5)];
    assert Evict(d, lim.capacity) == d;
    var e := Evict(c, lim.capacity);
    assert e == c || e == d;
    var order := Offer(lim, c, "k", 5).cache.order;
    assert order == e.order + [Entry("k", 5)];
    var n := |e.order|;
    assert order[n - 1] == order[n] == Entry("k", 5);
    assert !Rises(order, n - 1, n);
  }

  /**
   Map and queue agree after every run, whatever the clock readings, exactly when
   the lifetime is positive or the capacity is one.
   */
  lemma AgreementExactly(lim: Limits)
    requires lim.capacity >= 1
    ensures (forall calls :: Agrees(Execute(lim, calls).cache)) <==> lim.ttl > 0 || lim.capacity == 1
  {
    if lim.ttl > 0 {
      forall calls ensures Agrees(Execute(lim, calls).cache) { AgreementInEveryRun(lim, calls); }
    } else if lim.capacity == 1 {
      forall calls ensures Agrees(Execute(lim, calls).cache) { CapacityOneAgrees(lim, calls); }
    } else {
      ZeroLifetimeBreaksAgreement(lim);
    }
  }

  // ---------------------------------------------------------------------------
  // With readings in lock order the cache is a scan of the last accepted calls

  ghost predicate Monotone(calls: seq<Call>) {
    forall i, j :: 0 <= i <= j < |calls| ==> calls[i].now <= calls[j].now
  }

  /** The key was accepted among the last `capacity` accepted calls, less than a lifetime ago. */
  ghost predicate SeenRecently(lim: Limits, accepted: seq<Call>, key: string, now: int) {
    exists i :: 0 <= i < |accepted| && |accepted| - lim.capacity <= i
      && accepted[i].key == key && now < accepted[i].now + lim.ttl
  }

  /**
   The queue is the tail of the accepted calls; whatever left it has expired or is
   too far back. `slack` is 1 while room is being made for a new entry.
   */
  ghost predicate TailOf(lim: Limits, order: seq<Entry>, h: seq<Call>, now: int, slack: nat) {
    var m := |h| - |order|;
    && m >= 0
    && (forall i :: 0 <= i < |order| ==> order[i] == Entry(h[m + i].key, h[m + i].now + lim.ttl))
    && (forall i :: 0 <= i < m ==> i < |h| + slack - lim.capacity || h[i].now + lim.ttl <= now)
  }

  ghost predicate Queued(order: seq<Entry>, key: string) {
    exists i :: 0 <= i < |order| && order[i].key == key
  }

  ghost predicate KeysDiffer(order: seq<Entry>) {
    forall i, j :: 0 <= i < j < |order| ==> KeyDiffers(order, i, j)
  }

  predicate KeyDiffers(order: seq<Entry>, i: nat, j: nat)
    requires i < |order| && j < |order|
  {
    order[i].key != order[j].key
  }

  /** The queue has distinct keys and is the map. */
  ghost predicate IsMap(c: Cache) {
    && KeysDiffer(c.order)
    && (forall i :: 0 <= i < |c.order| ==> c.order[i].key in c.expiry && c.expiry[c.order[i].key] == c.order[i].expires)
    && (forall k :: k in c.expiry ==> Queued(c.order, k))
  }

  ghost predicate Mirrors(lim: Limits, c: Cache, h: seq<Call>, now: int, slack: nat) {
    TailOf(lim, c.order, h, now, slack) && IsMap(c)
  }

  ghost predicate History(h: seq<Call>, now: int) {
    Monotone(h) && forall i :: 0 <= i < |h| ==> h[i].now <= now
  }

  lemma {:induction false} DistinctKeysCount(order: seq<Entry>, keys: set<string>)
    requires KeysDiffer(order)
    requires forall i :: 0 <= i < |order| ==> order[i].key in keys
    requires forall k :: k in keys ==> Queued(order, k)
    ensures |keys| == |order|
  {
    if order == [] {
      forall k ensures k !in keys {}
      assert keys == {};
    } else {
      var n := |order| - 1;
      var rest := keys - {order[n].key};
      forall k | k in rest ensures Queued(order[..n], k) {
        var i :| 0 <= i < |order| && order[i].key == k;
        assert order[..n][i].key == k;
      }
      forall i | 0 <= i < n ensures order[..n][i].key in rest {
        assert KeyDiffers(order, i, n);
      }
      forall i, j | 0 <= i < j < n ensures KeyDiffers(order[..n], i, j) {
        assert KeyDiffers(order, i, j);
      }
      DistinctKeysCount(order[..n], rest);
    }
  }

  lemma MirroredSize(lim: Limits, c: Cache, h: seq<Call>, now: int, slack: nat)
    requires Mirrors(lim, c, h, now, slack)
    ensures |c.expiry| == |c.order|
  {
    DistinctKeysCount(c.order, c.expiry.Keys);
  }

  lemma DequeueKeepsIsMap(c: Cache)
    requires IsMap(c) && c.order != []
    ensures IsMap(DequeueOne(c))
  {
    var d := DequeueOne(c);
    forall i | 0 <= i < |d.order| ensures d.order[i].key in d.expiry && d.expiry[d.order[i].key] == d.order[i].expires {
      assert d.order[i] == c.order[i + 1] && KeyDiffers(c.order, 0, i + 1);
    }
    forall i, j | 0 <= i < j < |d.order| ensures KeyDiffers(d.order, i, j) {
      assert KeyDiffers(c.order, i + 1, j + 1);
    }
    forall k | k in d.expiry ensures Queued(d.order, k) {
      var i :| 0 <= i < |c.order| && c.order[i].key == k;
      assert d.order[i - 1].key == k;
    }
  }

  lemma DequeueKeepsMirror(lim: Limits, c: Cache, h: seq<Call>, now: int, slack: nat)
    requires Mirrors(lim, c, h, now, slack) && c.order != []
    requires c.order[0].expires <= now || |h| - |c.order| < |h| + slack - lim.capacity
    ensures Mirrors(lim, DequeueOne(c), h, now, slack)
  {
    DequeueKeepsIsMap(c);
  }

  lemma {:induction false} PurgeKeepsMirror(lim: Limits, c: Cache, h: seq<Call>, now: int)
    requires Mirrors(lim, c, h, now, 0) && History(h, now)
    ensures Mirrors(lim, Purge(c, now), h, now, 0)
    ensures forall i :: 0 <= i < |Purge(c, now).order| ==> Purge(c, now).order[i].expires > now
    ensures |Purge(c, now).order| <= |c.order|
    decreases |c.order|
  {
    if c.order != [] && c.order[0].expires <= now {
      DequeueKeepsMirror(lim, c, h, now, 0);
      PurgeKeepsMirror(lim, DequeueOne(c), h, now);
    }
  }

  lemma EvictKeepsMirror(lim: Limits, c: Cache, h: seq<Call>, now: int)
    requires lim.capacity >= 1 && |c.order| <= lim.capacity && Mirrors(lim, c, h, now, 0)
    ensures Mirrors(lim, Evict(c, lim.capacity), h, now, 1)
    ensures |Evict(c, lim.capacity).order| < lim.capacity
    ensures forall k :: k in Evict(c, lim.capacity).expiry ==> k in c.expiry
  {
    assert Mirrors(lim, c, h, now, 1);
    MirroredSize(lim, c, h, now, 1);
    if |c.order| == lim.capacity {
      DequeueKeepsMirror(lim, c, h, now, 1);
      MirroredSize(lim, DequeueOne(c), h, now, 1);
    }
  }

  lemma RecordKeepsMirror(lim: Limits, c: Cache, h: seq<Call>, call: Call)
    requires Mirrors(lim, c, h, call.now, 1) && call.key !in c.expiry
    ensures Mirrors(lim, Record(c, call.key, call.now + lim.ttl), h + [call], call.now, 0)
  {
    var d := Record(c, call.key, call.now + lim.ttl);
    forall k | k in d.expiry ensures Queued(d.order, k) {
      if k == call.key {
        assert d.order[|c.order|].key == k;
      } else {
        var i :| 0 <= i < |c.order| && c.order[i].key == k;
        assert d.order[i].key == k;
      }
    }
    forall i, j | 0 <= i < j < |d.order| ensures KeyDiffers(d.order, i, j) {
      assert j < |c.order| ==> KeyDiffers(c.order, i, j);
    }
  }

  /** A purged mirror answers the scan's question. */
  lemma MirrorAnswersScan(lim: Limits, c: Cache, h: seq<Call>, key: string, now: int)
    requires Mirrors(lim, c, h, now, 0) && |c.order| <= lim.capacity
    requires forall i :: 0 <= i < |c.order| ==> c.order[i].expires > now
    ensures Live(c, key, now) <==> SeenRecently(lim, h, key, now)
    ensures Live(c, key, now) <==> key in c.expiry
  {
    var m := |h| - |c.order|;
    if key in c.expiry {
      var i :| 0 <= i < |c.order| && c.order[i].key == key;
      assert h[m + i].key == key;
    }
    if SeenRecently(lim, h, key, now) {
      var i :| 0 <= i < |h| && |h| - lim.capacity <= i && h[i].key == key && now < h[i].now + lim.ttl;
      assert i >= m;
      assert c.order[i - m].key == key;
    }
  }

  ghost predicate RunMirrors(lim: Limits, r: Run, now: int) {
    Mirrors(lim, r.cache, r.accepted, now, 0) && |r.cache.order| <= lim.capacity && History(r.accepted, now)
  }

  lemma AcceptKeepsMirror(lim: Limits, purged: Cache, h: seq<Call>, call: Call)
    requires lim.capacity >= 1 && |purged.order| <= lim.capacity
    requires Mirrors(lim, purged, h, call.now, 0) && call.key !in purged.expiry
    ensures var c := Record(Evict(purged, lim.capacity), call.key, call.now + lim.ttl);
      Mirrors(lim, c, h + [call], call.now, 0) && |c.order| <= lim.capacity
  {
    EvictKeepsMirror(lim, purged, h, call.now);
    RecordKeepsMirror(lim, Evict(purged, lim.capacity), h, call);
  }

  lemma PurgeDecides(lim: Limits, c: Cache, h: seq<Call>, call: Call)
    requires Mirrors(lim, c, h, call.now, 0) && |c.order| <= lim.capacity && History(h, call.now)
    ensures var purged := Purge(c, call.now);
      && Mirrors(lim, purged, h, call.now, 0) && |purged.order| <= lim.capacity
      && (Live(purged, call.key, call.now) <==> SeenRecently(lim, h, call.key, call.now))
      && (Live(purged, call.key, call.now) <==> call.key in purged.expiry)
  {
    PurgeKeepsMirror(lim, c, h, call.now);
    MirrorAnswersScan(lim, Purge(c, call.now), h, call.key, call.now);
  }

  lemma OfferMatchesScan(lim: Limits, c: Cache, h: seq<Call>, call: Call)
    requires lim.capacity >= 1
    requires Mirrors(lim, c, h, call.now, 0) && |c.order| <= lim.capacity && History(h, call.now)
    ensures var a := Offer(lim, c, call.key, call.now);
      && (a.accepted <==> !SeenRecently(lim, h, call.key, call.now))
      && Mirrors(lim, a.cache, if a.accepted then h + [call] else h, call.now, 0)
      && |a.cache.order| <= lim.capacity
  {
    var purged := Purge(c, call.now);
    assert Mirrors(lim, purged, h, call.now, 0) && |purged.order| <= lim.capacity
      && (Live(purged, call.key, call.now) <==> SeenRecently(lim, h, call.key, call.now))
      && (Live(purged, call.key, call.now) <==> call.key in purged.expiry)
    by {
      PurgeDecides(lim, c, h, call);
    }
    DecideMatchesScan(lim, purged, h, call);
  }

  lemma DecideMatchesScan(lim: Limits, purged: Cache, h: seq<Call>, call: Call)
    requires lim.capacity >= 1 && Mirrors(lim, purged, h, call.now, 0) && |purged.order| <= lim.capacity
    requires Live(purged, call.key, call.now) <==> call.key in purged.expiry
    ensures var a := Decide(lim, purged, call.key, call.now);
      Mirrors(lim, a.cache, if a.accepted then h + [call] else h, call.now, 0) && |a.cache.order| <= lim.capacity
  {
    if !Live(purged, call.key, call.now) {
      AcceptKeepsMirror(lim, purged, h, call);
    }
  }

  lemma LaterMirror(lim: Limits, c: Cache, h: seq<Call>, now: int, later: int)
    requires Mirrors(lim, c, h, now, 0) && History(h, now) && now <= later
    ensures Mirrors(lim, c, h, later, 0) && History(h, later)
  {
  }

  lemma ExtendMirrors(lim: Limits, r: Run, call: Call, now: int)
    requires lim.capacity >= 1 && RunMirrors(lim, r, call.now) && call.now <= now
    ensures RunMirrors(lim, Extend(lim, r, call), now)
  {
    OfferMatchesScan(lim, r.cache, r.accepted, call);
    var after := Extend(lim, r, call);
    LaterMirror(lim, after.cache, after.accepted, call.now, now);
  }

  lemma {:induction false} MonotoneRunsMirror(lim: Limits, calls: seq<Call>, now: int)
    requires lim.capacity >= 1 && Monotone(calls)
    requires forall i :: 0 <= i < |calls| ==> calls[i].now <= now
    ensures RunMirrors(lim, Execute(lim, calls), now)
    decreases |calls|
  {
    if calls != [] {
      var n := |calls| - 1;
      MonotoneRunsMirror(lim, calls[..n], calls[n].now);
      ExtendMirrors(lim, Execute(lim, calls[..n]), calls[n], now);
    }
  }

  /**
   The cache refines a scan of its own history: when the readings are in lock
   order, the call after any run is accepted exactly when its key is not among the
   last `capacity` accepted calls with time left, and the queue stays within capacity.
   */
  lemma MatchesHistoryScan(lim: Limits, calls: seq<Call>, call: Call)
    requires lim.capacity >= 1 && Monotone(calls + [call])
    ensures var r := Execute(lim, calls);
      && (Offer(lim, r.cache, call.key, call.now).accepted <==> !SeenRecently(lim, r.accepted, call.key, call.now))
      && |r.cache.order| <= lim.capacity
  {
    var all := calls + [call];
    assert all[|calls|] == call;
    assert forall i :: 0 <= i < |calls| ==> all[i] == calls[i] && all[i].now <= all[|calls|].now;
    MonotoneRunsMirror(lim, calls, call.now);
    var r := Execute(lim, calls);
    OfferMatchesScan(lim, r.cache, r.accepted, call);
  }

  /** Repeats of a key within a lifetime are at least `capacity` accepted calls apart. */
  ghost predicate FarApart(lim: Limits, accepted: seq<Call>) {
    forall i, j :: 0 <= i < j < |accepted| ==> FarFrom(lim, accepted, i, j)
  }

  predicate FarFrom(lim: Limits, accepted: seq<Call>, i: nat, j: nat)
    requires i < j < |accepted|
  {
    accepted[i].key == accepted[j].key && accepted[j].now < accepted[i].now + lim.ttl ==> j - i - 1 >= lim.capacity
  }

  lemma ExtendStaysFarApart(lim: Limits, accepted: seq<Call>, call: Call)
    requires FarApart(lim, accepted) && !SeenRecently(lim, accepted, call.key, call.now)
    ensures FarApart(lim, accepted + [call])
  {
    var more := accepted + [call];
    forall i, j | 0 <= i < j < |more| ensures FarFrom(lim, more, i, j) {
      if j < |accepted| {
        assert FarFrom(lim, accepted, i, j);
      }
    }
  }

  /**
   Two accepted calls of one key less than a lifetime apart have at least
   `capacity` accepted calls strictly between them.
   */
  lemma {:induction false} RepeatsAreFarApart(lim: Limits, calls: seq<Call>)
    requires lim.capacity >= 1 && Monotone(calls)
    ensures FarApart(lim, Execute(lim, calls).accepted)
    decreases |calls|
  {
    if calls != [] {
      var n := |calls| - 1;
      RepeatsAreFarApart(lim, calls[..n]);
      assert calls[..n] + [calls[n]] == calls;
      MatchesHistoryScan(lim, calls[..n], calls[n]);
      var r := Execute(lim, calls[..n]);
      if Offer(lim, r.cache, calls[n].key, calls[n].now).accepted {
        ExtendStaysFarApart(lim, r.accepted, calls[n]);
      }
    }
  }

  // ---------------------------------------------------------------------------
  // Why a call is refused, whatever the clock readings

  /** A call of `key` was accepted whose entry expires at `expires`. */
  ghost predicate AcceptedFor(lim: Limits, calls: seq<Call>, answers: seq<bool>, key: string, expires: int) {
    exists i :: 0 <= i < |calls| && i < |answers| && answers[i]
      && calls[i].key == key && expires == calls[i].now + lim.ttl
  }

  /** Every binding comes from an accepted call. */
  ghost predicate Sourced(lim: Limits, calls: seq<Call>, r: Run) {
    |r.answers| == |calls|
    && forall k :: k in r.cache.expiry ==> AcceptedFor(lim, calls, r.answers, k, r.cache.expiry[k])
  }

  /** The map binds nothing that it did not bind before. */
  ghost predicate BindsLess(c: Cache, d: Cache) {
    forall k :: k in d.expiry ==> k in c.expiry && d.expiry[k] == c.expiry[k]
  }

  lemma {:induction false} PurgeBindsLess(c: Cache, now: int)
    ensures BindsLess(c, Purge(c, now))
    decreases |c.order|
  {
    if c.order != [] && c.order[0].expires <= now {
      PurgeBindsLess(DequeueOne(c), now);
    }
  }

  lemma {:induction false} EvictBindsLess(c: Cache, capacity: nat)
    ensures BindsLess(c, Evict(c, capacity))
    decreases |c.order|
  {
    if |c.expiry| >= capacity && c.order != [] {
      EvictBindsLess(DequeueOne(c), capacity);
    }
  }

  lemma OfferBindsLess(lim: Limits, c: Cache, key: string, now: int)
    ensures var a := Offer(lim, c, key, now);
      forall k :: k in a.cache.expiry ==>
        || (k in c.expiry && a.cache.expiry[k] == c.expiry[k])
        || (a.accepted && k == key && a.cache.expiry[k] == now + lim.ttl)
  {
    PurgeBindsLess(c, now);
    EvictBindsLess(Purge(c, now), lim.capacity);
  }

  lemma ExtendIsSourced(lim: Limits, front: seq<Call>, r: Run, call: Call)
    requires Sourced(lim, front, r)
    ensures Sourced(lim, front + [call], Extend(lim, r, call))
  {
    var calls, after := front + [call], Extend(lim, r, call);
    OfferBindsLess(lim, r.cache, call.key, call.now);
    forall k | k in after.cache.expiry ensures AcceptedFor(lim, calls, after.answers, k, after.cache.expiry[k]) {
      if k in r.cache.expiry && after.cache.expiry[k] == r.cache.expiry[k] {
        var i :| 0 <= i < |front| && r.answers[i] && front[i].key == k && r.cache.expiry[k] == front[i].now + lim.ttl;
        assert after.answers[i] && calls[i] == front[i];
      } else {
        assert after.answers[|front|] && calls[|front|] == call;
      }
    }
  }

  lemma {:induction false} RunIsSourced(lim: Limits, calls: seq<Call>)
    ensures Sourced(lim, calls, Execute(lim, calls))
    decreases |calls|
  {
    if calls != [] {
      var n := |calls| - 1;
      RunIsSourced(lim, calls[..n]);
      ExtendIsSourced(lim, calls[..n], Execute(lim, calls[..n]), calls[n]);
      assert calls[..n] + [calls[n]] == calls;
    }
  }

  /** Call `i` repeats an earlier accepted call of its key that had time left at its reading. */
  ghost predicate HasCause(lim: Limits, calls: seq<Call>, answers: seq<bool>, i: nat)
    requires i < |calls|
  {
    exists j :: 0 <= j < i && j < |answers| && answers[j]
      && calls[j].key == calls[i].key && calls[i].now < calls[j].now + lim.ttl
  }

  ghost predicate RefusalsHaveCauses(lim: Limits, calls: seq<Call>, answers: seq<bool>) {
    |answers| == |calls| && forall i :: 0 <= i < |calls| && !answers[i] ==> HasCause(lim, calls, answers, i)
  }

  lemma ExtendHasCauses(lim: Limits, front: seq<Call>, r: Run, call: Call)
    requires Sourced(lim, front, r) && RefusalsHaveCauses(lim, front, r.answers)
    ensures RefusalsHaveCauses(lim, front + [call], Extend(lim, r, call).answers)
  {
    var calls, answers := front + [call], Extend(lim, r, call).answers;
    forall i | 0 <= i < |calls| && !answers[i] ensures HasCause(lim, calls, answers, i) {
      if i < |front| {
        assert HasCause(lim, front, r.answers, i);
        var j :| 0 <= j < i && r.answers[j] && front[j].key == front[i].key && front[i].now < front[j].now + lim.ttl;
        assert answers[j] && calls[j] == front[j] && calls[i] == front[i];
      } else {
        PurgeSparesLive(r.cache, call.key, call.now);
        var j :| 0 <= j < |front| && r.answers[j] && front[j].key == call.key
          && r.cache.expiry[call.key] == front[j].now + lim.ttl;
        assert answers[j] && calls[j] == front[j] && calls[i] == call;
      }
    }
  }

  /** In any lock order a refused call repeats an accepted one of its key within its lifetime. */
  lemma {:induction false} RefusedRepeats(lim: Limits, calls: seq<Call>)
    ensures RefusalsHaveCauses(lim, calls, Execute(lim, calls).answers)
    decreases |calls|
  {
    if calls != [] {
      var n := |calls| - 1;
      RefusedRepeats(lim, calls[..n]);
      RunIsSourced(lim, calls[..n]);
      ExtendHasCauses(lim, calls[..n], Execute(lim, calls[..n]), calls[n]);
      assert calls[..n] + [calls[n]] == calls;
    }
  }

  // ---------------------------------------------------------------------------
  // One winner per key, in any lock order

  function KeysOf(calls: seq<Call>): set<string> {
    set c | c in calls :: c.key
  }

  ghost predicate FirstOfItsKey(calls: seq<Call>, i: nat)
    requires i < |calls|
  {
    forall j :: 0 <= j < i ==> calls[j].key != calls[i].key
  }

  ghost predicate NothingLost(lim: Limits, c: Cache, keys: set<string>, lo: int) {
    && c.expiry.Keys == keys
    && (forall k :: k in c.expiry ==> c.expiry[k] >= lo + lim.ttl)
    && (forall i :: 0 <= i < |c.order| ==> c.order[i].expires >= lo + lim.ttl)
  }

  lemma OfferWithinSpan(lim: Limits, c: Cache, keys: set<string>, call: Call, lo: int)
    requires NothingLost(lim, c, keys, lo) && lo <= call.now < lo + lim.ttl
    requires |keys + {call.key}| <= lim.capacity
    ensures var a := Offer(lim, c, call.key, call.now);
      (a.accepted <==> call.key !in keys) && NothingLost(lim, a.cache, keys + {call.key}, lo)
  {
    assert Purge(c, call.now) == c;
    if call.key in keys {
      assert keys + {call.key} == keys;
    } else {
      assert |keys + {call.key}| == |keys| + 1;
      assert |c.expiry| == |c.expiry.Keys|;
      assert Evict(c, lim.capacity) == c;
    }
  }

  lemma KeysOfMore(calls: seq<Call>, call: Call)
    ensures KeysOf(calls + [call]) == KeysOf(calls) + {call.key}
  {
    forall k ensures k in KeysOf(calls + [call]) <==> k in KeysOf(calls) + {call.key} {
      if k in KeysOf(calls) {
        var c :| c in calls && c.key == k;
        assert c in calls + [call];
      }
      if k == call.key {
        assert call in calls + [call];
      }
    }
  }

  /** The call after `front` is the first of its key iff its key is new. */
  lemma FirstIffNew(front: seq<Call>, call: Call)
    ensures FirstOfItsKey(front + [call], |front|) <==> call.key !in KeysOf(front)
    ensures forall i :: 0 <= i < |front| ==> (FirstOfItsKey(front + [call], i) <==> FirstOfItsKey(front, i))
  {
    var calls := front + [call];
    if call.key in KeysOf(front) {
      var c :| c in front && c.key == call.key;
      var j :| 0 <= j < |front| && front[j] == c;
      assert calls[j].key == call.key;
    } else {
      forall j | 0 <= j < |front| ensures calls[j].key != call.key {
        assert front[j] in front;
      }
    }
    forall i | 0 <= i < |front| ensures FirstOfItsKey(calls, i) <==> FirstOfItsKey(front, i) {
      assert forall j :: 0 <= j <= i ==> calls[j] == front[j];
    }
  }

  ghost predicate FirstsAnswered(calls: seq<Call>, answers: seq<bool>) {
    |answers| == |calls| && forall i :: 0 <= i < |calls| ==> (answers[i] <==> FirstOfItsKey(calls, i))
  }

  ghost predicate FirstsWin(lim: Limits, calls: seq<Call>) {
    FirstsAnswered(calls, Execute(lim, calls).answers)
  }

  ghost predicate NothingLostSo(lim: Limits, calls: seq<Call>, r: Run, lo: int) {
    NothingLost(lim, r.cache, KeysOf(calls), lo) && FirstsAnswered(calls, r.answers)
  }

  lemma ExtendLosesNothing(lim: Limits, calls: seq<Call>, front: seq<Call>, r: Run, call: Call, lo: int)
    requires calls == front + [call] && NothingLostSo(lim, front, r, lo)
    requires lo <= call.now < lo + lim.ttl && |KeysOf(calls)| <= lim.capacity
    ensures NothingLostSo(lim, calls, Extend(lim, r, call), lo)
  {
    KeysOfMore(front, call);
    OfferWithinSpan(lim, r.cache, KeysOf(front), call, lo);
    FirstIffNew(front, call);
  }

  lemma {:induction false} NothingLostInSpan(lim: Limits, calls: seq<Call>, lo: int)
    requires forall i :: 0 <= i < |calls| ==> lo <= calls[i].now < lo + lim.ttl
    requires |KeysOf(calls)| <= lim.capacity
    ensures NothingLostSo(lim, calls, Execute(lim, calls), lo)
    decreases |calls|
  {
    if calls != [] {
      var n := |calls| - 1;
      assert calls == calls[..n] + [calls[n]];
      FewerKeys(calls[..n], calls[n]);
      NothingLostInSpan(lim, calls[..n], lo);
      ExtendLosesNothing(lim, calls, calls[..n], Execute(lim, calls[..n]), calls[n], lo);
    }
  }

  lemma FewerKeys(calls: seq<Call>, call: Call)
    ensures |KeysOf(calls)| <= |KeysOf(calls + [call])|
  {
    KeysOfMore(calls, call);
    if call.key in KeysOf(calls) {
      assert KeysOf(calls) + {call.key} == KeysOf(calls);
    } else {
      assert |KeysOf(calls) + {call.key}| == |KeysOf(calls)| + 1;
    }
  }

  /** Any two readings are less than a lifetime apart. */
  ghost predicate WithinLifetime(lim: Limits, calls: seq<Call>) {
    forall i, j :: 0 <= i < |calls| && 0 <= j < |calls| ==> calls[i].now - calls[j].now < lim.ttl
  }

  /**
   If all readings lie within less than a lifetime and at most `capacity` keys are
   used, then in every lock order the accepted calls are exactly the first call of
   each key: one winner per key.
   */
  lemma OneWinnerPerKey(lim: Limits, calls: seq<Call>)
    requires |KeysOf(calls)| <= lim.capacity
    requires WithinLifetime(lim, calls)
    ensures FirstsWin(lim, calls)
  {
    if calls != [] {
      var m := EarliestReading(calls);
      NothingLostInSpan(lim, calls, calls[m].now);
    }
  }

  ghost function EarliestReading(calls: seq<Call>): (m: nat)
    requires calls != []
    ensures m < |calls| && forall i :: 0 <= i < |calls| ==> calls[m].now <= calls[i].now
  {
    var n := |calls| - 1;
    if n == 0 then 0 else
    var m := EarliestReading(calls[..n]);
    assert forall i :: 0 <= i < n ==> calls[..n][m].now <= calls[..n][i].now;
    if calls[n].now < calls[m].now then n else m
  }
}
