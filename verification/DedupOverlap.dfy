/**
 The duplicate cache under overlapping calls: a clock that never goes back, and
 callers that read it before they take the lock. What the overlap costs is bounded by
 the number of calls under way: an entry has at most that many entries with an earlier
 expiry behind it, and every superseded entry is one of those.
 */
module DedupOverlap {
  import opened Dedup
  import opened DedupRuns

  // ---------------------------------------------------------------------------
  // Counting

  /** The entries that expire before `x`. */
  function CountBelow(order: seq<Entry>, x: int): nat {
    if order == [] then 0 else (if order[0].expires < x then 1 else 0) + CountBelow(order[1..], x)
  }

  lemma {:induction false} CountAppend(order: seq<Entry>, e: Entry, x: int)
    ensures CountBelow(order + [e], x) == CountBelow(order, x) + (if e.expires < x then 1 else 0)
  {
    if order == [] {
      assert order + [e] == [e] && [e][1..] == [];
    } else {
      CountAppend(order[1..], e, x);
      assert (order + [e])[1..] == order[1..] + [e];
    }
  }

  lemma {:induction false} CountSuffix(order: seq<Entry>, k: nat, x: int)
    requires k <= |order|
    ensures CountBelow(order[k..], x) <= CountBelow(order, x)
    ensures |order[k..]| - CountBelow(order[k..], x) <= |order| - CountBelow(order, x)
    decreases k
  {
    if k == 0 {
      assert order[0..] == order;
    } else {
      CountSuffix(order[1..], k - 1, x);
      assert order[1..][k - 1..] == order[k..];
    }
  }

  lemma {:induction false} CountGrows(order: seq<Entry>, x: int, y: int)
    requires x <= y
    ensures CountBelow(order, x) <= CountBelow(order, y) <= |order|
    decreases |order|
  {
    if order != [] {
      CountGrows(order[1..], x, y);
    }
  }

  /** Purging and evicting only take entries from the front. */
  lemma {:induction false} PurgeTakesFront(c: Cache, now: int) returns (k: nat)
    ensures k <= |c.order| && Purge(c, now).order == c.order[k..]
    decreases |c.order|
  {
    if c.order != [] && c.order[0].expires <= now {
      var m := PurgeTakesFront(DequeueOne(c), now);
      k := m + 1;
      assert c.order[1..][m..] == c.order[k..];
    } else {
      k := 0;
    }
  }

  lemma {:induction false} EvictTakesFront(c: Cache, capacity: nat) returns (k: nat)
    ensures k <= |c.order| && Evict(c, capacity).order == c.order[k..]
    decreases |c.order|
  {
    if |c.expiry| >= capacity && c.order != [] {
      var m := EvictTakesFront(DequeueOne(c), capacity);
      k := m + 1;
      assert c.order[1..][m..] == c.order[k..];
    } else {
      k := 0;
    }
  }

  // ---------------------------------------------------------------------------
  // Overtaken entries

  /**
   `out(x)` is the number of calls under way whose entry would expire before `x`.
   Together with the entries behind entry `i` that expire before it does, there are at
   most `slots` of them: all of them were under way when entry `i` was made.
   */
  ghost predicate EntryTidy(order: seq<Entry>, out: int -> nat, slots: int, i: nat)
    requires i < |order|
  {
    CountBelow(order[i + 1..], order[i].expires) + out(order[i].expires) <= slots
  }

  ghost predicate Tidy(order: seq<Entry>, out: int -> nat, slots: int) {
    forall i :: 0 <= i < |order| ==> EntryTidy(order, out, slots, i)
  }

  lemma SuffixTidy(order: seq<Entry>, k: nat, out: int -> nat, slots: int)
    requires k <= |order| && Tidy(order, out, slots)
    ensures Tidy(order[k..], out, slots)
  {
    forall i | 0 <= i < |order[k..]| ensures EntryTidy(order[k..], out, slots, i) {
      assert EntryTidy(order, out, slots, k + i);
      assert order[k..][i + 1..] == order[k + i + 1..];
    }
  }

  /** One call under way, with an entry that would expire at `expires`, ends. */
  ghost predicate Ends(out: int -> nat, left: int -> nat, expires: int) {
    forall x :: left(x) + (if expires < x then 1 else 0) <= out(x)
  }

  ghost predicate AtMost(out: int -> nat, slots: int) {
    forall x :: out(x) <= slots
  }

  lemma AppendTidy(order: seq<Entry>, e: Entry, out: int -> nat, left: int -> nat, slots: int)
    requires Tidy(order, out, slots) && Ends(out, left, e.expires) && AtMost(left, slots)
    ensures Tidy(order + [e], left, slots)
  {
    var more := order + [e];
    forall i | 0 <= i < |more| ensures EntryTidy(more, left, slots, i) {
      if i < |order| {
        assert EntryTidy(order, out, slots, i);
        assert more[i + 1..] == order[i + 1..] + [e];
        CountAppend(order[i + 1..], e, order[i].expires);
        assert left(order[i].expires) + (if e.expires < order[i].expires then 1 else 0) <= out(order[i].expires);
      } else {
        assert more[i + 1..] == [];
        assert left(e.expires) <= slots;
      }
    }
  }

  lemma FewerTidy(order: seq<Entry>, out: int -> nat, left: int -> nat, slots: int, top: int)
    requires Tidy(order, out, slots) && forall x :: x <= top ==> left(x) <= out(x)
    requires forall i :: 0 <= i < |order| ==> order[i].expires <= top
    ensures Tidy(order, left, slots)
  {
    forall i | 0 <= i < |order| ensures EntryTidy(order, left, slots, i) {
      assert EntryTidy(order, out, slots, i);
      assert left(order[i].expires) <= out(order[i].expires);
    }
  }

  // ---------------------------------------------------------------------------
  // Superseded entries

  predicate IsCurrent(c: Cache, e: Entry) {
    e.key in c.expiry && c.expiry[e.key] == e.expires
  }

  /** Every superseded entry expires before `bar`. */
  ghost predicate StaleBelow(c: Cache, bar: int) {
    forall i :: 0 <= i < |c.order| ==> IsCurrent(c, c.order[i]) || c.order[i].expires < bar
  }

  lemma DequeueKeepsStale(c: Cache, bar: int)
    requires Agrees(c) && StaleBelow(c, bar)
    ensures StaleBelow(DequeueOne(c), bar)
  {
    var d := DequeueOne(c);
    if c.order != [] {
      forall i | 0 <= i < |d.order| ensures IsCurrent(d, d.order[i]) || d.order[i].expires < bar {
        assert d.order[i] == c.order[i + 1];
        assert IsCurrent(c, c.order[i + 1]) || c.order[i + 1].expires < bar;
        assert Rises(c.order, 0, i + 1);
      }
    }
  }

  lemma {:induction false} PurgeKeepsStale(c: Cache, now: int, bar: int)
    requires Agrees(c) && StaleBelow(c, bar)
    ensures StaleBelow(Purge(c, now), bar)
    decreases |c.order|
  {
    if c.order != [] && c.order[0].expires <= now {
      DequeueKeepsStale(c, bar);
      DequeueKeepsAgreement(c);
      PurgeKeepsStale(DequeueOne(c), now, bar);
    }
  }

  lemma {:induction false} EvictKeepsStale(c: Cache, capacity: nat, bar: int)
    requires Agrees(c) && StaleBelow(c, bar)
    ensures StaleBelow(Evict(c, capacity), bar)
    decreases |c.order|
  {
    if |c.expiry| >= capacity && c.order != [] {
      DequeueKeepsStale(c, bar);
      DequeueKeepsAgreement(c);
      EvictKeepsStale(DequeueOne(c), capacity, bar);
    }
  }

  /** Recording a key supersedes at most its own binding. */
  lemma RecordKeepsStale(c: Cache, key: string, expires: int, bar: int)
    requires StaleBelow(c, bar) && (key in c.expiry ==> c.expiry[key] < bar)
    ensures StaleBelow(Record(c, key, expires), bar)
  {
    var d := Record(c, key, expires);
    forall i | 0 <= i < |d.order| ensures IsCurrent(d, d.order[i]) || d.order[i].expires < bar {
      if i < |c.order| {
        assert d.order[i] == c.order[i];
        assert IsCurrent(c, c.order[i]) || c.order[i].expires < bar;
      }
    }
  }

  /** Besides one entry per bound key the queue only holds superseded entries. */
  lemma {:induction false} StaleAreExtra(c: Cache, bar: int)
    requires Agrees(c) && StaleBelow(c, bar)
    ensures |c.order| <= |c.expiry| + CountBelow(c.order, bar)
    decreases |c.order|
  {
    if c.order != [] {
      var d := DequeueOne(c);
      DequeueKeepsStale(c, bar);
      DequeueKeepsAgreement(c);
      StaleAreExtra(d, bar);
      assert IsCurrent(c, c.order[0]) || c.order[0].expires < bar;
      if IsCurrent(c, c.order[0]) {
        assert d.expiry.Keys == c.expiry.Keys - {c.order[0].key};
      }
    }
  }

  // ---------------------------------------------------------------------------
  // One call

  /**
   How far the queue may exceed the map: superseded entries expire before `bar` (with a
   lifetime of zero, all entries but one do), and these are few.
   */
  ghost predicate Loose(lim: Limits, c: Cache, out: int -> nat, slots: int, bar: int) {
    && (lim.ttl > 0 ==> Agrees(c) && |c.expiry| <= lim.capacity && StaleBelow(c, bar))
    && (lim.ttl == 0 ==> |c.order| <= CountBelow(c.order, bar) + 1)
    && CountBelow(c.order, bar) + out(bar) <= slots
  }

  lemma LooseFits(lim: Limits, c: Cache, out: int -> nat, slots: int, bar: int)
    requires lim.capacity >= 1 && Loose(lim, c, out, slots, bar)
    ensures |c.order| <= lim.capacity + slots
    ensures lim.ttl == 0 ==> |c.order| <= slots + 1
  {
    if lim.ttl > 0 {
      StaleAreExtra(c, bar);
    }
  }

  lemma PurgeKeepsLoose(lim: Limits, c: Cache, now: int, out: int -> nat, slots: int, bar: int)
    requires Loose(lim, c, out, slots, bar)
    ensures Loose(lim, Purge(c, now), out, slots, bar)
  {
    var k := PurgeTakesFront(c, now);
    CountSuffix(c.order, k, bar);
    if lim.ttl > 0 {
      PurgeKeeps(c, now);
      PurgeKeepsStale(c, now, bar);
    }
  }

  lemma {:induction false} PurgedFrontIsLive(c: Cache, now: int)
    ensures Purge(c, now).order != [] ==> Purge(c, now).order[0].expires > now
    decreases |c.order|
  {
    if c.order != [] && c.order[0].expires <= now {
      PurgedFrontIsLive(DequeueOne(c), now);
    }
  }

  /** The bar can be raised to the expiry of the front entry: what expires before it was overtaken by it. */
  lemma RaiseBar(lim: Limits, c: Cache, out: int -> nat, slots: int, bar: int) returns (raised: int)
    requires Loose(lim, c, out, slots, bar) && Tidy(c.order, out, slots)
    ensures Loose(lim, c, out, slots, raised) && raised >= bar
    ensures c.order != [] ==> raised >= c.order[0].expires
    ensures raised == bar || (c.order != [] && raised == c.order[0].expires)
  {
    raised := bar;
    if c.order != [] && c.order[0].expires > bar {
      raised := c.order[0].expires;
      assert EntryTidy(c.order, out, slots, 0);
      CountGrows(c.order, bar, raised);
    }
  }

  /** What is added expires before the bar, or the queue was empty. */
  lemma AcceptKeepsLoose(lim: Limits, c: Cache, key: string, now: int, out: int -> nat, left: int -> nat, slots: int,
      bar: int)
    requires lim.capacity >= 1 && Loose(lim, c, out, slots, bar) && !Live(c, key, now)
    requires Ends(out, left, now + lim.ttl) && (c.order != [] ==> now < bar)
    ensures Loose(lim, Decide(lim, c, key, now).cache, left, slots, bar)
  {
    var evicted := Evict(c, lim.capacity);
    var e := Entry(key, now + lim.ttl);
    var k := EvictTakesFront(c, lim.capacity);
    CountSuffix(c.order, k, bar);
    CountAppend(evicted.order, e, bar);
    assert left(bar) + (if e.expires < bar then 1 else 0) <= out(bar);
    assert Decide(lim, c, key, now) == Answer(Record(evicted, key, now + lim.ttl), true);
    if lim.ttl > 0 {
      AcceptKeepsAgreement(lim, c, key, now);
      AcceptKeepsStale(lim, c, key, now, bar);
    }
  }

  lemma AcceptKeepsStale(lim: Limits, c: Cache, key: string, now: int, bar: int)
    requires lim.capacity >= 1 && Agrees(c) && StaleBelow(c, bar) && !Live(c, key, now) && (c.order != [] ==> now < bar)
    ensures StaleBelow(Record(Evict(c, lim.capacity), key, now + lim.ttl), bar)
  {
    EvictKeepsStale(c, lim.capacity, bar);
    EvictedBelow(lim, c, key, now, bar);
    RecordKeepsStale(Evict(c, lim.capacity), key, now + lim.ttl, bar);
  }

  /** What the new entry supersedes expires before the bar. */
  lemma EvictedBelow(lim: Limits, c: Cache, key: string, now: int, bar: int)
    requires lim.capacity >= 1 && Agrees(c) && !Live(c, key, now) && (c.order != [] ==> now < bar)
    ensures key in Evict(c, lim.capacity).expiry ==> Evict(c, lim.capacity).expiry[key] < bar
  {
    EvictMakesRoom(c, lim.capacity, key, now);
    BoundKeyIsQueued(Evict(c, lim.capacity), key);
    var k := EvictTakesFront(c, lim.capacity);
  }

  lemma BoundKeyIsQueued(c: Cache, key: string)
    requires Agrees(c)
    ensures key in c.expiry ==> c.order != []
  {
  }

  /** One call keeps both, and the bar stays among the expiries seen. */
  lemma OfferKeepsOverlap(lim: Limits, c: Cache, key: string, now: int, out: int -> nat, left: int -> nat,
      slots: int, bar: int)
    returns (raised: int)
    requires lim.capacity >= 1 && Tidy(c.order, out, slots) && Loose(lim, c, out, slots, bar)
    requires Ends(out, left, now + lim.ttl) && AtMost(left, slots)
    ensures Tidy(Offer(lim, c, key, now).cache.order, left, slots)
    ensures Loose(lim, Offer(lim, c, key, now).cache, left, slots, raised)
    ensures raised == bar || exists i :: 0 <= i < |c.order| && raised == c.order[i].expires
    ensures raised >= bar && (Purge(c, now).order != [] ==> raised >= Purge(c, now).order[0].expires)
  {
    var purged := Purge(c, now);
    var k := PurgeTakesFront(c, now);
    SuffixTidy(c.order, k, out, slots);
    PurgeKeepsLoose(lim, c, now, out, slots, bar);
    PurgedFrontIsLive(c, now);
    raised := RaiseBar(lim, purged, out, slots, bar);
    if purged.order != [] {
      assert purged.order[0] == c.order[k];
    }
    DecideKeepsTidy(lim, purged, key, now, out, left, slots);
    DecideKeepsLoose(lim, purged, key, now, out, left, slots, raised);
  }

  lemma DecideKeepsTidy(lim: Limits, c: Cache, key: string, now: int, out: int -> nat, left: int -> nat, slots: int)
    requires Tidy(c.order, out, slots) && Ends(out, left, now + lim.ttl) && AtMost(left, slots)
    ensures Tidy(Decide(lim, c, key, now).cache.order, left, slots)
  {
    if Live(c, key, now) {
      forall i | 0 <= i < |c.order| ensures EntryTidy(c.order, left, slots, i) {
        assert EntryTidy(c.order, out, slots, i);
        assert left(c.order[i].expires) <= out(c.order[i].expires);
      }
    } else {
      var k := EvictTakesFront(c, lim.capacity);
      SuffixTidy(c.order, k, out, slots);
      AppendTidy(c.order[k..], Entry(key, now + lim.ttl), out, left, slots);
    }
  }

  lemma DecideKeepsLoose(lim: Limits, c: Cache, key: string, now: int, out: int -> nat, left: int -> nat, slots: int,
      bar: int)
    requires lim.capacity >= 1 && Loose(lim, c, out, slots, bar)
    requires Ends(out, left, now + lim.ttl) && (c.order != [] ==> now < bar)
    ensures Loose(lim, Decide(lim, c, key, now).cache, left, slots, bar)
  {
    if Live(c, key, now) {
      assert left(bar) <= out(bar);
    } else {
      AcceptKeepsLoose(lim, c, key, now, out, left, slots, bar);
    }
  }

  // ---------------------------------------------------------------------------
  // How long the queue can get

  /** Nothing is purged or evicted, so the call is recorded behind what is there. */
  lemma RoomForMore(lim: Limits, c: Cache, key: string, now: int)
    requires |c.expiry| < lim.capacity && !Live(c, key, now)
    requires c.order == [] || c.order[0].expires > now
    ensures Offer(lim, c, key, now) == Answer(Record(c, key, now + lim.ttl), true)
  {
    assert Purge(c, now) == c;
    assert Evict(c, lim.capacity) == c;
  }

  /** `key` is called `n` times, each call exactly when the previous one expires. */
  function Renewals(lim: Limits, key: string, n: nat): (r: seq<Call>)
    ensures |r| == n && forall i :: 0 <= i < n ==> r[i] == Call(key, i * lim.ttl)
  {
    seq(n, i => Call(key, i * lim.ttl))
  }

  /** `n` renewals of `k` behind an entry of `x`. */
  ghost predicate Stacked(lim: Limits, c: Cache, x: string, k: string, n: nat, ahead: int) {
    && |c.order| == n + 1
    && c.order[0] == Entry(x, ahead + lim.ttl)
    && c.expiry == (if n == 0 then map[x := ahead + lim.ttl] else map[x := ahead + lim.ttl, k := n * lim.ttl])
  }

  lemma StackBegins(lim: Limits, x: string, k: string, ahead: int)
    requires lim.capacity >= 1
    ensures Stacked(lim, Execute(lim, [Call(x, ahead)] + Renewals(lim, k, 0)).cache, x, k, 0, ahead)
  {
    RoomForMore(lim, EMPTY, x, ahead);
    assert [Call(x, ahead)] + Renewals(lim, k, 0) == [Call(x, ahead)] && [Call(x, ahead)][..0] == [];
  }

  lemma ExtendStacks(lim: Limits, r: Run, x: string, k: string, n: nat, ahead: int)
    requires lim.capacity >= 3 && x != k && n * lim.ttl < ahead + lim.ttl
    requires Stacked(lim, r.cache, x, k, n, ahead)
    ensures Stacked(lim, Extend(lim, r, Call(k, n * lim.ttl)).cache, x, k, n + 1, ahead)
  {
    Spacing(n + 2, lim.ttl);
    AtMostTwoKeys(r.cache, x, k);
    RoomForMore(lim, r.cache, k, n * lim.ttl);
  }

  lemma RenewalsGrow(lim: Limits, x: Call, k: string, m: nat)
    requires m >= 1
    ensures var calls := [x] + Renewals(lim, k, m);
      && calls[|calls| - 1] == Call(k, (m - 1) * lim.ttl)
      && calls[..|calls| - 1] == [x] + Renewals(lim, k, m - 1)
      && calls == ([x] + Renewals(lim, k, m - 1)) + [Call(k, (m - 1) * lim.ttl)]
  {
  }

  /**
   Behind one entry made ahead of them, renewals of a single key pile up, although the
   map never holds more than two keys. All their readings but the last one precede the
   first call's, so at least `n - 1` calls were under way together with it.
   */
  lemma {:induction false} QueueCanOutgrowCapacity(lim: Limits, x: string, k: string, n: nat, ahead: int)
    requires lim.capacity >= 3 && x != k && n * lim.ttl < ahead + 2 * lim.ttl
    ensures Stacked(lim, Execute(lim, [Call(x, ahead)] + Renewals(lim, k, n)).cache, x, k, n, ahead)
    decreases n
  {
    var first := Call(x, ahead);
    if n == 0 {
      StackBegins(lim, x, k, ahead);
    } else {
      Spacing(n + 1, lim.ttl);
      QueueCanOutgrowCapacity(lim, x, k, n - 1, ahead);
      RenewalsGrow(lim, first, k, n);
      ExtendStacks(lim, Execute(lim, [first] + Renewals(lim, k, n - 1)), x, k, n - 1, ahead);
    }
  }

  lemma AtMostTwoKeys(c: Cache, x: string, k: string)
    requires c.expiry.Keys <= {x, k}
    ensures |c.expiry| <= 2
  {
    assert |c.expiry.Keys| + |{x, k} - c.expiry.Keys| == |{x, k}|;
  }

  /** One call of each key, all at one reading. */
  function Fillers(keys: seq<string>, now: int): (r: seq<Call>)
    ensures |r| == |keys| && forall i :: 0 <= i < |r| ==> r[i] == Call(keys[i], now)
  {
    seq(|keys|, i requires 0 <= i < |keys| => Call(keys[i], now))
  }

  ghost predicate AllDifferent(keys: seq<string>) {
    forall i, j :: 0 <= i < j < |keys| ==> Differ(keys, i, j)
  }

  predicate Differ(keys: seq<string>, i: nat, j: nat)
    requires i < |keys| && j < |keys|
  {
    keys[i] != keys[j]
  }

  ghost predicate AllNew(keys: seq<string>, c: Cache) {
    AllDifferent(keys) && forall i :: 0 <= i < |keys| ==> keys[i] !in c.expiry
  }

  /** `d` is `c` with one live entry more for each of the `keys`. */
  ghost predicate FilledWith(c: Cache, d: Cache, keys: seq<string>) {
    && |d.order| == |c.order| + |keys| && d.order != [] && c.order != [] && d.order[0] == c.order[0]
    && |d.expiry| == |c.expiry| + |keys|
    && (forall k :: k in d.expiry ==> k in c.expiry || k in keys)
  }

  lemma FillOne(c: Cache, d: Cache, keys: seq<string>, key: string, expires: int)
    requires FilledWith(c, d, keys) && key !in c.expiry && key !in keys
    ensures FilledWith(c, Record(d, key, expires), keys + [key])
  {
    assert Record(d, key, expires).expiry.Keys == d.expiry.Keys + {key};
  }

  lemma ExecuteFiller(lim: Limits, calls: seq<Call>, d: Cache, key: string, now: int)
    requires d == Execute(lim, calls).cache && |d.expiry| < lim.capacity && key !in d.expiry
    requires d.order != [] && d.order[0].expires > now
    ensures Execute(lim, calls + [Call(key, now)]).cache == Record(d, key, now + lim.ttl)
  {
    ExecuteMore(lim, calls, Call(key, now));
    RoomForMore(lim, d, key, now);
  }

  lemma NewInFront(keys: seq<string>, c: Cache)
    requires keys != [] && AllNew(keys, c)
    ensures AllNew(keys[..|keys| - 1], c) && keys[|keys| - 1] !in keys[..|keys| - 1] && keys[|keys| - 1] !in c.expiry
  {
    var n := |keys| - 1;
    forall i, j | 0 <= i < j < n ensures Differ(keys[..n], i, j) {
      assert Differ(keys, i, j);
    }
    forall i | 0 <= i < n ensures keys[..n][i] != keys[n] {
      assert Differ(keys, i, n);
    }
  }

  lemma FillersGrow(calls: seq<Call>, keys: seq<string>, now: int)
    requires keys != []
    ensures var n := |keys| - 1;
      && calls + Fillers(keys, now) == (calls + Fillers(keys[..n], now)) + [Call(keys[n], now)]
      && keys == keys[..n] + [keys[n]]
  {
  }

  lemma FillerStep(lim: Limits, c: Cache, front: seq<Call>, d: Cache, keys: seq<string>, key: string, now: int)
    requires d == Execute(lim, front).cache && FilledWith(c, d, keys) && key !in c.expiry && key !in keys
    requires |c.expiry| + |keys| < lim.capacity && c.order[0].expires > now
    ensures FilledWith(c, Execute(lim, front + [Call(key, now)]).cache, keys + [key])
  {
    ExecuteFiller(lim, front, d, key, now);
    FillOne(c, d, keys, key, now + lim.ttl);
  }

  lemma {:induction false} FillersFill(lim: Limits, calls: seq<Call>, c: Cache, keys: seq<string>, now: int)
    requires c == Execute(lim, calls).cache && AllNew(keys, c) && |c.expiry| + |keys| <= lim.capacity
    requires c.order != [] && c.order[0].expires > now
    ensures FilledWith(c, Execute(lim, calls + Fillers(keys, now)).cache, keys)
    decreases |keys|
  {
    if keys == [] {
      assert calls + Fillers(keys, now) == calls;
    } else {
      var n := |keys| - 1;
      var front := calls + Fillers(keys[..n], now);
      NewInFront(keys, c);
      FillersFill(lim, calls, c, keys[..n], now);
      FillersGrow(calls, keys, now);
      FillerStep(lim, c, front, Execute(lim, front).cache, keys[..n], keys[n], now);
    }
  }

  /** The longest queue `workers` overlapping calls can make: renewals of one key behind an entry, then a full map. */
  function LongRun(lim: Limits, workers: nat, x: string, k: string, fillers: seq<string>): seq<Call> {
    [Call(x, (workers - 2) * lim.ttl + 1)] + Renewals(lim, k, workers) + Fillers(fillers, (workers - 1) * lim.ttl)
  }

  lemma LongRunFills(lim: Limits, workers: nat, x: string, k: string, fillers: seq<string>)
    requires lim.capacity >= 3 && lim.ttl > 0 && workers >= 1 && |fillers| == lim.capacity - 2
    requires x != k && x !in fillers && k !in fillers
    requires AllDifferent(fillers)
    ensures |Execute(lim, LongRun(lim, workers, x, k, fillers)).cache.order| == lim.capacity + workers - 1
  {
    Spacing(workers, lim.ttl);
    StackFills(lim, workers, x, k, fillers, (workers - 2) * lim.ttl + 1, (workers - 1) * lim.ttl);
  }

  lemma StackFills(lim: Limits, n: nat, x: string, k: string, fillers: seq<string>, ahead: int, now: int)
    requires lim.capacity >= 3 && lim.ttl > 0 && n >= 1 && |fillers| == lim.capacity - 2
    requires x != k && x !in fillers && k !in fillers && AllDifferent(fillers)
    requires n * lim.ttl < ahead + 2 * lim.ttl && now < ahead + lim.ttl
    ensures |Execute(lim, [Call(x, ahead)] + Renewals(lim, k, n) + Fillers(fillers, now)).cache.order|
      == lim.capacity + n - 1
  {
    var calls := [Call(x, ahead)] + Renewals(lim, k, n);
    QueueCanOutgrowCapacity(lim, x, k, n, ahead);
    StackedIsReady(lim, Execute(lim, calls).cache, x, k, n, ahead, fillers);
    FillersFill(lim, calls, Execute(lim, calls).cache, fillers, now);
  }

  lemma Spacing(n: nat, ttl: nat)
    ensures (n - 1) * ttl == (n - 2) * ttl + ttl && n * ttl == (n - 2) * ttl + 2 * ttl
  {
  }

  lemma StackedIsReady(lim: Limits, c: Cache, x: string, k: string, n: nat, ahead: int, fillers: seq<string>)
    requires Stacked(lim, c, x, k, n, ahead) && n >= 1 && x != k && x !in fillers && k !in fillers
    requires AllDifferent(fillers)
    ensures |c.expiry| == 2 && AllNew(fillers, c) && |c.order| == n + 1 && c.order[0].expires == ahead + lim.ttl
  {
    assert c.expiry.Keys == {x, k};
  }

  /** Four readings, and when a cache with room for two keys is overfilled by calls at them. */
  datatype Readings = Readings(ahead: int, first: int, again: int, late: int)

  predicate Overfilling(lim: Limits, r: Readings) {
    r.first + lim.ttl <= r.again < r.ahead + lim.ttl && r.late < r.first + lim.ttl
  }

  /** With room for two keys a superseded entry outlives the one that kept it. */
  function ShortRun(x: string, k: string, y: string, r: Readings): seq<Call> {
    [Call(x, r.ahead), Call(k, r.first), Call(k, r.again), Call(y, r.late)]
  }

  lemma ShortRunOverfills(lim: Limits, x: string, k: string, y: string, r: Readings)
    requires lim.capacity == 2 && Overfilling(lim, r) && x != k && k != y
    ensures |Execute(lim, ShortRun(x, k, y, r)).cache.order| == 3
  {
    var three := [Call(x, r.ahead), Call(k, r.first), Call(k, r.again)];
    var c := Record(Lone(k, r.first + lim.ttl), k, r.again + lim.ttl);
    assert Execute(lim, three).cache == c by {
      ThreeCalls(lim, x, k, r);
    }
    assert c.expiry.Keys == {k};
    RoomForMore(lim, c, y, r.late);
    ExecuteMore(lim, three, Call(y, r.late));
    assert three + [Call(y, r.late)] == ShortRun(x, k, y, r);
  }

  function Lone(key: string, expires: int): Cache {
    Cache(map[key := expires], [Entry(key, expires)])
  }

  lemma ThreeCalls(lim: Limits, x: string, k: string, r: Readings)
    requires lim.capacity == 2 && Overfilling(lim, r) && x != k
    ensures Execute(lim, [Call(x, r.ahead), Call(k, r.first), Call(k, r.again)]).cache
      == Record(Lone(k, r.first + lim.ttl), k, r.again + lim.ttl)
  {
    var one, two := [Call(x, r.ahead)], [Call(x, r.ahead), Call(k, r.first)];
    var c1 := Record(EMPTY, x, r.ahead + lim.ttl);
    RoomForMore(lim, EMPTY, x, r.ahead);
    ExecuteMore(lim, [], Call(x, r.ahead));
    assert [] + one == one && |c1.expiry| == 1;
    RoomForMore(lim, c1, k, r.first);
    ExecuteMore(lim, one, Call(k, r.first));
    assert one + [Call(k, r.first)] == two;
    SecondEvicted(lim, x, k, r, Record(c1, k, r.first + lim.ttl));
    ExecuteMore(lim, two, Call(k, r.again));
    assert two + [Call(k, r.again)] == [Call(x, r.ahead), Call(k, r.first), Call(k, r.again)];
  }

  lemma SecondEvicted(lim: Limits, x: string, k: string, r: Readings, c: Cache)
    requires lim.capacity == 2 && Overfilling(lim, r) && x != k
    requires c == Cache(map[x := r.ahead + lim.ttl, k := r.first + lim.ttl],
                        [Entry(x, r.ahead + lim.ttl), Entry(k, r.first + lim.ttl)])
    ensures Offer(lim, c, k, r.again) == Answer(Record(Lone(k, r.first + lim.ttl), k, r.again + lim.ttl), true)
  {
    assert Purge(c, r.again) == c;
    assert c.expiry.Keys == {x, k};
    var d := DequeueOne(c);
    assert d == Lone(k, r.first + lim.ttl);
    assert d.expiry.Keys == {k};
    assert Evict(d, 2) == d && Evict(c, 2) == d;
  }

  // ---------------------------------------------------------------------------
  // Room for two keys never takes more than three entries

  /** Three entries are two of one key and then one of another. */
  ghost predicate Short(c: Cache) {
    && Agrees(c) && |c.order| <= 3
    && (|c.order| == 3 ==> c.order[0].key == c.order[1].key && c.order[2].key != c.order[0].key)
  }

  lemma TwoBound(c: Cache, i: nat, j: nat)
    requires Agrees(c) && i < |c.order| && j < |c.order| && c.order[i].key != c.order[j].key
    ensures |c.expiry| >= 2
  {
    assert IsBound(c, i) && IsBound(c, j);
    var two := {c.order[i].key, c.order[j].key};
    assert |two| + |c.expiry.Keys - two| == |c.expiry.Keys|;
  }

  /** Once a key has been evicted, the entries left are of one key, and there are at most two. */
  lemma EvictedIsShort(c: Cache, d: Cache, k: nat)
    requires Short(c) && k <= |c.order| && d.order == c.order[k..] && Agrees(d) && |d.expiry| < 2
    ensures |d.order| <= 2 && (|d.order| == 2 ==> d.order[0].key == d.order[1].key && d.order[0] == c.order[0])
  {
    if |d.order| == 3 {
      TwoBound(d, 0, 2);
    } else if |d.order| == 2 && d.order[0].key != d.order[1].key {
      TwoBound(d, 0, 1);
    }
  }

  lemma RecordKeepsShort(lim: Limits, c: Cache, key: string, now: int)
    requires lim.ttl > 0 && Agrees(c) && |c.order| <= 2 && !Live(c, key, now)
    requires |c.order| == 2 ==> c.order[0].key == c.order[1].key && c.order[0].expires > now
    ensures Short(Record(c, key, now + lim.ttl))
  {
    RecordKeepsAgreement(c, key, now + lim.ttl);
    if |c.order| == 2 {
      assert IsBound(c, 0) && NotAhead(c, 0);
    }
  }

  lemma PurgeKeepsShort(c: Cache, now: int)
    requires Short(c)
    ensures Short(Purge(c, now))
  {
    var k := PurgeTakesFront(c, now);
    PurgeKeeps(c, now);
  }

  lemma AcceptKeepsShort(lim: Limits, c: Cache, d: Cache, k: nat, key: string, now: int)
    requires lim.ttl > 0 && Short(c) && (c.order != [] ==> c.order[0].expires > now)
    requires k <= |c.order| && d.order == c.order[k..] && Agrees(d) && |d.expiry| < 2 && !Live(d, key, now)
    ensures Short(Record(d, key, now + lim.ttl))
  {
    EvictedIsShort(c, d, k);
    RecordKeepsShort(lim, d, key, now);
  }

  lemma DecideKeepsShort(lim: Limits, c: Cache, key: string, now: int)
    requires lim.capacity == 2 && lim.ttl > 0 && Short(c) && (c.order != [] ==> c.order[0].expires > now)
    ensures Short(Decide(lim, c, key, now).cache)
  {
    if !Live(c, key, now) {
      EvictMakesRoom(c, 2, key, now);
      var k := EvictTakesFront(c, 2);
      AcceptKeepsShort(lim, c, Evict(c, 2), k, key, now);
    }
  }

  lemma OfferKeepsShort(lim: Limits, c: Cache, key: string, now: int)
    requires lim.capacity == 2 && lim.ttl > 0 && Short(c)
    ensures Short(Offer(lim, c, key, now).cache)
  {
    PurgeKeepsShort(c, now);
    PurgedFrontIsLive(c, now);
    DecideKeepsShort(lim, Purge(c, now), key, now);
  }

  /** Whatever the readings and however many calls overlap. */
  lemma {:induction false} ThreeAreEnough(lim: Limits, calls: seq<Call>)
    requires lim.capacity == 2 && lim.ttl > 0
    ensures Short(Execute(lim, calls).cache)
    decreases |calls|
  {
    if calls != [] {
      var n := |calls| - 1;
      ThreeAreEnough(lim, calls[..n]);
      OfferKeepsShort(lim, Execute(lim, calls[..n]).cache, calls[n].key, calls[n].now);
    }
  }

  // ---------------------------------------------------------------------------
  // Lifetimes of less than two ticks, with room for two keys

  function Pair(e: Entry, f: Entry): Cache {
    Record(Lone(e.key, e.expires), f.key, f.expires)
  }

  /** The map is what recording the queued entries makes it. */
  ghost predicate Plain(c: Cache) {
    && |c.order| <= 2
    && (c.order == [] ==> c == EMPTY)
    && (|c.order| == 1 ==> c == Lone(c.order[0].key, c.order[0].expires))
    && (|c.order| == 2 ==> c == Pair(c.order[0], c.order[1]))
  }

  /** Two entries of one key were both overtaken. */
  ghost predicate Crowded(c: Cache, bar: int) {
    |c.order| == 2 && c.order[0].key == c.order[1].key ==> c.order[0].expires < bar && c.order[1].expires < bar
  }

  /** What holds besides `Loose` in the two cases in which a queue of two entries never grows. */
  ghost predicate Roomy(lim: Limits, c: Cache, slots: int, bar: int) {
    && (lim.capacity == 2 && lim.ttl == 1 && slots <= 1 ==> |c.order| <= 2)
    && (lim.capacity == 2 && lim.ttl == 0 && slots <= 2 ==> Plain(c) && Crowded(c, bar))
  }

  lemma CountOfTwo(order: seq<Entry>, x: int)
    requires |order| == 2
    ensures CountBelow(order, x) == (if order[0].expires < x then 1 else 0) + (if order[1].expires < x then 1 else 0)
  {
    assert order[1..][1..] == [];
    assert CountBelow(order[1..], x) == if order[1].expires < x then 1 else 0;
  }

  lemma EvictOne(key: string, expires: int)
    ensures Evict(Lone(key, expires), 2) == Lone(key, expires)
  {
    assert Lone(key, expires).expiry.Keys == {key};
  }

  lemma DequeuePair(e: Entry, f: Entry)
    requires e != f
    ensures DequeueOne(Pair(e, f)) == Lone(f.key, f.expires)
  {
    var d := DequeueOne(Pair(e, f));
    assert d.expiry == map[f.key := f.expires] && d.order == [f];
  }

  /** Room for two is room for two entries of one key; of two keys one goes. */
  lemma EvictPair(e: Entry, f: Entry)
    ensures Evict(Pair(e, f), 2) == if e.key == f.key then Pair(e, f) else Lone(f.key, f.expires)
  {
    assert Pair(e, f).expiry.Keys == {e.key, f.key};
    if e.key == f.key {
      assert {e.key, f.key} == {e.key};
    } else {
      DequeuePair(e, f);
      EvictOne(f.key, f.expires);
    }
  }

  lemma PurgeLone(key: string, expires: int, now: int)
    ensures Purge(Lone(key, expires), now) == if expires <= now then EMPTY else Lone(key, expires)
  {
    var d := DequeueOne(Lone(key, expires));
    assert d.expiry == map[] && d.order == [];
  }

  lemma PurgePair(e: Entry, f: Entry, now: int)
    ensures Purge(Pair(e, f), now) ==
      if now < e.expires then Pair(e, f) else if f.expires <= now then EMPTY else Lone(f.key, f.expires)
  {
    if e.expires <= now {
      if e == f {
        var d := DequeueOne(Pair(e, f));
        assert d.expiry == map[] && d.order == [f] && DequeueOne(d) == EMPTY && Purge(d, now) == EMPTY;
      } else {
        DequeuePair(e, f);
        PurgeLone(f.key, f.expires, now);
      }
    }
  }

  lemma PurgeKeepsPlain(c: Cache, now: int)
    requires Plain(c)
    ensures Plain(Purge(c, now)) && (|Purge(c, now).order| == 2 ==> Purge(c, now) == c)
  {
    if |c.order| == 1 {
      PurgeLone(c.order[0].key, c.order[0].expires, now);
    } else if |c.order| == 2 {
      PurgePair(c.order[0], c.order[1], now);
    }
  }

  // One tick

  /** A superseded entry is expired for every call under way. */
  lemma OneTickKeepsRoom(lim: Limits, c: Cache, key: string, now: int, out: int -> nat, slots: int, bar: int)
    requires lim.capacity == 2 && lim.ttl == 1 && slots <= 1 && Loose(lim, c, out, slots, bar) && |c.order| <= 2
    requires now + 1 < bar ==> out(bar) >= 1
    ensures |Offer(lim, c, key, now).cache.order| <= 2
  {
    if |c.order| == 2 && c.order[0].expires > now {
      StaleFrontCounts(c, bar);
      CurrentFrontIsPlain(c);
      EvictPair(c.order[0], c.order[1]);
    } else {
      var k := PurgeTakesFront(if |c.order| == 2 then DequeueOne(c) else c, now);
      AcceptAddsOne(lim, Purge(c, now), key, now);
    }
  }

  lemma StaleFrontCounts(c: Cache, bar: int)
    requires |c.order| == 2 && StaleBelow(c, bar)
    ensures IsCurrent(c, c.order[0]) || (c.order[0].expires < bar && CountBelow(c.order, bar) >= 1)
  {
    assert IsCurrent(c, c.order[0]) || c.order[0].expires < bar;
  }

  lemma CurrentFrontIsPlain(c: Cache)
    requires Agrees(c) && |c.order| == 2 && IsCurrent(c, c.order[0])
    ensures c == Pair(c.order[0], c.order[1]) && c.order[0].key != c.order[1].key
  {
    var e, f := c.order[0], c.order[1];
    assert Rises(c.order, 0, 1) && NotAhead(c, 1);
    LastEntryIsBinding(c, 1);
    forall k | k in c.expiry ensures k == e.key || k == f.key {
      assert Entry(k, c.expiry[k]) in c.order;
    }
    assert c.expiry == map[e.key := e.expires, f.key := f.expires];
    assert c.order == [e, f];
  }

  lemma AcceptAddsOne(lim: Limits, c: Cache, key: string, now: int)
    requires |c.order| <= 1
    ensures |Decide(lim, c, key, now).cache.order| <= 2
  {
    var k := EvictTakesFront(c, lim.capacity);
  }

  // No tick

  /** With at most three callers two entries of one key cannot both be live. */
  lemma NoTickKeepsRoom(lim: Limits, c: Cache, key: string, now: int, out: int -> nat, slots: int, bar: int,
      raised: int)
    requires lim.capacity == 2 && lim.ttl == 0 && slots <= 2 && Plain(c) && Crowded(c, bar)
    requires CountBelow(c.order, bar) + out(bar) <= slots && (now < bar ==> out(bar) >= 1) && raised >= bar
    requires Purge(c, now).order != [] ==> raised >= Purge(c, now).order[0].expires
    ensures Plain(Offer(lim, c, key, now).cache) && Crowded(Offer(lim, c, key, now).cache, raised)
  {
    PurgeKeepsPlain(c, now);
    PurgedFrontIsLive(c, now);
    if |Purge(c, now).order| == 2 {
      CountOfTwo(c.order, bar);
    }
    DecideKeepsRoom(lim, Purge(c, now), key, now, raised);
  }

  lemma DecideKeepsRoom(lim: Limits, c: Cache, key: string, now: int, raised: int)
    requires lim.capacity == 2 && lim.ttl == 0 && Plain(c) && (c.order != [] ==> now < c.order[0].expires <= raised)
    requires |c.order| == 2 ==> c.order[0].key != c.order[1].key
    ensures Plain(Decide(lim, c, key, now).cache) && Crowded(Decide(lim, c, key, now).cache, raised)
  {
    if c.order == [] {
      assert Evict(EMPTY, 2) == EMPTY;
    } else if |c.order| == 1 {
      RoomBehindOne(lim, c.order[0], key, now, raised);
    } else {
      RoomInPair(lim, c.order[0], c.order[1], key, now, raised);
    }
  }

  lemma RoomBehindOne(lim: Limits, e: Entry, key: string, now: int, raised: int)
    requires lim.capacity == 2 && lim.ttl == 0 && now < e.expires
    ensures var d := Decide(lim, Lone(e.key, e.expires), key, now).cache; Plain(d) && Crowded(d, raised)
  {
    EvictOne(e.key, e.expires);
  }

  lemma RoomInPair(lim: Limits, e: Entry, f: Entry, key: string, now: int, raised: int)
    requires lim.capacity == 2 && lim.ttl == 0 && e.key != f.key && now < e.expires <= raised
    ensures var d := Decide(lim, Pair(e, f), key, now).cache; Plain(d) && Crowded(d, raised)
  {
    EvictPair(e, f);
  }

  /** In both cases the room suffices for one call more. */
  lemma OfferKeepsRoom(lim: Limits, c: Cache, key: string, now: int, out: int -> nat, left: int -> nat, slots: int,
                       bar: int, raised: int)
    requires Loose(lim, c, out, slots, bar) && Roomy(lim, c, slots, bar) && Ends(out, left, now + lim.ttl)
    requires raised >= bar && (Purge(c, now).order != [] ==> raised >= Purge(c, now).order[0].expires)
    ensures Roomy(lim, Offer(lim, c, key, now).cache, slots, raised)
  {
    assert left(bar) + (if now + lim.ttl < bar then 1 else 0) <= out(bar);
    if lim.capacity == 2 && lim.ttl == 1 && slots <= 1 {
      OneTickKeepsRoom(lim, c, key, now, out, slots, bar);
    } else if lim.capacity == 2 && lim.ttl == 0 && slots <= 2 {
      NoTickKeepsRoom(lim, c, key, now, out, slots, bar, raised);
    }
  }

  // ---------------------------------------------------------------------------
  // When the history scan fails

  /**
   A call whose reading is older than the last one purged: for every lifetime and every
   capacity but one, the cache admits a key that the scan of its history refuses.
   */
  lemma ScanNeedsMonotoneReadings(lim: Limits, a: string, b: string)
    requires lim.capacity >= 2 && a != b
    ensures var r := Execute(lim, [Call(a, 1), Call(b, 1 + lim.ttl)]);
      && SeenRecently(lim, r.accepted, a, 0)
      && Offer(lim, r.cache, a, 0).accepted
  {
    var c1 := Record(EMPTY, a, 1 + lim.ttl);
    RoomForMore(lim, EMPTY, a, 1);
    ExecuteMore(lim, [], Call(a, 1));
    assert [] + [Call(a, 1)] == [Call(a, 1)];
    assert DequeueOne(c1) == EMPTY;
    assert Purge(c1, 1 + lim.ttl) == EMPTY;
    assert Evict(EMPTY, lim.capacity) == EMPTY;
    ExecuteMore(lim, [Call(a, 1)], Call(b, 1 + lim.ttl));
    assert [Call(a, 1)] + [Call(b, 1 + lim.ttl)] == [Call(a, 1), Call(b, 1 + lim.ttl)];
    var r := Execute(lim, [Call(a, 1), Call(b, 1 + lim.ttl)]);
    assert r.accepted == [Call(a, 1), Call(b, 1 + lim.ttl)];
    assert r.cache == Record(EMPTY, b, 1 + lim.ttl + lim.ttl);
    assert !Live(Purge(r.cache, 0), a, 0) by {
      PurgeSparesLive(r.cache, a, 0);
    }
    assert r.accepted[0] == Call(a, 1);
  }

  /** The cache is its last accepted call. */
  ghost predicate IsLast(lim: Limits, c: Cache, accepted: seq<Call>) {
    c == if accepted == [] then EMPTY else
      var last := accepted[|accepted| - 1]; Record(EMPTY, last.key, last.now + lim.ttl)
  }

  lemma OfferToOne(lim: Limits, last: Call, call: Call)
    requires lim.capacity == 1
    ensures var c := Record(EMPTY, last.key, last.now + lim.ttl);
      Offer(lim, c, call.key, call.now) ==
        if last.key == call.key && call.now < last.now + lim.ttl then Answer(c, false)
        else Answer(Record(EMPTY, call.key, call.now + lim.ttl), true)
  {
    var c := Record(EMPTY, last.key, last.now + lim.ttl);
    assert DequeueOne(c) == EMPTY;
    assert c.expiry.Keys == {last.key};
    assert Evict(EMPTY, 1) == EMPTY && Evict(c, 1) == EMPTY;
    if last.now + lim.ttl <= call.now {
      assert Purge(c, call.now) == EMPTY;
    } else {
      assert Purge(c, call.now) == c;
    }
  }

  /** With room for one key only the last accepted call can refuse. */
  lemma ScanOfLast(lim: Limits, accepted: seq<Call>, key: string, now: int)
    requires lim.capacity == 1
    ensures SeenRecently(lim, accepted, key, now) <==>
      && accepted != [] && accepted[|accepted| - 1].key == key && now < accepted[|accepted| - 1].now + lim.ttl
  {
  }

  lemma LastDecides(lim: Limits, c: Cache, accepted: seq<Call>, call: Call)
    requires lim.capacity == 1 && IsLast(lim, c, accepted)
    ensures Offer(lim, c, call.key, call.now) ==
      if SeenRecently(lim, accepted, call.key, call.now) then Answer(c, false)
      else Answer(Record(EMPTY, call.key, call.now + lim.ttl), true)
  {
    ScanOfLast(lim, accepted, call.key, call.now);
    if accepted == [] {
      assert c == EMPTY;
      RoomForMore(lim, EMPTY, call.key, call.now);
    } else {
      var last := accepted[|accepted| - 1];
      assert c == Record(EMPTY, last.key, last.now + lim.ttl);
      OfferToOne(lim, last, call);
    }
  }

  lemma ExtendIsLast(lim: Limits, r: Run, call: Call)
    requires lim.capacity == 1 && IsLast(lim, r.cache, r.accepted)
    ensures IsLast(lim, Extend(lim, r, call).cache, Extend(lim, r, call).accepted)
  {
    LastDecides(lim, r.cache, r.accepted, call);
  }

  lemma {:induction false} CacheIsLastAccepted(lim: Limits, calls: seq<Call>)
    requires lim.capacity == 1
    ensures IsLast(lim, Execute(lim, calls).cache, Execute(lim, calls).accepted)
    decreases |calls|
  {
    if calls != [] {
      var n := |calls| - 1;
      CacheIsLastAccepted(lim, calls[..n]);
      ExtendIsLast(lim, Execute(lim, calls[..n]), calls[n]);
    }
  }

  /** With room for one key the scan holds for readings in any order. */
  lemma CapacityOneMatchesScan(lim: Limits, calls: seq<Call>, call: Call)
    requires lim.capacity == 1
    ensures var r := Execute(lim, calls);
      Offer(lim, r.cache, call.key, call.now).accepted <==> !SeenRecently(lim, r.accepted, call.key, call.now)
  {
    CacheIsLastAccepted(lim, calls);
    LastDecides(lim, Execute(lim, calls).cache, Execute(lim, calls).accepted, call);
  }
}
