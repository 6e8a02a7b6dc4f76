/**
 Duplicate suppression (dedup.rs): a map from key to expiry and a FIFO queue of
 insertions, bounded by a lifetime and a capacity. The clock is read before the
 lock is taken, so the readings may reach the cache out of order.
 */
module Dedup {

  datatype Entry = Entry(key: string, expires: int)

  datatype Cache = Cache(expiry: map<string, int>, order: seq<Entry>)

  datatype Limits = Limits(capacity: nat, ttl: nat)

  const EMPTY: Cache := Cache(map[], [])

  /** Pops the oldest insertion; the key is forgotten only if the entry is its current one. */
  function DequeueOne(c: Cache): Cache {
    if c.order == [] then c else
    var e := c.order[0];
    Cache(
      if e.key in c.expiry && c.expiry[e.key] == e.expires then c.expiry - {e.key} else c.expiry,
      c.order[1..])
  }

  function Purge(c: Cache, now: int): Cache
    decreases |c.order|
  {
    if c.order != [] && c.order[0].expires <= now then Purge(DequeueOne(c), now) else c
  }

  function Evict(c: Cache, capacity: nat): Cache
    decreases |c.order|
  {
    if |c.expiry| >= capacity && c.order != [] then Evict(DequeueOne(c), capacity) else c
  }

  predicate Live(c: Cache, key: string, now: int) {
    key in c.expiry && c.expiry[key] > now
  }

  function Record(c: Cache, key: string, expires: int): Cache {
    Cache(c.expiry[key := expires], c.order + [Entry(key, expires)])
  }

  datatype Answer = Answer(cache: Cache, accepted: bool)

  /** What happens once the expired front of the queue is gone. */
  function Decide(lim: Limits, c: Cache, key: string, now: int): Answer {
    if Live(c, key, now) then Answer(c, false)
    else Answer(Record(Evict(c, lim.capacity), key, now + lim.ttl), true)
  }

  /** The value-level meaning of `try_add`. */
  function Offer(lim: Limits, c: Cache, key: string, now: int): Answer {
    Decide(lim, Purge(c, now), key, now)
  }

  class DedupCache {
    var expiryByKey: map<string, int>
    var insertionOrder: seq<Entry>
    const limits: Limits

    ghost function State(): Cache
      reads this
    {
      Cache(expiryByKey, insertionOrder)
    }

    constructor (capacity: nat, ttl: nat)
      requires capacity >= 1
      ensures State() == EMPTY && limits == Limits(capacity, ttl)
    {
      expiryByKey, insertionOrder := map[], [];
      limits := Limits(capacity, ttl);
    }

    /** `now` is the clock reading the caller took before the lock. */
    method TryAdd(key: string, now: int) returns (accepted: bool)
      modifies this
      ensures Answer(State(), accepted) == Offer(limits, old(State()), key, now)
    {
      PurgeExpired(now);
      accepted := AddUnlessLive(key, now);
    }

    method AddUnlessLive(key: string, now: int) returns (accepted: bool)
      modifies this
      ensures Answer(State(), accepted) == Decide(limits, old(State()), key, now)
    {
      if key in expiryByKey && expiryByKey[key] > now {
        return false;
      }
      MakeRoom();
      ghost var room := State();
      var expires := now + limits.ttl;
      expiryByKey := expiryByKey[key := expires];
      insertionOrder := insertionOrder + [Entry(key, expires)];
      assert State() == Record(room, key, expires);
      return true;
    }

    method PurgeExpired(now: int)
      modifies this
      ensures State() == Purge(old(State()), now)
    {
      while insertionOrder != [] && insertionOrder[0].expires <= now
        invariant Purge(State(), now) == Purge(old(State()), now)
        decreases |insertionOrder|
      {
        DequeueFront();
      }
    }

    method MakeRoom()
      modifies this
      ensures State() == Evict(old(State()), limits.capacity)
    {
      while |expiryByKey| >= limits.capacity && insertionOrder != []
        invariant Evict(State(), limits.capacity) == Evict(old(State()), limits.capacity)
        decreases |insertionOrder|
      {
        DequeueFront();
      }
    }

    method DequeueFront()
      requires insertionOrder != []
      modifies this
      ensures State() == DequeueOne(old(State()))
      ensures |insertionOrder| < old(|insertionOrder|)
    {
      var front := insertionOrder[0];
      insertionOrder := insertionOrder[1..];
      if front.key in expiryByKey && expiryByKey[front.key] == front.expires {
        expiryByKey := expiryByKey - {front.key};
      }
    }
  }

  // ---------------------------------------------------------------------------
  // The map and the queue agree, whatever the clock readings

  /** The map only binds queued insertions, and each binding is the newest queued for its key. */
  ghost predicate Backed(c: Cache) {
    && (forall k :: k in c.expiry ==> Entry(k, c.expiry[k]) in c.order)
    && (forall i :: 0 <= i < |c.order| ==> NotAhead(c, i))
  }

  ghost predicate NotAhead(c: Cache, i: nat)
    requires i < |c.order|
  {
    c.order[i].key in c.expiry ==> c.order[i].expires <= c.expiry[c.order[i].key]
  }

  ghost predicate IsBound(c: Cache, i: nat)
    requires i < |c.order|
  {
    c.order[i].key in c.expiry
  }

  /** A key's queued expiries strictly increase. */
  ghost predicate Increasing(order: seq<Entry>) {
    forall i, j :: 0 <= i < j < |order| ==> Rises(order, i, j)
  }

  ghost predicate Rises(order: seq<Entry>, i: nat, j: nat)
    requires i < |order| && j < |order|
  {
    order[i].key == order[j].key ==> order[i].expires < order[j].expires
  }

  /** Full agreement: a key is bound iff it is queued, to the last of its strictly increasing expiries. */
  ghost predicate Agrees(c: Cache) {
    && Backed(c)
    && Increasing(c.order)
    && (forall i :: 0 <= i < |c.order| ==> IsBound(c, i))
  }

  /** What agreement says about one key's last queued entry. */
  lemma LastEntryIsBinding(c: Cache, i: nat)
    requires Agrees(c) && i < |c.order|
    requires forall j :: i < j < |c.order| ==> c.order[j].key != c.order[i].key
    ensures c.order[i].key in c.expiry && c.expiry[c.order[i].key] == c.order[i].expires
  {
    var k := c.order[i].key;
    assert IsBound(c, i) && NotAhead(c, i);
    var j :| 0 <= j < |c.order| && c.order[j] == Entry(k, c.expiry[k]);
    assert j < i ==> Rises(c.order, j, i);
  }

  lemma DequeueKeepsBacked(c: Cache)
    requires Backed(c)
    ensures Backed(DequeueOne(c))
  {
    if c.order != [] {
      var d := DequeueOne(c);
      assert c.order == [c.order[0]] + d.order;
      forall k | k in d.expiry ensures Entry(k, d.expiry[k]) in d.order {
        assert Entry(k, c.expiry[k]) in c.order;
        assert Entry(k, c.expiry[k]) != c.order[0];
      }
      forall i | 0 <= i < |d.order| ensures NotAhead(d, i) {
        assert NotAhead(c, i + 1);
      }
    }
  }

  /** Dropping the oldest entry never forgets a key that still has a queued entry. */
  lemma DequeueKeepsAgreement(c: Cache)
    requires Agrees(c)
    ensures Agrees(DequeueOne(c))
    ensures c.order != [] && (exists j :: 0 < j < |c.order| && c.order[j].key == c.order[0].key) ==>
      c.order[0].key in DequeueOne(c).expiry && DequeueOne(c).expiry == c.expiry
  {
    DequeueKeepsBacked(c);
    if c.order != [] {
      var d := DequeueOne(c);
      forall i | 0 <= i < |d.order| ensures IsBound(d, i) {
        assert IsBound(c, i + 1) && NotAhead(c, i + 1) && Rises(c.order, 0, i + 1);
      }
      forall i, j | 0 <= i < j < |d.order| ensures Rises(d.order, i, j) {
        assert Rises(c.order, i + 1, j + 1);
      }
      forall j | 0 < j < |c.order| && c.order[j].key == c.order[0].key
        ensures c.order[0].key in d.expiry && d.expiry == c.expiry
      {
        assert Rises(c.order, 0, j) && IsBound(c, j) && NotAhead(c, j);
      }
    }
  }

  lemma {:induction false} PurgeKeeps(c: Cache, now: int)
    ensures Backed(c) ==> Backed(Purge(c, now))
    ensures Agrees(c) ==> Agrees(Purge(c, now))
    ensures |Purge(c, now).expiry| <= |c.expiry|
    decreases |c.order|
  {
    if c.order != [] && c.order[0].expires <= now {
      if Backed(c) { DequeueKeepsBacked(c); }
      if Agrees(c) { DequeueKeepsAgreement(c); }
      DequeueShrinks(c);
      PurgeKeeps(DequeueOne(c), now);
    }
  }

  lemma DequeueShrinks(c: Cache)
    ensures |DequeueOne(c).expiry| <= |c.expiry|
  {
    if c.order != [] && c.order[0].key in c.expiry {
      assert (c.expiry - {c.order[0].key}).Keys == c.expiry.Keys - {c.order[0].key};
    }
  }

  lemma {:induction false} EvictKeeps(c: Cache, capacity: nat)
    requires Backed(c) && capacity >= 1
    ensures Backed(Evict(c, capacity)) && |Evict(c, capacity).expiry| < capacity
    ensures Agrees(c) ==> Agrees(Evict(c, capacity))
    ensures forall k :: k in Evict(c, capacity).expiry ==> k in c.expiry && Evict(c, capacity).expiry[k] == c.expiry[k]
    decreases |c.order|
  {
    if |c.expiry| >= capacity && c.order != [] {
      DequeueKeepsBacked(c);
      if Agrees(c) { DequeueKeepsAgreement(c); }
      EvictKeeps(DequeueOne(c), capacity);
    } else if c.order == [] {
      forall k ensures k !in c.expiry {}
      assert c.expiry == map[];
    }
  }

  lemma RecordKeepsBacked(c: Cache, key: string, expires: int)
    requires Backed(c) && (key in c.expiry ==> c.expiry[key] <= expires)
    requires forall i :: 0 <= i < |c.order| && c.order[i].key == key ==> c.order[i].expires <= expires
    ensures Backed(Record(c, key, expires))
  {
    var d := Record(c, key, expires);
    forall k | k in d.expiry ensures Entry(k, d.expiry[k]) in d.order {
      if k != key {
        assert Entry(k, c.expiry[k]) in c.order;
      } else {
        assert d.order[|c.order|] == Entry(key, expires);
      }
    }
    forall i | 0 <= i < |d.order| ensures NotAhead(d, i) {
      assert i < |c.order| ==> NotAhead(c, i);
    }
  }

  lemma RecordKeepsAgreement(c: Cache, key: string, expires: int)
    requires Agrees(c) && (key in c.expiry ==> c.expiry[key] < expires)
    ensures Agrees(Record(c, key, expires)) && |Record(c, key, expires).expiry| <= |c.expiry| + 1
  {
    forall i | 0 <= i < |c.order| && c.order[i].key == key ensures c.order[i].expires <= expires {
      assert IsBound(c, i) && NotAhead(c, i);
    }
    RecordKeepsBacked(c, key, expires);
    RecordSize(c, key, expires);
    forall i | 0 <= i < |c.order| + 1 ensures IsBound(Record(c, key, expires), i) {
      assert i < |c.order| ==> IsBound(c, i);
    }
    var order := Record(c, key, expires).order;
    forall i, j | 0 <= i < j < |order| ensures Rises(order, i, j) {
      if j < |c.order| {
        assert Rises(c.order, i, j);
      } else {
        assert IsBound(c, i) && NotAhead(c, i);
      }
    }
  }

  lemma RecordSize(c: Cache, key: string, expires: int)
    ensures |Record(c, key, expires).expiry| <= |c.expiry| + 1
  {
    assert c.expiry[key := expires].Keys == c.expiry.Keys + {key};
  }

  /**
   Under arbitrary clock readings and a positive lifetime every call keeps map and
   queue in agreement and the map within capacity. The answer is `false` exactly
   when the key is bound to an expiry after `now`, and an accepted key is bound.
   */
  lemma OfferKeepsAgreement(lim: Limits, c: Cache, key: string, now: int)
    requires lim.capacity >= 1 && lim.ttl > 0 && Agrees(c) && |c.expiry| <= lim.capacity
    ensures Agrees(Offer(lim, c, key, now).cache)
    ensures |Offer(lim, c, key, now).cache.expiry| <= lim.capacity
    ensures Offer(lim, c, key, now).accepted <==> !Live(c, key, now)
    ensures Live(Offer(lim, c, key, now).cache, key, now)
  {
    var purged := Purge(c, now);
    assert Agrees(purged) && |purged.expiry| <= lim.capacity by {
      PurgeKeeps(c, now);
    }
    PurgeSparesLive(c, key, now);
    DecideKeepsAgreement(lim, purged, key, now);
  }

  lemma DecideKeepsAgreement(lim: Limits, c: Cache, key: string, now: int)
    requires lim.capacity >= 1 && lim.ttl > 0 && Agrees(c) && |c.expiry| <= lim.capacity
    ensures var a := Decide(lim, c, key, now);
      Agrees(a.cache) && |a.cache.expiry| <= lim.capacity && Live(a.cache, key, now)
  {
    if !Live(c, key, now) {
      AcceptKeepsAgreement(lim, c, key, now);
    }
  }

  lemma AcceptKeepsAgreement(lim: Limits, c: Cache, key: string, now: int)
    requires lim.capacity >= 1 && lim.ttl > 0 && Agrees(c) && !Live(c, key, now)
    ensures var d := Decide(lim, c, key, now).cache;
      Agrees(d) && |d.expiry| <= lim.capacity && Live(d, key, now)
  {
    assert Decide(lim, c, key, now) == Answer(Record(Evict(c, lim.capacity), key, now + lim.ttl), true);
    EvictMakesRoom(c, lim.capacity, key, now);
    InsertKeepsAgreement(lim, Evict(c, lim.capacity), key, now);
  }

  lemma {:induction false} EvictMakesRoom(c: Cache, capacity: nat, key: string, now: int)
    requires capacity >= 1 && Agrees(c) && !Live(c, key, now)
    ensures Agrees(Evict(c, capacity)) && |Evict(c, capacity).expiry| < capacity && !Live(Evict(c, capacity), key, now)
    decreases |c.order|
  {
    if |c.expiry| >= capacity && c.order != [] {
      DequeueKeepsAgreement(c);
      EvictMakesRoom(DequeueOne(c), capacity, key, now);
    } else if c.order == [] {
      forall k ensures k !in c.expiry {}
      assert c.expiry == map[];
    }
  }

  lemma InsertKeepsAgreement(lim: Limits, c: Cache, key: string, now: int)
    requires lim.ttl > 0 && Agrees(c) && |c.expiry| < lim.capacity && !Live(c, key, now)
    ensures var d := Record(c, key, now + lim.ttl);
      Agrees(d) && |d.expiry| <= lim.capacity && Live(d, key, now)
  {
    RecordKeepsAgreement(c, key, now + lim.ttl);
  }

  /** Purging never touches a binding that is still live. */
  lemma {:induction false} PurgeSparesLive(c: Cache, key: string, now: int)
    ensures Live(Purge(c, now), key, now) <==> Live(c, key, now)
    ensures Live(c, key, now) ==> Purge(c, now).expiry[key] == c.expiry[key]
    decreases |c.order|
  {
    if c.order != [] && c.order[0].expires <= now {
      PurgeSparesLive(DequeueOne(c), key, now);
    }
  }
}
