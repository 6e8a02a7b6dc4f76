/** The Go clock and aggregator in place, each method proved against the values of `GoBatching`. */
module GoAggregator {
  import opened Model
  import opened Sorting
  import opened GoBatching

  class FakeClock {
    var now: int
    var nextId: nat
    var pending: map<nat, FakeTimer>

    constructor (start: int)
      ensures now == start && nextId == 0 && pending == map[]
    {
      now, nextId, pending := start, 0, map[];
    }

    ghost predicate Valid()
      reads this
    {
      forall id :: id in pending ==> pending[id].id == id && 1 <= id <= nextId
    }

    method AfterFunc(d: int, key: Key) returns (id: nat)
      requires Valid()
      modifies this
      ensures Valid()
      ensures id == nextId == old(nextId) + 1 && now == old(now)
      ensures pending == old(pending)[id := FakeTimer(id, now + d, key)]
    {
      nextId := nextId + 1;
      id := nextId;
      pending := pending[id := FakeTimer(id, now + d, key)];
    }

    method Stop(id: nat) returns (stopped: bool)
      requires Valid()
      modifies this`pending
      ensures Valid()
      ensures stopped <==> id in old(pending)
      ensures pending == old(pending) - {id}
    {
      if id in pending {
        pending := pending - {id};
        return true;
      }
      assert pending - {id} == pending;
      return false;
    }

    /** The locked part of `Advance` and the sort: the timers to run, in whatever order the map yields them, sorted. */
    method TakeDue(d: int) returns (due: seq<FakeTimer>)
      requires Valid()
      modifies this`now, this`pending
      ensures Valid()
      ensures now == old(now) + d
      ensures pending == NotDue(old(pending), now)
      ensures due == Sort(ByDeadline, DueUpTo(old(pending), now, nextId))
    {
      ghost var before := pending;
      now := now + d;
      due := [];
      var left := pending.Keys;
      while left != {}
        invariant now == old(now) + d && left <= before.Keys
        invariant Collected(before, now, before.Keys - left, due)
        invariant pending == Untaken(before, now, before.Keys - left)
        decreases left
      {
        var id :| id in left;
        CollectOne(before, now, before.Keys - left, due, id);
        assert before.Keys - (left - {id}) == (before.Keys - left) + {id};
        if pending[id].deadline <= now {
          due := due + [pending[id]];
          pending := pending - {id};
        }
        left := left - {id};
      }
      assert before.Keys - {} == before.Keys;
      CollectedIsDue(before, now, due, nextId);
      due := Sort(ByDeadline, due);
    }
  }

  /** The due timers among `seen`, each once, in any order. */
  ghost predicate Collected(pending: map<nat, FakeTimer>, now: int, seen: set<nat>, due: seq<FakeTimer>) {
    && DistinctIds(due)
    && forall t :: t in due <==> t.id in seen && t.id in pending && pending[t.id] == t && IsDue(t, now)
  }

  /** `pending` without the due timers among `seen`. */
  ghost function Untaken(pending: map<nat, FakeTimer>, now: int, seen: set<nat>): map<nat, FakeTimer> {
    map id | id in pending && !(id in seen && IsDue(pending[id], now)) :: pending[id]
  }

  lemma CollectOne(pending: map<nat, FakeTimer>, now: int, seen: set<nat>, due: seq<FakeTimer>, id: nat)
    requires forall i :: i in pending ==> pending[i].id == i
    requires Collected(pending, now, seen, due) && id in pending && id !in seen
    ensures Collected(pending, now, seen + {id}, if IsDue(pending[id], now) then due + [pending[id]] else due)
    ensures Untaken(pending, now, seen + {id}) ==
      if IsDue(pending[id], now) then Untaken(pending, now, seen) - {id} else Untaken(pending, now, seen)
  {
    forall i | 0 <= i < |due| ensures due[i].id != id {
      assert due[i] in due;
    }
  }

  lemma CollectedIsDue(pending: map<nat, FakeTimer>, now: int, due: seq<FakeTimer>, n: nat)
    requires forall id :: id in pending ==> pending[id].id == id && 1 <= id <= n
    requires Collected(pending, now, pending.Keys, due)
    ensures Sort(ByDeadline, due) == Sort(ByDeadline, DueUpTo(pending, now, n))
    ensures Untaken(pending, now, pending.Keys) == NotDue(pending, now)
  {
    DueUpToExactly(pending, now, n);
    SortedAlike(due, DueUpTo(pending, now, n));
  }

  class Aggregator {
    const options: Options
    const clk: FakeClock
    var buckets: map<Key, Bucket>
    var dropped: nat
    var rendered: seq<seq<Notification>>
    var fired: seq<nat>

    ghost function State(): World
      reads this, clk
    {
      World(clk.now, clk.nextId, clk.pending, buckets, dropped, rendered, fired)
    }

    constructor (settings: Options, clk: FakeClock)
      requires clk.pending == map[] && clk.nextId == 0
      ensures this.clk == clk && options == WithDefaults(settings)
      ensures State() == Start(clk.now)
    {
      options := WithDefaults(settings);
      this.clk := clk;
      buckets, dropped, rendered, fired := map[], 0, [], [];
    }

    method Add(n: Notification)
      requires clk.Valid()
      modifies this, clk
      ensures clk.Valid() && State() == AddEvent(options, old(State()), n)
      ensures GoesWhereItShould(options, old(State()), n, State())
    {
      AddsExactly(options, State(), n);
      if n.priority == Critical {
        rendered := rendered + [[n]];
        return;
      }
      var key := KeyOf(n);
      if key !in buckets {
        if |buckets| >= options.maxBuckets {
          dropped := dropped + 1;
          return;
        }
        var openedAt := clk.now;
        var id := clk.AfterFunc(Window(options, key), key);
        buckets := buckets[key := Bucket([], id, openedAt)];
      }
      var b := buckets[key];
      var events := if n.isReplaceable then [] else b.events;
      buckets := buckets[key := b.(events := events + [n])];
    }

    /** The timer callback. */
    method OnTimer(t: FakeTimer)
      modifies this
      ensures State() == Fire(old(State()), t)
      ensures buckets == old(buckets) - {t.key} && dropped == old(dropped) && fired == old(fired) + [t.id]
      ensures rendered == if t.key in old(buckets) && old(buckets)[t.key].events != []
                          then old(rendered) + [old(buckets)[t.key].events] else old(rendered)
    {
      assert t.key !in buckets ==> buckets - {t.key} == buckets;
      fired := fired + [t.id];
      if t.key in buckets {
        var events := buckets[t.key].events;
        buckets := buckets - {t.key};
        if events != [] {
          rendered := rendered + [events];
        }
      }
    }

    /** The clock's `Advance`, running this aggregator's callbacks. */
    method AdvanceClock(d: int)
      requires clk.Valid()
      modifies this, clk
      ensures clk.Valid() && State() == Advance(old(State()), d)
    {
      var due := clk.TakeDue(d);
      ghost var start := State();
      for i := 0 to |due|
        invariant clk.Valid()
        invariant State() == FireAll(start, due[..i])
      {
        assert due[..i + 1][..i] == due[..i];
        OnTimer(due[i]);
      }
      assert due[..|due|] == due;
    }

    /** Renders every pending bucket, in the order the map yields them. */
    method FlushAll() returns (order: seq<Key>)
      requires clk.Valid()
      modifies this, clk
      ensures clk.Valid() && Enumerates(order, old(buckets).Keys)
      ensures forall i :: 0 <= i < |order| ==> order[i] in old(buckets)
      ensures State() == Flush(old(State()), order)
    {
      var taken := buckets;
      buckets := map[];
      ghost var start := State();
      order := [];
      var left := taken.Keys;
      while left != {}
        invariant clk.Valid()
        invariant left <= taken.Keys && Enumerates(order, taken.Keys - left)
        invariant forall i :: 0 <= i < |order| ==> order[i] in taken
        invariant State() == FlushBuckets(start, taken, order)
        decreases left
      {
        var k :| k in left;
        var b := taken[k];
        var _ := clk.Stop(b.timer);
        if b.events != [] {
          rendered := rendered + [b.events];
        }
        assert (order + [k])[..|order|] == order;
        order, left := order + [k], left - {k};
      }
    }
  }
}
