/**
 The Rust aggregator (aggregator.rs): priority routing, a bounded table of
 buckets, one timer per bucket, and flushing. `Add`, `Flush` and `TimerFires`
 are its atomic steps on values; the class runs them in place.
 */
module Aggregation {
  import opened Model
  import opened Toasts
  import opened Buckets
  import opened Sorting

  datatype Config = Config(maxBuckets: nat, importantWindow: nat, normalWindow: nat)

  datatype Bucket = Bucket(events: seq<Notification>, timer: nat)

  datatype Timer = Timer(key: Key, window: nat)

  /** Open buckets and the timers that are still going to fire. */
  datatype Table = Table(buckets: map<Key, Bucket>, timers: map<nat, Timer>, nextTimer: nat, dropped: nat)

  const EMPTY: Table := Table(map[], map[], 0, 0)

  /** The table after a step and the toast handed to a render task, if any. */
  datatype Effect = Effect(table: Table, spawned: Option<ToastRequest>)

  function Window(config: Config, p: Priority): nat {
    if p == Important then config.importantWindow else config.normalWindow
  }

  function JoinBucket(t: Table, n: Notification): Table
    requires KeyOf(n) in t.buckets
  {
    var b := t.buckets[KeyOf(n)];
    t.(buckets := t.buckets[KeyOf(n) := b.(events := ApplyToBucket(b.events, n))])
  }

  function OpenBucket(config: Config, t: Table, n: Notification): Table {
    Table(
      t.buckets[KeyOf(n) := Bucket([n], t.nextTimer)],
      t.timers[t.nextTimer := Timer(KeyOf(n), Window(config, n.priority))],
      t.nextTimer + 1,
      t.dropped)
  }

  function Add(lib: Libraries, config: Config, t: Table, n: Notification): Effect {
    if n.priority == Critical then Effect(t, Some(FromSingle(lib, n)))
    else if KeyOf(n) in t.buckets then Effect(JoinBucket(t, n), None)
    else if |t.buckets| >= config.maxBuckets then Effect(t.(dropped := t.dropped + 1), None)
    else Effect(OpenBucket(config, t, n), None)
  }

  /** No event is newer than `n`. */
  ghost predicate NoneNewer(events: seq<Notification>, n: Notification) {
    forall i :: 0 <= i < |events| ==> events[i].stamp <= n.stamp
  }

  /** A replaceable event that nothing is newer than is alone; a stale one changes nothing; any other joins. */
  ghost predicate HasJoined(events: seq<Notification>, n: Notification, after: seq<Notification>) {
    if !n.isReplaceable then after == events + [n]
    else if NoneNewer(events, n) then after == [n]
    else after == events
  }

  /** The bucket of its own aggregation key and priority gets `n`, keeps its timer, and nothing else changes. */
  ghost predicate Joined(t: Table, n: Notification, u: Table, key: Key)
    requires key in t.buckets
  {
    && u.buckets.Keys == t.buckets.Keys
    && HasJoined(t.buckets[key].events, n, u.buckets[key].events) && u.buckets[key].timer == t.buckets[key].timer
    && (forall k :: k in t.buckets && k != key ==> u.buckets[k] == t.buckets[k])
    && u.timers == t.timers && u.nextTimer == t.nextTimer && u.dropped == t.dropped
  }

  /** A bucket of its own with `n` alone, and a timer of that bucket with the window of its priority. */
  ghost predicate Opened(config: Config, t: Table, n: Notification, u: Table, key: Key) {
    && u.buckets == t.buckets[key := Bucket([n], t.nextTimer)]
    && u.timers == t.timers[t.nextTimer :=
         Timer(key, if n.priority == Important then config.importantWindow else config.normalWindow)]
    && u.nextTimer == t.nextTimer + 1 && u.dropped == t.dropped
  }

  /** Where `n` goes, told by its own fields: `u` is the table after it, and `shown` the toasts it caused. */
  ghost predicate GoesWhereItShould(lib: Libraries, config: Config, t: Table, n: Notification, u: Table,
      shown: seq<ToastRequest>)
  {
    var key := Key(n.aggregationKey, n.priority);
    if n.priority == Critical then u == t && |shown| == 1 && ShowsAlone(lib, n, shown[0])
    else if key in t.buckets then Joined(t, n, u, key) && shown == []
    else if |t.buckets| >= config.maxBuckets then u == t.(dropped := t.dropped + 1) && shown == []
    else Opened(config, t, n, u, key) && shown == []
  }

  lemma NewestIsUpTo(events: seq<Notification>, n: Notification)
    ensures NoneNewer(events, n) <==> n.stamp >= NewestStamp(events)
  {
    if events != [] {
      var i :| 0 <= i < |events| && events[i] == Latest(events);
    }
  }

  /** An addition treats every event by its own priority and aggregation key. */
  lemma AddsExactly(lib: Libraries, config: Config, t: Table, n: Notification)
    ensures var e := Add(lib, config, t, n);
      GoesWhereItShould(lib, config, t, n, e.table, if e.spawned.Some? then [e.spawned.value] else [])
  {
    if n.priority == Critical {
      BatchShowsLatest(lib, [n]);
    } else if KeyOf(n) in t.buckets {
      NewestIsUpTo(t.buckets[KeyOf(n)].events, n);
    }
  }

  /** The table without a bucket, and what the bucket held; empty if it was not there. */
  datatype Taken = Taken(table: Table, events: seq<Notification>)

  /**
   The part of a flush that runs under the lock: the bucket is removed, and then its timer
   aborted; `aborted` is false when that timer is already past its sleep.
   */
  function Take(t: Table, key: Key, aborted: bool): Taken {
    if key !in t.buckets then Taken(t, []) else
    var b := t.buckets[key];
    Taken(t.(buckets := t.buckets - {key}, timers := if aborted then t.timers - {b.timer} else t.timers), b.events)
  }

  function TimerTakes(t: Table, id: nat, aborted: bool): Taken
    requires id in t.timers
  {
    Take(t.(timers := t.timers - {id}), t.timers[id].key, aborted)
  }

  /** The part after the lock is released: the toast of what was taken. */
  function ToastOf(lib: Libraries, events: seq<Notification>): Option<ToastRequest> {
    if events == [] then None else Some(FlushToast(lib, events))
  }

  /** A whole flush. */
  function Flush(lib: Libraries, t: Table, key: Key, aborted: bool): Effect {
    var taken := Take(t, key, aborted);
    Effect(taken.table, ToastOf(lib, taken.events))
  }

  // ---------------------------------------------------------------------------
  // The aggregator in place

  class Aggregator {
    const lib: Libraries
    const config: Config
    var buckets: map<Key, Bucket>
    var timers: map<nat, Timer>
    var nextTimer: nat
    var dropped: nat
    /** The toasts handed to render tasks, in spawn order. */
    var renders: seq<ToastRequest>

    ghost function State(): Table
      reads this
    {
      Table(buckets, timers, nextTimer, dropped)
    }

    /** The table is that of `e`, and its toast, if any, was spawned after `shown`. */
    ghost predicate Did(e: Effect, shown: seq<ToastRequest>)
      reads this
    {
      State() == e.table && renders == if e.spawned.Some? then shown + [e.spawned.value] else shown
    }

    constructor (lib: Libraries, config: Config)
      ensures State() == EMPTY && renders == [] && this.config == config && this.lib == lib
    {
      this.lib, this.config := lib, config;
      buckets, timers, nextTimer, dropped, renders := map[], map[], 0, 0, [];
    }

    method AddEvent(n: Notification)
      modifies this
      ensures Did(Add(lib, config, old(State()), n), old(renders))
      ensures |old(renders)| <= |renders| && renders[..|old(renders)|] == old(renders)
      ensures GoesWhereItShould(lib, config, old(State()), n, State(), renders[|old(renders)|..])
    {
      AddsExactly(lib, config, State(), n);
      if n.priority == Critical {
        renders := renders + [FromSingle(lib, n)];
        return;
      }
      var key := KeyOf(n);
      if key in buckets {
        var b := buckets[key];
        buckets := buckets[key := b.(events := ApplyToBucket(b.events, n))];
        return;
      }
      if |buckets| >= config.maxBuckets {
        dropped := dropped + 1;
        return;
      }
      timers := timers[nextTimer := Timer(key, Window(config, n.priority))];
      buckets := buckets[key := Bucket([n], nextTimer)];
      nextTimer := nextTimer + 1;
    }

    /** `inTime` says whether the abort reaches the bucket's timer before it is past its sleep. */
    method TakeBucket(key: Key, inTime: bool) returns (events: seq<Notification>)
      modifies this`buckets, this`timers
      ensures Taken(State(), events) == Take(old(State()), key, inTime)
      ensures buckets == old(buckets) - {key} && nextTimer == old(nextTimer) && dropped == old(dropped)
      ensures if key in old(buckets)
              then events == old(buckets)[key].events
                   && timers == if inTime then old(timers) - {old(buckets)[key].timer} else old(timers)
              else events == [] && timers == old(timers)
    {
      assert key !in buckets ==> buckets - {key} == buckets;
      events := [];
      if key in buckets {
        var b := buckets[key];
        buckets := buckets - {key};
        if inTime {
          timers := timers - {b.timer};
        }
        events := b.events;
      }
    }

    method SpawnRender(events: seq<Notification>)
      modifies this`renders
      ensures renders == if events == [] then old(renders) else old(renders) + [FlushToast(lib, events)]
    {
      if events != [] {
        renders := renders + [FlushToast(lib, events)];
      }
    }

    method FlushBucket(key: Key, inTime: bool)
      modifies this
      ensures Did(Flush(lib, old(State()), key, inTime), old(renders))
    {
      var events := TakeBucket(key, inTime);
      SpawnRender(events);
    }

    /** What a timer does under the lock once its window has passed; `SpawnRender` follows. */
    method TimerTake(id: nat, inTime: bool) returns (events: seq<Notification>)
      requires id in timers
      modifies this`buckets, this`timers
      ensures Taken(State(), events) == TimerTakes(old(State()), id, inTime)
    {
      var key := timers[id].key;
      timers := timers - {id};
      events := TakeBucket(key, inTime);
    }

    /** Flushes every open bucket, in the order the keys come out of the table. */
    method Shutdown(inTime: Key -> bool) returns (order: seq<Key>)
      modifies this
      ensures Enumerates(order, old(buckets).Keys)
      ensures State() == FlushAll(lib, old(State()), order, inTime).table
      ensures renders == old(renders) + FlushAll(lib, old(State()), order, inTime).toasts
    {
      order := SnapshotKeys(buckets.Keys);
      ghost var before, shown := State(), renders;
      for i := 0 to |order|
        invariant State() == FlushAll(lib, before, order[..i], inTime).table
        invariant renders == shown + FlushAll(lib, before, order[..i], inTime).toasts
      {
        assert order[..i + 1][..i] == order[..i];
        FlushBucket(order[i], inTime(order[i]));
      }
      assert order[..|order|] == order;
    }
  }

  method SnapshotKeys(keys: set<Key>) returns (order: seq<Key>)
    ensures Enumerates(order, keys)
  {
    order := [];
    var left := keys;
    while left != {}
      invariant Enumerates(order, keys - left) && left <= keys
      decreases left
    {
      var k :| k in left;
      order, left := order + [k], left - {k};
    }
  }

  datatype Flushed = Flushed(table: Table, toasts: seq<ToastRequest>)

  function FlushAll(lib: Libraries, t: Table, keys: seq<Key>, inTime: Key -> bool): Flushed {
    if keys == [] then Flushed(t, []) else
    var n := |keys| - 1;
    var before := FlushAll(lib, t, keys[..n], inTime);
    var e := Flush(lib, before.table, keys[n], inTime(keys[n]));
    Flushed(e.table, if e.spawned.Some? then before.toasts + [e.spawned.value] else before.toasts)
  }

  /** The toasts are those of the buckets of `keys`, one each, in order. */
  ghost predicate ShowsEach(lib: Libraries, t: Table, keys: seq<Key>, toasts: seq<ToastRequest>) {
    && |toasts| == |keys|
    && forall i :: 0 <= i < |keys| ==>
         && keys[i] in t.buckets && t.buckets[keys[i]].events != []
         && toasts[i] == FlushToast(lib, t.buckets[keys[i]].events)
  }

  lemma FlushNext(lib: Libraries, t: Table, now: Table, gone: set<Key>, key: Key, inTime: bool)
    requires now.buckets == t.buckets - gone && key !in gone && key in t.buckets && t.buckets[key].events != []
    ensures Flush(lib, now, key, inTime).table.buckets == t.buckets - (gone + {key})
    ensures Flush(lib, now, key, inTime).spawned == Some(FlushToast(lib, t.buckets[key].events))
  {
    assert now.buckets[key] == t.buckets[key];
  }

  lemma ShowsOneMore(lib: Libraries, t: Table, keys: seq<Key>, toasts: seq<ToastRequest>, key: Key)
    requires ShowsEach(lib, t, keys, toasts) && key in t.buckets && t.buckets[key].events != []
    ensures ShowsEach(lib, t, keys + [key], toasts + [FlushToast(lib, t.buckets[key].events)])
  {
  }

  ghost predicate OpenKeys(t: Table, keys: seq<Key>) {
    NoDuplicates(keys) && forall i :: 0 <= i < |keys| ==> keys[i] in t.buckets && t.buckets[keys[i]].events != []
  }

  ghost function KeySet(keys: seq<Key>): set<Key> {
    set k | k in keys
  }

  lemma KeySetGrows(keys: seq<Key>)
    requires keys != []
    ensures KeySet(keys) == KeySet(keys[..|keys| - 1]) + {keys[|keys| - 1]}
  {
    assert keys == keys[..|keys| - 1] + [keys[|keys| - 1]];
  }

  /** Flushing distinct keys removes exactly those buckets. */
  lemma {:induction false} FlushAllRemoves(lib: Libraries, t: Table, keys: seq<Key>, inTime: Key -> bool)
    requires OpenKeys(t, keys)
    ensures FlushAll(lib, t, keys, inTime).table.buckets == t.buckets - KeySet(keys)
    decreases |keys|
  {
    if keys != [] {
      var n := |keys| - 1;
      FlushAllRemoves(lib, t, keys[..n], inTime);
      FlushNext(lib, t, FlushAll(lib, t, keys[..n], inTime).table, KeySet(keys[..n]), keys[n], inTime(keys[n]));
      KeySetGrows(keys);
    }
  }

  /** And shows each of them once. */
  lemma {:induction false} FlushAllShowsEach(lib: Libraries, t: Table, keys: seq<Key>, inTime: Key -> bool)
    requires OpenKeys(t, keys)
    ensures ShowsEach(lib, t, keys, FlushAll(lib, t, keys, inTime).toasts)
    decreases |keys|
  {
    if keys != [] {
      var n := |keys| - 1;
      FlushAllShowsEach(lib, t, keys[..n], inTime);
      ShowsOneMore(lib, t, keys[..n], FlushAll(lib, t, keys[..n], inTime).toasts, keys[n]);
      assert keys == keys[..n] + [keys[n]];
      assert Flush(lib, FlushAll(lib, t, keys[..n], inTime).table, keys[n], inTime(keys[n])).spawned
          == Some(FlushToast(lib, t.buckets[keys[n]].events))
      by {
        FlushAllRemoves(lib, t, keys[..n], inTime);
        FlushNext(lib, t, FlushAll(lib, t, keys[..n], inTime).table, KeySet(keys[..n]), keys[n], inTime(keys[n]));
      }
    }
  }

  /** Shutdown empties the table and shows every open bucket exactly once. */
  lemma ShutdownEmptiesTable(lib: Libraries, config: Config, t: Table, order: seq<Key>, inTime: Key -> bool)
    requires WellKept(config, t) && Enumerates(order, t.buckets.Keys)
    ensures FlushAll(lib, t, order, inTime).table.buckets == map[]
    ensures ShowsEach(lib, t, order, FlushAll(lib, t, order, inTime).toasts)
  {
    forall i | 0 <= i < |order| ensures order[i] in t.buckets && t.buckets[order[i]].events != [] {
      assert order[i] in order;
      assert BucketWellKept(config, t, order[i]);
    }
    FlushAllRemoves(lib, t, order, inTime);
    FlushAllShowsEach(lib, t, order, inTime);
    assert KeySet(order) == t.buckets.Keys;
  }

  // ---------------------------------------------------------------------------
  // What every step keeps

  /**
   The table stays within its limit, every open bucket holds events of its own key
   and has a timer that is going to fire for it after its priority's window.
   */
  ghost predicate WellKept(config: Config, t: Table) {
    && |t.buckets| <= config.maxBuckets
    && (forall k :: k in t.buckets ==> BucketWellKept(config, t, k))
    && (forall id :: id in t.timers ==> id < t.nextTimer)
  }

  ghost predicate BucketWellKept(config: Config, t: Table, k: Key)
    requires k in t.buckets
  {
    var b := t.buckets[k];
    && k.priority != Critical
    && b.events != []
    && (forall i :: 0 <= i < |b.events| ==> BelongsTo(b.events[i], k))
    && b.timer in t.timers
    && t.timers[b.timer] == Timer(k, if k.priority == Important then config.importantWindow else config.normalWindow)
  }

  lemma JoinKeepsTable(config: Config, t: Table, n: Notification)
    requires WellKept(config, t) && KeyOf(n) in t.buckets
    ensures WellKept(config, JoinBucket(t, n))
  {
    var after := JoinBucket(t, n);
    assert after.buckets.Keys == t.buckets.Keys;
    forall k | k in after.buckets ensures BucketWellKept(config, after, k) {
      assert BucketWellKept(config, t, k);
    }
  }

  lemma OpenKeepsTable(config: Config, t: Table, n: Notification)
    requires WellKept(config, t) && n.priority != Critical && KeyOf(n) !in t.buckets && |t.buckets| < config.maxBuckets
    ensures WellKept(config, OpenBucket(config, t, n))
  {
    var after := OpenBucket(config, t, n);
    assert |after.buckets| <= |t.buckets| + 1 by {
      assert after.buckets.Keys == t.buckets.Keys + {KeyOf(n)};
    }
    forall k | k in after.buckets ensures BucketWellKept(config, after, k) {
      if k != KeyOf(n) {
        assert BucketWellKept(config, t, k);
      }
    }
  }

  lemma CountingKeepsTable(config: Config, t: Table)
    requires WellKept(config, t)
    ensures WellKept(config, t.(dropped := t.dropped + 1))
  {
    var after := t.(dropped := t.dropped + 1);
    forall k | k in after.buckets ensures BucketWellKept(config, after, k) {
      assert BucketWellKept(config, t, k);
    }
  }

  lemma AddKeepsTable(lib: Libraries, config: Config, t: Table, n: Notification)
    requires WellKept(config, t)
    ensures WellKept(config, Add(lib, config, t, n).table)
    ensures Add(lib, config, t, n).spawned.Some? ==>
      Add(lib, config, t, n).table == t && Add(lib, config, t, n).spawned.value.sources == [n]
  {
    if n.priority != Critical {
      if KeyOf(n) in t.buckets {
        JoinKeepsTable(config, t, n);
      } else if |t.buckets| < config.maxBuckets {
        OpenKeepsTable(config, t, n);
      } else {
        CountingKeepsTable(config, t);
      }
    }
  }

  lemma TakeKeepsTable(config: Config, t: Table, key: Key, aborted: bool)
    requires WellKept(config, t)
    ensures WellKept(config, Take(t, key, aborted).table)
    ensures key !in Take(t, key, aborted).table.buckets
    ensures Take(t, key, aborted).events != [] <==> key in t.buckets
  {
    var after := Take(t, key, aborted).table;
    if key in t.buckets {
      assert BucketWellKept(config, t, key);
      assert after.buckets.Keys == t.buckets.Keys - {key};
      forall k | k in after.buckets ensures BucketWellKept(config, after, k) {
        assert BucketWellKept(config, t, k);
      }
    }
  }

  /** A timer that fires closes its bucket and leaves every other bucket its own timer. */
  lemma TimerKeepsTable(config: Config, t: Table, id: nat, aborted: bool)
    requires WellKept(config, t) && id in t.timers
    ensures WellKept(config, TimerTakes(t, id, aborted).table)
    ensures t.timers[id].key !in TimerTakes(t, id, aborted).table.buckets
    ensures TimerTakes(t, id, aborted).events != [] <==> t.timers[id].key in t.buckets
  {
    var key := t.timers[id].key;
    var after := TimerTakes(t, id, aborted).table;
    if key in t.buckets {
      assert BucketWellKept(config, t, key);
      assert after.buckets.Keys == t.buckets.Keys - {key};
    }
    forall k | k in after.buckets ensures BucketWellKept(config, after, k) {
      assert BucketWellKept(config, t, k);
    }
  }

  // ---------------------------------------------------------------------------
  // No timer without its bucket

  /** Every armed timer is the timer of an open bucket of its key. */
  ghost predicate Paired(t: Table) {
    forall id :: id in t.timers ==> TimerPaired(t, id)
  }

  ghost predicate TimerPaired(t: Table, id: nat)
    requires id in t.timers
  {
    t.timers[id].key in t.buckets && t.buckets[t.timers[id].key].timer == id
  }

  lemma AddKeepsPaired(lib: Libraries, config: Config, t: Table, n: Notification)
    requires Paired(t) && WellKept(config, t)
    ensures Paired(Add(lib, config, t, n).table)
  {
    var after := Add(lib, config, t, n).table;
    forall id | id in after.timers ensures TimerPaired(after, id) {
      assert id in t.timers ==> TimerPaired(t, id);
    }
  }

  /** So a timer only ever takes its own bucket, and leaves no timer behind. */
  lemma TimerKeepsPaired(t: Table, id: nat, aborted: bool)
    requires Paired(t) && id in t.timers
    ensures Paired(TimerTakes(t, id, aborted).table)
    ensures t.timers[id].key in t.buckets && t.buckets[t.timers[id].key].timer == id
  {
    var after := TimerTakes(t, id, aborted).table;
    assert TimerPaired(t, id);
    forall other | other in after.timers ensures TimerPaired(after, other) {
      assert TimerPaired(t, other);
    }
  }

  /** Removing an open bucket leaves no timer behind exactly if the abort comes in time. */
  lemma TakeKeepsPairedExactly(config: Config, t: Table, key: Key, inTime: bool)
    requires Paired(t) && WellKept(config, t) && key in t.buckets
    ensures Paired(Take(t, key, inTime).table) <==> inTime
  {
    var after := Take(t, key, inTime).table;
    assert BucketWellKept(config, t, key);
    if inTime {
      forall id | id in after.timers ensures TimerPaired(after, id) {
        assert TimerPaired(t, id);
      }
    } else {
      assert t.buckets[key].timer in after.timers && !TimerPaired(after, t.buckets[key].timer);
    }
  }
}
