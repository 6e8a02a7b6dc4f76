/**
 Why events are dropped: invalid means unparseable, superseded means a newer event
 of the same bucket is on its way to the user, and the two drop counters count
 exactly the drops they are for.
 */
module PipelineDrops {
  import opened Model
  import opened Parser
  import opened Toasts
  import opened Buckets
  import opened Pipeline
  import opened PipelineLedger
  import opened PipelineDedup
  import opened DedupRuns
  import A = Aggregation

  /** The event with stamp `y` waits in a bucket, was just taken out of one, or belongs to a toast. */
  ghost predicate Kept(place: map<nat, Place>, y: nat) {
    y in place && (place[y].InBucket? || place[y].InHand? || place[y].InToast?)
  }

  ghost predicate SameBucket(lib: Libraries, received: seq<ReceivedEvent>, x: nat, y: nat) {
    && 1 <= x <= |received| && 1 <= y <= |received|
    && ParseEvent(lib, received[x - 1]).Ok? && ParseEvent(lib, received[y - 1]).Ok?
    && Together(ParseEvent(lib, received[x - 1]).value, ParseEvent(lib, received[y - 1]).value)
  }

  /** A newer event of the same bucket key is kept. */
  ghost predicate Outranked(lib: Libraries, received: seq<ReceivedEvent>, place: map<nat, Place>, x: nat) {
    exists y: nat :: y > x && SameBucket(lib, received, x, y) && Kept(place, y)
  }

  ghost predicate SupersededOk(lib: Libraries, received: seq<ReceivedEvent>, place: map<nat, Place>) {
    forall x: nat :: At(place, x, Dropped(Superseded)) ==> Outranked(lib, received, place, x)
  }

  ghost predicate InvalidOk(lib: Libraries, received: seq<ReceivedEvent>, place: map<nat, Place>) {
    forall x: nat :: At(place, x, Dropped(Invalid)) ==>
      1 <= x <= |received| && ParseEvent(lib, received[x - 1]).Err?
  }

  ghost function CountDropped(place: map<nat, Place>, n: nat, reason: Reason): nat {
    if n == 0 then 0 else
    CountDropped(place, n - 1, reason) + (if At(place, n, Dropped(reason)) then 1 else 0)
  }

  ghost predicate Counted(s: State) {
    && s.droppedQueueFull == CountDropped(s.place, |s.received|, QueueFull)
    && s.table.dropped == CountDropped(s.place, |s.received|, BucketOverflow)
  }

  ghost predicate Justified(setup: Setup, s: State) {
    && SupersededOk(setup.lib, s.received, s.place)
    && InvalidOk(setup.lib, s.received, s.place)
    && Counted(s)
  }

  // ---------------------------------------------------------------------------
  // Counting

  lemma {:induction false} CountSame(p: map<nat, Place>, q: map<nat, Place>, n: nat, reason: Reason)
    requires forall x: nat :: 1 <= x <= n ==> (At(p, x, Dropped(reason)) <==> At(q, x, Dropped(reason)))
    ensures CountDropped(p, n, reason) == CountDropped(q, n, reason)
  {
    if n > 0 {
      CountSame(p, q, n - 1, reason);
      assert At(p, n, Dropped(reason)) <==> At(q, n, Dropped(reason));
    }
  }

  lemma {:induction false} CountOneMore(p: map<nat, Place>, q: map<nat, Place>, n: nat, x: nat, reason: Reason)
    requires 1 <= x <= n && !At(p, x, Dropped(reason)) && At(q, x, Dropped(reason))
    requires forall y: nat :: y != x ==> (At(p, y, Dropped(reason)) <==> At(q, y, Dropped(reason)))
    ensures CountDropped(q, n, reason) == CountDropped(p, n, reason) + 1
  {
    if n == x {
      CountSame(p, q, n - 1, reason);
    } else {
      CountOneMore(p, q, n - 1, x, reason);
      assert At(p, n, Dropped(reason)) <==> At(q, n, Dropped(reason));
    }
  }

  // ---------------------------------------------------------------------------
  // Steps

  /** A step that supersedes nothing and keeps what was kept. */
  lemma SupersededFrame(lib: Libraries, received: seq<ReceivedEvent>, received': seq<ReceivedEvent>, p: map<nat,
      Place>, q: map<nat, Place>)
    requires SupersededOk(lib, received, p) && received <= received'
    requires forall x: nat :: At(q, x, Dropped(Superseded)) ==> At(p, x, Dropped(Superseded))
    requires forall y: nat :: Kept(p, y) ==> Kept(q, y)
    ensures SupersededOk(lib, received', q)
  {
    forall x: nat | At(q, x, Dropped(Superseded)) ensures Outranked(lib, received', q, x) {
      var y: nat :| y > x && SameBucket(lib, received, x, y) && Kept(p, y);
      assert SameBucket(lib, received', x, y) && Kept(q, y);
    }
  }

  lemma InvalidFrame(lib: Libraries, received: seq<ReceivedEvent>, received': seq<ReceivedEvent>, p: map<nat, Place>,
      q: map<nat, Place>)
    requires InvalidOk(lib, received, p) && received <= received'
    requires forall x: nat :: At(q, x, Dropped(Invalid)) ==>
      At(p, x, Dropped(Invalid)) || (1 <= x <= |received'| && ParseEvent(lib, received'[x - 1]).Err?)
    ensures InvalidOk(lib, received', q)
  {
    forall x: nat | At(q, x, Dropped(Invalid))
      ensures 1 <= x <= |received'| && ParseEvent(lib, received'[x - 1]).Err?
    {
      if At(p, x, Dropped(Invalid)) {
        assert received'[x - 1] == received[x - 1];
      }
    }
  }

  lemma ReceiveJustified(setup: Setup, s: State, payload: seq<Byte>, at: int)
    requires Justified(setup, s) && Ledger(setup, s)
    ensures Justified(setup, DoReceive(setup, s, payload, at))
  {
    if payload != [] {
      var t := DoReceive(setup, s, payload, at);
      SupersededFrame(setup.lib, s.received, t.received, s.place, t.place);
      InvalidFrame(setup.lib, s.received, t.received, s.place, t.place);
      CountSame(s.place, t.place, |s.received|, QueueFull);
      CountSame(s.place, t.place, |s.received|, BucketOverflow);
    }
  }

  /** A step that drops nothing and keeps what was kept. */
  lemma NothingDropped(setup: Setup, s: State, t: State)
    requires Justified(setup, s) && t.received == s.received
    requires t.droppedQueueFull == s.droppedQueueFull && t.table.dropped == s.table.dropped
    requires forall x: nat, r :: At(t.place, x, Dropped(r)) <==> At(s.place, x, Dropped(r))
    requires forall y: nat :: Kept(s.place, y) ==> Kept(t.place, y)
    ensures Justified(setup, t)
  {
    SupersededFrame(setup.lib, s.received, t.received, s.place, t.place);
    CountSame(s.place, t.place, |s.received|, QueueFull);
    CountSame(s.place, t.place, |s.received|, BucketOverflow);
  }

  /** A worker drops the event with stamp `x` as invalid or duplicate. */
  lemma WorkerDrops(setup: Setup, s: State, t: State, w: nat, x: nat, reason: Reason)
    requires Justified(setup, s) && At(s.place, x, AtWorker(w)) && t.place == s.place[x := Dropped(reason)]
    requires t.received == s.received
    requires t.droppedQueueFull == s.droppedQueueFull && t.table.dropped == s.table.dropped
    requires reason == Duplicate ||
      (reason == Invalid && 1 <= x <= |s.received| && ParseEvent(setup.lib, s.received[x - 1]).Err?)
    ensures Justified(setup, t)
  {
    SupersededFrame(setup.lib, s.received, t.received, s.place, t.place);
    InvalidFrame(setup.lib, s.received, t.received, s.place, t.place);
    CountSame(s.place, t.place, |s.received|, QueueFull);
    CountSame(s.place, t.place, |s.received|, BucketOverflow);
  }

  lemma ParseJustified(setup: Setup, s: State, w: nat, now: int)
    requires Justified(setup, s) && Ledger(setup, s) && w < |s.workers| && s.workers[w].Holding?
    ensures Justified(setup, DoParse(setup, s, w, now))
  {
    var evt := s.workers[w].evt;
    var t := DoParse(setup, s, w, now);
    assert WorkerOk(setup.lib, s.received, s.workers[w], s.place, w);
    if ParseEvent(setup.lib, evt).Err? {
      WorkerDrops(setup, s, t, w, evt.stamp, Invalid);
    } else {
      NothingDropped(setup, s, t);
    }
  }

  lemma CheckJustified(setup: Setup, s: State, w: nat)
    requires Justified(setup, s) && Ledger(setup, s) && w < |s.workers| && s.workers[w].Checking?
    ensures Justified(setup, DoCheck(setup, s, w))
  {
    var n := s.workers[w].n;
    var t := DoCheck(setup, s, w);
    assert WorkerOk(setup.lib, s.received, s.workers[w], s.place, w);
    if t.place == s.place {
      NothingDropped(setup, s, t);
    } else {
      WorkerDrops(setup, s, t, w, n.stamp, Duplicate);
    }
  }

  lemma TakeJustified(setup: Setup, s: State, taken: A.Taken, key: Key, ofHost: bool)
    requires Justified(setup, s) && taken.table.dropped == s.table.dropped
    ensures Justified(setup, AfterTake(s, taken, key, ofHost))
  {
    MoveAt(s.place, InBucket(key), InHand(|s.hands|));
    NothingDropped(setup, s, AfterTake(s, taken, key, ofHost));
  }

  lemma SpawnTakenJustified(setup: Setup, s: State, h: nat)
    requires Justified(setup, s) && Enabled(s, SpawnTaken(h))
    ensures Justified(setup, DoSpawnTaken(setup, s, h))
  {
    MoveAt(s.place, InHand(h), InToast(|s.renders|));
    NothingDropped(setup, s, DoSpawnTaken(setup, s, h));
  }

  // ---------------------------------------------------------------------------
  // Hand-over

  /** The events of a bucket belong to its key. */
  lemma BucketMember(setup: Setup, s: State, key: Key, y: nat)
    requires BucketsOk(setup.lib, s.received, s.table.buckets, s.place) && A.WellKept(setup.aggregation, s.table)
    requires At(s.place, y, InBucket(key))
    ensures key in s.table.buckets && y <= NewestStamp(s.table.buckets[key].events)
    ensures 1 <= y <= |s.received| && ParseEvent(setup.lib, s.received[y - 1]).Ok?
    ensures BelongsTo(ParseEvent(setup.lib, s.received[y - 1]).value, key)
  {
    assert key in s.table.buckets;
    assert A.BucketWellKept(setup.aggregation, s.table, key);
    assert EventsAt(setup.lib, s.received, s.table.buckets[key].events, s.place, InBucket(key));
    MemberOf(setup.lib, s.received, s.table.buckets[key].events, key, y);
  }

  lemma MemberOf(lib: Libraries, received: seq<ReceivedEvent>, events: seq<Notification>, key: Key, y: nat)
    requires HasStamp(events, y)
    requires forall i :: 0 <= i < |events| ==> FromEvent(lib, received, events[i]) && BelongsTo(events[i], key)
    ensures y <= NewestStamp(events)
    ensures 1 <= y <= |received| && ParseEvent(lib, received[y - 1]).Ok?
    ensures BelongsTo(ParseEvent(lib, received[y - 1]).value, key)
  {
    var i :| 0 <= i < |events| && events[i].stamp == y;
    ParsedIs(lib, received, events[i]);
    NoneNewer(events, i);
  }

  lemma NoneNewer(events: seq<Notification>, i: nat)
    requires i < |events|
    ensures events[i].stamp <= NewestStamp(events)
  {
  }

  lemma ParsedIs(lib: Libraries, received: seq<ReceivedEvent>, n: Notification)
    requires FromEvent(lib, received, n)
    ensures 1 <= n.stamp <= |received| && ParseEvent(lib, received[n.stamp - 1]).Ok?
    ensures ParseEvent(lib, received[n.stamp - 1]).value == n
  {
  }

  lemma NewestMember(setup: Setup, s: State, key: Key)
    requires Invariant(setup, s) && key in s.table.buckets
    ensures At(s.place, NewestStamp(s.table.buckets[key].events), InBucket(key))
  {
    var events := s.table.buckets[key].events;
    assert A.BucketWellKept(setup.aggregation, s.table, key);
    assert EventsAt(setup.lib, s.received, events, s.place, InBucket(key));
    var i :| 0 <= i < |events| && events[i] == Latest(events);
  }

  lemma OutrankedBy(lib: Libraries, received: seq<ReceivedEvent>, place: map<nat, Place>, x: nat, y: nat)
    requires y > x && SameBucket(lib, received, x, y) && Kept(place, y)
    ensures Outranked(lib, received, place, x)
  {
  }

  /** `y` is older than `n` and of the same bucket key. */
  ghost predicate OlderPeer(lib: Libraries, received: seq<ReceivedEvent>, n: Notification, y: nat) {
    y < n.stamp && SameBucket(lib, received, y, n.stamp)
  }

  lemma OlderPeersOutranked(lib: Libraries, received: seq<ReceivedEvent>, p: map<nat, Place>, q: map<nat, Place>,
      n: Notification, key: Key)
    requires SupersededOk(lib, received, p)
    requires q == Move(p, InBucket(key), Dropped(Superseded))[n.stamp := InBucket(key)]
    requires n.stamp in p && p[n.stamp].AtWorker?
    requires forall y: nat :: At(p, y, InBucket(key)) ==> OlderPeer(lib, received, n, y)
    ensures SupersededOk(lib, received, q)
  {
    forall x: nat | At(q, x, Dropped(Superseded)) ensures Outranked(lib, received, q, x) {
      assert Kept(q, n.stamp);
      if At(p, x, InBucket(key)) {
        OutrankedBy(lib, received, q, x, n.stamp);
      } else {
        assert At(p, x, Dropped(Superseded));
        var y: nat :| y > x && SameBucket(lib, received, x, y) && Kept(p, y);
        if At(p, y, InBucket(key)) {
          OutrankedBy(lib, received, q, x, n.stamp);
        } else {
          OutrankedBy(lib, received, q, x, y);
        }
      }
    }
  }

  lemma MembersAreOlderPeers(setup: Setup, s: State, n: Notification, w: nat, y: nat)
    requires BucketsOk(setup.lib, s.received, s.table.buckets, s.place) && A.WellKept(setup.aggregation, s.table)
    requires At(s.place, y, InBucket(KeyOf(n)))
    requires FromEvent(setup.lib, s.received, n) && At(s.place, n.stamp, AtWorker(w))
    requires KeyOf(n) in s.table.buckets && n.stamp >= NewestStamp(s.table.buckets[KeyOf(n)].events)
    ensures OlderPeer(setup.lib, s.received, n, y)
  {
    BucketMember(setup, s, KeyOf(n), y);
    PeerOf(setup.lib, s.received, n, y);
  }

  lemma PeerOf(lib: Libraries, received: seq<ReceivedEvent>, n: Notification, y: nat)
    requires FromEvent(lib, received, n) && 1 <= y < n.stamp
    requires ParseEvent(lib, received[y - 1]).Ok? && Together(ParseEvent(lib, received[y - 1]).value, n)
    ensures OlderPeer(lib, received, n, y)
  {
    ParsedIs(lib, received, n);
  }

  /** `n` replaces the whole bucket: it outranks what was there and what that outranked. */
  lemma ReplacementJustified(setup: Setup, s: State, n: Notification, w: nat)
    requires Invariant(setup, s) && SupersededOk(setup.lib, s.received, s.place)
    requires FromEvent(setup.lib, s.received, n) && At(s.place, n.stamp, AtWorker(w))
    requires KeyOf(n) in s.table.buckets && n.stamp >= NewestStamp(s.table.buckets[KeyOf(n)].events)
    ensures SupersededOk(setup.lib, s.received,
      Move(s.place, InBucket(KeyOf(n)), Dropped(Superseded))[n.stamp := InBucket(KeyOf(n))])
  {
    var key := KeyOf(n);
    var q := Move(s.place, InBucket(key), Dropped(Superseded))[n.stamp := InBucket(key)];
    forall y: nat | At(s.place, y, InBucket(key)) ensures OlderPeer(setup.lib, s.received, n, y) {
      MembersAreOlderPeers(setup, s, n, w, y);
    }
    OlderPeersOutranked(setup.lib, s.received, s.place, q, n, key);
  }

  /** `n` arrives after a newer event of its bucket. */
  lemma StaleJustified(setup: Setup, s: State, n: Notification, w: nat)
    requires Invariant(setup, s) && SupersededOk(setup.lib, s.received, s.place)
    requires FromEvent(setup.lib, s.received, n) && At(s.place, n.stamp, AtWorker(w))
    requires KeyOf(n) in s.table.buckets && n.stamp < NewestStamp(s.table.buckets[KeyOf(n)].events)
    ensures SupersededOk(setup.lib, s.received, s.place[n.stamp := Dropped(Superseded)])
  {
    var newest := NewestStamp(s.table.buckets[KeyOf(n)].events);
    NewestMember(setup, s, KeyOf(n));
    BucketMember(setup, s, KeyOf(n), newest);
    NewerPeer(setup.lib, s.received, n, newest);
    NewcomerOutranked(setup.lib, s.received, s.place, n, newest);
  }

  lemma NewerPeer(lib: Libraries, received: seq<ReceivedEvent>, n: Notification, y: nat)
    requires FromEvent(lib, received, n) && 1 <= y <= |received|
    requires ParseEvent(lib, received[y - 1]).Ok? && Together(ParseEvent(lib, received[y - 1]).value, n)
    ensures SameBucket(lib, received, n.stamp, y)
  {
    ParsedIs(lib, received, n);
  }

  lemma NewcomerOutranked(lib: Libraries, received: seq<ReceivedEvent>, p: map<nat, Place>, n: Notification,
      newest: nat)
    requires SupersededOk(lib, received, p) && n.stamp in p && p[n.stamp].AtWorker?
    requires newest > n.stamp && SameBucket(lib, received, n.stamp, newest) && Kept(p, newest)
    ensures SupersededOk(lib, received, p[n.stamp := Dropped(Superseded)])
  {
    var q := p[n.stamp := Dropped(Superseded)];
    forall x: nat | At(q, x, Dropped(Superseded)) ensures Outranked(lib, received, q, x) {
      if x == n.stamp {
        OutrankedBy(lib, received, q, x, newest);
      } else {
        assert At(p, x, Dropped(Superseded));
        var y: nat :| y > x && SameBucket(lib, received, x, y) && Kept(p, y);
        OutrankedBy(lib, received, q, x, y);
      }
    }
  }

  lemma HandOverSuperseded(setup: Setup, s: State, n: Notification, w: nat)
    requires Invariant(setup, s) && SupersededOk(setup.lib, s.received, s.place)
    requires FromEvent(setup.lib, s.received, n) && At(s.place, n.stamp, AtWorker(w))
    ensures SupersededOk(setup.lib, s.received, PlaceAfterAdd(setup, s, n))
  {
    var key := KeyOf(n);
    if n.priority != Critical && key in s.table.buckets && n.isReplaceable {
      if n.stamp >= NewestStamp(s.table.buckets[key].events) {
        ReplacementJustified(setup, s, n, w);
      } else {
        StaleJustified(setup, s, n, w);
      }
    } else {
      AddSupersedesNothing(setup, s, n, w);
    }
  }

  lemma AddSupersedesNothing(setup: Setup, s: State, n: Notification, w: nat)
    requires SupersededOk(setup.lib, s.received, s.place) && At(s.place, n.stamp, AtWorker(w))
    requires n.priority == Critical || KeyOf(n) !in s.table.buckets || !n.isReplaceable
    ensures SupersededOk(setup.lib, s.received, PlaceAfterAdd(setup, s, n))
  {
    SupersededFrame(setup.lib, s.received, s.received, s.place, PlaceAfterAdd(setup, s, n));
  }

  /** Overflow is the only drop the hand-over counts. */
  lemma HandOverDrops(setup: Setup, s: State, n: Notification, w: nat)
    requires At(s.place, n.stamp, AtWorker(w))
    ensures var q := PlaceAfterAdd(setup, s, n);
      && (forall x: nat :: At(q, x, Dropped(QueueFull)) <==> At(s.place, x, Dropped(QueueFull)))
      && (forall x: nat :: At(q, x, Dropped(Invalid)) <==> At(s.place, x, Dropped(Invalid)))
      && (forall x: nat :: x != n.stamp ==>
           (At(q, x, Dropped(BucketOverflow)) <==> At(s.place, x, Dropped(BucketOverflow))))
      && A.Add(setup.lib, setup.aggregation, s.table, n).table.dropped ==
           s.table.dropped + (if At(q, n.stamp, Dropped(BucketOverflow)) then 1 else 0)
  {
  }

  lemma HandOverJustified(setup: Setup, s: State, w: nat)
    requires Invariant(setup, s) && Justified(setup, s) && w < |s.workers| && s.workers[w].Handing?
    ensures Justified(setup, DoHandOver(setup, s, w))
  {
    var n := s.workers[w].n;
    var q := PlaceAfterAdd(setup, s, n);
    assert WorkerOk(setup.lib, s.received, s.workers[w], s.place, w);
    HandOverSuperseded(setup, s, n, w);
    HandOverDrops(setup, s, n, w);
    CountSame(s.place, q, |s.received|, QueueFull);
    if At(q, n.stamp, Dropped(BucketOverflow)) {
      CountOneMore(s.place, q, |s.received|, n.stamp, BucketOverflow);
    } else {
      CountSame(s.place, q, |s.received|, BucketOverflow);
    }
  }

  // ---------------------------------------------------------------------------
  // Every step, every run

  lemma WorkerStepJustified(setup: Setup, s: State, step: Step)
    requires Invariant(setup, s) && Justified(setup, s) && Enabled(s, step) && OfWorker(step)
    ensures Justified(setup, Apply(setup, s, step))
  {
    if step.Dequeue? {
      assert At(s.place, s.queue[0].stamp, InQueue);
      NothingDropped(setup, s, DoDequeue(s, step.w));
    } else if step.Parse? {
      ParseJustified(setup, s, step.w, step.now);
    } else if step.Check? {
      CheckJustified(setup, s, step.w);
    } else if step.HandOver? {
      HandOverJustified(setup, s, step.w);
    }
  }

  lemma StepKeepsJustified(setup: Setup, s: State, step: Step)
    requires Invariant(setup, s) && Justified(setup, s) && Enabled(s, step)
    ensures Justified(setup, Apply(setup, s, step))
  {
    if OfWorker(step) {
      WorkerStepJustified(setup, s, step);
    } else if step.Receive? {
      ReceiveJustified(setup, s, step.payload, step.at);
    } else if step.TimerFires? {
      TakeJustified(setup, s, A.TimerTakes(s.table, step.id, step.aborted), s.table.timers[step.id].key, false);
    } else if step.FlushNext? {
      TakeJustified(setup, s, A.Take(s.table, s.host.left[0], step.aborted), s.host.left[0], true);
    } else if step.SpawnTaken? {
      SpawnTakenJustified(setup, s, step.h);
    }
  }

  lemma {:induction false} RunKeepsJustified(setup: Setup, s: State, steps: seq<Step>, t: State)
    requires Invariant(setup, s) && Justified(setup, s) && Leads(setup, s, steps, t)
    ensures Invariant(setup, t) && Justified(setup, t)
    decreases |steps|
  {
    if steps != [] {
      StepKeepsLedger(setup, s, steps[0]);
      StepKeepsBounds(setup, s, steps[0]);
      StepKeepsJustified(setup, s, steps[0]);
      RunKeepsJustified(setup, Apply(setup, s, steps[0]), steps[1..], t);
    }
  }

  /** The event with stamp `x` repeats one that the cache had accepted less than a lifetime before. */
  ghost predicate Repeats(setup: Setup, s: State, x: nat) {
    exists i, j :: 0 <= j < i < |s.decisions| && RepeatsDecision(setup, s, x, i, j)
  }

  ghost predicate RepeatsDecision(setup: Setup, s: State, x: nat, i: nat, j: nat)
    requires i < |s.decisions| && j < |s.decisions|
  {
    var refused, earlier := s.decisions[i], s.decisions[j];
    && refused.stamp == x && !refused.accepted && HasKey(setup, s, x, refused.call.key)
    && earlier.accepted && earlier.call.key == refused.call.key
    && refused.call.now < earlier.call.now + setup.dedup.ttl
  }

  lemma DuplicateRepeats(setup: Setup, s: State, x: nat)
    requires Decided(setup, s) && At(s.place, x, Dropped(Duplicate))
    ensures Repeats(setup, s, x)
  {
    assert DecidedAs(s.decisions, x, false);
    var i := DecisionOf(setup, s, x, false);
    var calls := Calls(s.decisions);
    RefusedRepeats(setup.dedup, calls);
    assert HasCause(setup.dedup, calls, Execute(setup.dedup, calls).answers, i);
    var j :| 0 <= j < i && Execute(setup.dedup, calls).answers[j]
      && calls[j].key == calls[i].key && calls[i].now < calls[j].now + setup.dedup.ttl;
    assert RepeatsDecision(setup, s, x, i, j);
  }

  /**
   After every run: an event dropped as superseded has a newer event of the same
   bucket key that is waiting in a bucket, was just taken out of one or belongs to a toast;
   an event dropped as a duplicate repeats an accepted one of its key within its lifetime;
   an event dropped as invalid does not parse; and the drop counters equal the numbers of
   events dropped for a full queue and for bucket overflow.
   */
  lemma DropsAreJustified(setup: Setup, steps: seq<Step>, s: State)
    requires Leads(setup, Initial(setup), steps, s)
    ensures Justified(setup, s)
    ensures forall x: nat :: At(s.place, x, Dropped(Duplicate)) ==> Repeats(setup, s, x)
  {
    InitialInvariant(setup);
    RunKeepsJustified(setup, Initial(setup), steps, s);
    DecisionsAreOneRun(setup, steps, s);
    forall x: nat | At(s.place, x, Dropped(Duplicate)) ensures Repeats(setup, s, x) {
      DuplicateRepeats(setup, s, x);
    }
  }
}
