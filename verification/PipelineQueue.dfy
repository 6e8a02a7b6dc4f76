/**
 How long the duplicate cache's queue gets when workers overlap and the clock never goes
 back. The runs that fill it are built from the moves of `PipelineOverlap`: some workers
 read the clock and stall, another one overtakes them, and they go on.
 */
module PipelineQueue {
  import opened Model
  import opened Pipeline
  import opened PipelineDedup
  import opened PipelineClock
  import opened PipelineOverlap
  import opened DedupRuns
  import opened DedupOverlap
  import Dedup

  // ---------------------------------------------------------------------------
  // Many keys

  /** Events with each of the `keys`, all different, can arrive. */
  ghost predicate CanSend(setup: Setup, payload: string -> seq<Byte>, keys: seq<string>) {
    AllDifferent(keys) && SendsAll(setup, payload, keys)
  }

  ghost predicate SendsAll(setup: Setup, payload: string -> seq<Byte>, keys: seq<string>) {
    forall i :: 0 <= i < |keys| ==> Sends(setup, payload(keys[i]), keys[i])
  }

  /** Workers `from` to `n` hold readings for `k` one lifetime apart; the others are idle. */
  ghost predicate LinedUp(setup: Setup, s: State, k: string, from: nat, n: nat) {
    n < |s.workers| && from >= 1 && forall w :: 0 <= w < |s.workers| ==> InPlace(setup, s, k, from, n, w)
  }

  ghost predicate InPlace(setup: Setup, s: State, k: string, from: nat, n: nat, w: nat)
    requires w < |s.workers|
  {
    if from <= w <= n then Reading(s, w, k, (w - 1) * setup.dedup.ttl) else s.workers[w].Idle?
  }

  lemma LineGrows(setup: Setup, s: State, t: State, k: string, n: nat)
    requires n >= 1 && LinedUp(setup, s, k, 1, n - 1) && n < |s.workers| == |t.workers|
    requires t.workers == s.workers[n := t.workers[n]] && Reading(t, n, k, (n - 1) * setup.dedup.ttl)
    ensures LinedUp(setup, t, k, 1, n)
  {
    forall w | 0 <= w < |t.workers| ensures InPlace(setup, t, k, 1, n, w) {
      assert InPlace(setup, s, k, 1, n - 1, w);
    }
  }

  lemma {:induction false} LineUp(setup: Setup, s: State, since: int, payload: seq<Byte>, k: string, n: nat)
    returns (t: State)
    requires setup.queueCapacity >= 1 && Free(s) && n < |s.workers| && since <= 0 && Sends(setup, payload, k)
    requires forall w :: 0 <= w < |s.workers| ==> s.workers[w].Idle?
    ensures Reaches(setup, s, since, t, if n == 0 then since else (n - 1) * setup.dedup.ttl)
    ensures Free(t) && |t.workers| == |s.workers| && LinedUp(setup, t, k, 1, n) && t.decisions == s.decisions
  {
    if n == 0 {
      t := s;
      ReachesItself(setup, s, since);
    } else {
      var clock: int, now: int := if n == 1 then since else (n - 2) * setup.dedup.ttl, (n - 1) * setup.dedup.ttl;
      Spacing(n, setup.dedup.ttl);
      var s1 := LineUp(setup, s, since, payload, k, n - 1);
      assert InPlace(setup, s1, k, 1, n - 1, n);
      t := Fetch(setup, s1, clock, n, payload, k, now);
      ReachesOn(setup, s, since, s1, clock, t, now);
      LineGrows(setup, s1, t, k, n);
    }
  }

  lemma SameLine(setup: Setup, s: State, t: State, k: string, n: nat)
    requires LinedUp(setup, s, k, 1, n) && t.workers == s.workers
    ensures LinedUp(setup, t, k, 1, n)
  {
    forall w | 0 <= w < |t.workers| ensures InPlace(setup, t, k, 1, n, w) {
      assert InPlace(setup, s, k, 1, n, w);
    }
  }

  /** The lined up workers take their decisions in turn. */
  lemma {:induction false} SettleLine(setup: Setup, s: State, clock: int, k: string, x: Call, n: nat, m: nat)
    returns (t: State)
    requires Free(s) && LinedUp(setup, s, k, 1, n) && m <= n && Calls(s.decisions) == [x]
    ensures Reaches(setup, s, clock, t, clock) && Free(t) && |t.workers| == |s.workers|
    ensures LinedUp(setup, t, k, m + 1, n) && Calls(t.decisions) == [x] + Renewals(setup.dedup, k, m)
    decreases m
  {
    if m == 0 {
      t := s;
      ReachesItself(setup, s, clock);
      assert [x] + Renewals(setup.dedup, k, 0) == [x];
    } else {
      var s1 := SettleLine(setup, s, clock, k, x, n, m - 1);
      assert InPlace(setup, s1, k, m, n, m);
      t := Settle(setup, s1, clock, m, k, (m - 1) * setup.dedup.ttl);
      ReachesOn(setup, s, clock, s1, clock, t, clock);
      RenewalsGrow(setup.dedup, x, k, m);
      var next := m + 1;
      forall w | 0 <= w < |t.workers| ensures InPlace(setup, t, k, next, n, w) {
        assert InPlace(setup, s1, k, m, n, w);
      }
    }
  }

  lemma {:induction false} HandleAll(setup: Setup, s: State, now: int, payload: string -> seq<Byte>, keys: seq<string>)
    returns (t: State)
    requires setup.queueCapacity >= 1 && Free(s) && s.workers != [] && s.workers[0].Idle?
    requires SendsAll(setup, payload, keys)
    ensures Reaches(setup, s, now, t, now) && Free(t) && t.workers == s.workers
    ensures Calls(t.decisions) == Calls(s.decisions) + Fillers(keys, now)
    decreases |keys|
  {
    if keys == [] {
      t := s;
      ReachesItself(setup, s, now);
    } else {
      var n := |keys| - 1;
      var s1 := HandleAll(setup, s, now, payload, keys[..n]);
      t := Handle(setup, s1, now, 0, payload(keys[n]), keys[n], now);
      ReachesOn(setup, s, now, s1, now, t, now);
      assert Fillers(keys, now) == Fillers(keys[..n], now) + [Call(keys[n], now)];
    }
  }

  /** The first worker has `x` decided while the others stall on `k`. */
  lemma GetAhead(setup: Setup, payload: string -> seq<Byte>, x: string, k: string, since: int, ahead: int, n: nat)
    returns (t: State)
    requires setup.workers == n + 1 && setup.queueCapacity >= 1 && since <= 0
    requires Sends(setup, payload(x), x) && Sends(setup, payload(k), k)
    requires (if n == 0 then since else (n - 1) * setup.dedup.ttl) <= ahead
    ensures Reaches(setup, Initial(setup), since, t, ahead) && Free(t) && |t.workers| == setup.workers
    ensures LinedUp(setup, t, k, 1, n) && Calls(t.decisions) == [Call(x, ahead)]
  {
    var i := Initial(setup);
    var lined: int := if n == 0 then since else (n - 1) * setup.dedup.ttl;
    var s1 := LineUp(setup, i, since, payload(k), k, n);
    assert InPlace(setup, s1, k, 1, n, 0);
    t := Handle(setup, s1, lined, 0, payload(x), x, ahead);
    ReachesOn(setup, i, since, s1, lined, t, ahead);
    SameLine(setup, s1, t, k, n);
    assert Calls(i.decisions) == [];
  }

  /** All workers but one stall on `k`; the first one overtakes them with `x`, then they go on. */
  lemma Overtake(setup: Setup, payload: string -> seq<Byte>, x: string, k: string, since: int, ahead: int, n: nat)
    returns (t: State)
    requires setup.workers == n + 1 && setup.queueCapacity >= 1 && since <= 0
    requires Sends(setup, payload(x), x) && Sends(setup, payload(k), k)
    requires (if n == 0 then since else (n - 1) * setup.dedup.ttl) <= ahead
    ensures Reaches(setup, Initial(setup), since, t, ahead) && Free(t)
    ensures |t.workers| == setup.workers && t.workers[0].Idle?
    ensures Calls(t.decisions) == [Call(x, ahead)] + Renewals(setup.dedup, k, n)
  {
    var s := GetAhead(setup, payload, x, k, since, ahead, n);
    t := SettleLine(setup, s, ahead, k, Call(x, ahead), n, n);
    ReachesOn(setup, Initial(setup), since, s, ahead, t, ahead);
    var next := n + 1;
    assert InPlace(setup, t, k, next, n, 0);
  }

  /** After overtaking them, the first worker renews `k` once more and fills the cache. */
  lemma LongRunHappens(setup: Setup, payload: string -> seq<Byte>, x: string, k: string, fillers: seq<string>)
    returns (steps: seq<Step>, s: State)
    requires setup.workers >= 1 && setup.queueCapacity >= 1 && setup.dedup.ttl >= 1
    requires Sends(setup, payload(x), x) && Sends(setup, payload(k), k) && SendsAll(setup, payload, fillers)
    ensures TimedRun(setup, steps, 0 - setup.dedup.ttl, s)
    ensures Calls(s.decisions) == LongRun(setup.dedup, setup.workers, x, k, fillers)
  {
    Spacing(setup.workers, setup.dedup.ttl);
    var ttl: int := setup.dedup.ttl;
    var ahead, last := (setup.workers - 2) * ttl + 1, (setup.workers - 1) * ttl;
    steps, s := FillBehind(setup, payload, x, k, fillers, 0 - ttl, ahead, last);
  }

  lemma FillBehind(setup: Setup, payload: string -> seq<Byte>, x: string, k: string, fillers: seq<string>,
      since: int, ahead: int, last: int)
    returns (steps: seq<Step>, s: State)
    requires setup.workers >= 1 && setup.queueCapacity >= 1 && since <= 0 && ahead <= last
    requires last == (setup.workers - 1) * setup.dedup.ttl
    requires (if setup.workers == 1 then since else (setup.workers - 2) * setup.dedup.ttl) <= ahead
    requires Sends(setup, payload(x), x) && Sends(setup, payload(k), k) && SendsAll(setup, payload, fillers)
    ensures TimedRun(setup, steps, since, s)
    ensures Calls(s.decisions) == [Call(x, ahead)] + Renewals(setup.dedup, k, setup.workers) + Fillers(fillers, last)
  {
    var i := Initial(setup);
    var s1 := Overtake(setup, payload, x, k, since, ahead, setup.workers - 1);
    var s2 := Handle(setup, s1, ahead, 0, payload(k), k, last);
    ReachesOn(setup, i, since, s1, ahead, s2, last);
    RenewalsGrow(setup.dedup, Call(x, ahead), k, setup.workers);
    s := HandleAll(setup, s2, last, payload, fillers);
    ReachesOn(setup, i, since, s2, last, s, last);
    steps := ReachedByTimedRun(setup, since, s, last);
  }

  lemma SplitKeys(keys: seq<string>, n: nat) returns (rest: seq<string>)
    requires AllDifferent(keys) && 2 <= n <= |keys|
    ensures rest == keys[2..n] && AllDifferent(rest) && keys[0] != keys[1] && keys[0] !in rest && keys[1] !in rest
  {
    rest := keys[2..n];
    assert Differ(keys, 0, 1);
    forall i, j | 0 <= i < j < |rest| ensures Differ(rest, i, j) {
      assert Differ(keys, i + 2, j + 2);
    }
    forall i | 0 <= i < |rest| ensures rest[i] != keys[0] && rest[i] != keys[1] {
      assert Differ(keys, 0, i + 2) && Differ(keys, 1, i + 2);
    }
  }

  // ---------------------------------------------------------------------------
  // Room for two keys

  /** With room for two keys and a lifetime of two ticks, two workers overfill the cache. */
  lemma TwoWorkersOverfill(setup: Setup, payload: string -> seq<Byte>, x: string, k: string, y: string)
    returns (steps: seq<Step>, s: State)
    requires setup.workers >= 2 && setup.queueCapacity >= 1 && setup.dedup.ttl >= 2
    requires Sends(setup, payload(x), x) && Sends(setup, payload(k), k) && Sends(setup, payload(y), y)
    ensures TimedRun(setup, steps, 0, s)
    ensures Calls(s.decisions) == ShortRun(x, k, y, Readings(1, 0, setup.dedup.ttl, 1))
  {
    var i, ttl := Initial(setup), setup.dedup.ttl;
    var s1 := TwoWorkersBegin(setup, payload, x, k, y);
    var s2 := Handle(setup, s1, 1, 1, payload(k), k, ttl);
    ReachesOn(setup, i, 0, s1, 1, s2, ttl);
    s := Settle(setup, s2, ttl, 0, y, 1);
    ReachesOn(setup, i, 0, s2, ttl, s, ttl);
    steps := ReachedByTimedRun(setup, 0, s, ttl);
  }

  /** One worker overtakes the other, which then goes on and fetches another event. */
  lemma TwoWorkersBegin(setup: Setup, payload: string -> seq<Byte>, x: string, k: string, y: string) returns (t: State)
    requires setup.workers >= 2 && setup.queueCapacity >= 1
    requires Sends(setup, payload(x), x) && Sends(setup, payload(k), k) && Sends(setup, payload(y), y)
    ensures Reaches(setup, Initial(setup), 0, t, 1) && Free(t) && |t.workers| >= 2
    ensures Reading(t, 0, y, 1) && t.workers[1].Idle? && Calls(t.decisions) == [Call(x, 1), Call(k, 0)]
  {
    var i := Initial(setup);
    var s1 := Fetch(setup, i, 0, 0, payload(k), k, 0);
    var s2 := Handle(setup, s1, 0, 1, payload(x), x, 1);
    ReachesOn(setup, i, 0, s1, 0, s2, 1);
    var s3 := Settle(setup, s2, 1, 0, k, 0);
    ReachesOn(setup, i, 0, s2, 1, s3, 1);
    t := Fetch(setup, s3, 1, 0, payload(y), y, 1);
    ReachesOn(setup, i, 0, s3, 1, t, 1);
    assert Calls(i.decisions) == [];
  }

  /** With a lifetime of one tick it takes three workers: two of them stall. */
  lemma ThreeWorkersOverfill(setup: Setup, payload: string -> seq<Byte>, x: string, k: string, y: string)
    returns (steps: seq<Step>, s: State)
    requires setup.workers >= 3 && setup.queueCapacity >= 1 && setup.dedup.ttl == 1
    requires Sends(setup, payload(x), x) && Sends(setup, payload(k), k) && Sends(setup, payload(y), y)
    ensures TimedRun(setup, steps, 0, s)
    ensures Calls(s.decisions) == ShortRun(x, k, y, Readings(1, 0, 1, 0))
  {
    var i := Initial(setup);
    var s1 := TwoStall(setup, payload, k, 0, y);
    var s2 := Handle(setup, s1, 0, 2, payload(x), x, 1);
    ReachesOn(setup, i, 0, s1, 0, s2, 1);
    var s3 := Settle(setup, s2, 1, 0, k, 0);
    ReachesOn(setup, i, 0, s2, 1, s3, 1);
    var s4 := Handle(setup, s3, 1, 2, payload(k), k, 1);
    ReachesOn(setup, i, 0, s3, 1, s4, 1);
    s := Settle(setup, s4, 1, 1, y, 0);
    ReachesOn(setup, i, 0, s4, 1, s, 1);
    steps := ReachedByTimedRun(setup, 0, s, 1);
  }

  /** The second worker reads for `y`, then the first one for `k`. */
  lemma TwoStall(setup: Setup, payload: string -> seq<Byte>, k: string, now: int, y: string) returns (t: State)
    requires setup.workers >= 3 && setup.queueCapacity >= 1 && now >= 0
    requires Sends(setup, payload(k), k) && Sends(setup, payload(y), y)
    ensures Reaches(setup, Initial(setup), 0, t, now) && Free(t) && |t.workers| == setup.workers
    ensures Reading(t, 0, k, now) && Reading(t, 1, y, 0) && t.decisions == []
    ensures forall w :: 2 <= w < |t.workers| ==> t.workers[w].Idle?
  {
    var i := Initial(setup);
    var s1 := Fetch(setup, i, 0, 1, payload(y), y, 0);
    t := Fetch(setup, s1, 0, 0, payload(k), k, now);
    ReachesOn(setup, i, 0, s1, 0, t, now);
  }

  /** With a lifetime of zero it takes four: three of them stall. */
  lemma FourWorkersOverfill(setup: Setup, payload: string -> seq<Byte>, x: string, k: string, y: string)
    returns (steps: seq<Step>, s: State)
    requires setup.workers >= 4 && setup.queueCapacity >= 1 && setup.dedup.ttl == 0
    requires Sends(setup, payload(x), x) && Sends(setup, payload(k), k) && Sends(setup, payload(y), y)
    ensures TimedRun(setup, steps, 0, s)
    ensures Calls(s.decisions) == ShortRun(x, k, y, Readings(2, 1, 1, 0))
  {
    var i := Initial(setup);
    var s1 := FourWorkersBegin(setup, payload, x, k, y);
    var s2 := Settle(setup, s1, 2, 0, k, 1);
    ReachesOn(setup, i, 0, s1, 2, s2, 2);
    var s3 := Settle(setup, s2, 2, 2, k, 1);
    ReachesOn(setup, i, 0, s2, 2, s3, 2);
    s := Settle(setup, s3, 2, 1, y, 0);
    ReachesOn(setup, i, 0, s3, 2, s, 2);
    steps := ReachedByTimedRun(setup, 0, s, 2);
  }

  lemma FourWorkersBegin(setup: Setup, payload: string -> seq<Byte>, x: string, k: string, y: string) returns (t: State)
    requires setup.workers >= 4 && setup.queueCapacity >= 1
    requires Sends(setup, payload(x), x) && Sends(setup, payload(k), k) && Sends(setup, payload(y), y)
    ensures Reaches(setup, Initial(setup), 0, t, 2) && Free(t) && |t.workers| == setup.workers
    ensures Reading(t, 0, k, 1) && Reading(t, 1, y, 0) && Reading(t, 2, k, 1) && Calls(t.decisions) == [Call(x, 2)]
  {
    var i := Initial(setup);
    var s1 := TwoStall(setup, payload, k, 1, y);
    var s2 := Fetch(setup, s1, 1, 2, payload(k), k, 1);
    ReachesOn(setup, i, 0, s1, 1, s2, 1);
    t := Handle(setup, s2, 1, 3, payload(x), x, 2);
    ReachesOn(setup, i, 0, s2, 1, t, 2);
    assert Calls(s2.decisions) == [];
  }

  // ---------------------------------------------------------------------------
  // The longest queue

  /** Some run leaves `n` entries in the queue. */
  ghost predicate Filled(setup: Setup, n: nat) {
    exists steps, since, s :: TimedRun(setup, steps, since, s) && |s.cache.order| == n
  }

  /** The run's queue has the length its calls give it. */
  lemma FilledBy(setup: Setup, steps: seq<Step>, since: int, s: State, calls: seq<Call>)
    requires TimedRun(setup, steps, since, s) && Calls(s.decisions) == calls
    ensures Filled(setup, |Execute(setup.dedup, calls).cache.order|)
  {
    DecisionsAreOneRun(setup, steps, s);
  }

  /** How many workers are needed before the queue can outgrow the capacity. */
  predicate Overfills(lim: Dedup.Limits, workers: nat) {
    workers >= 2 && lim.capacity >= 2 &&
    if lim.ttl == 0 then workers > (if lim.capacity >= 3 then lim.capacity else 3)
    else lim.ttl >= 2 || lim.capacity >= 3 || workers >= 3
  }

  /** The longest queue of any run (with room for two keys, for a positive lifetime). */
  function Longest(lim: Dedup.Limits, workers: nat): nat {
    if workers == 0 then 0
    else if lim.capacity <= 1 then lim.capacity
    else if lim.ttl == 0 then workers
    else if lim.capacity >= 3 then lim.capacity + workers - 1
    else if Overfills(lim, workers) then 3
    else 2
  }

  lemma NoLonger(setup: Setup, steps: seq<Step>, since: int, s: State)
    requires setup.dedup.capacity >= 1 && TimedRun(setup, steps, since, s)
    ensures |s.cache.order| <= Longest(setup.dedup, setup.workers)
  {
    QueueIsBounded(setup, steps, since, s);
    if setup.workers == 0 {
      NoWorkersEmptyCache(setup, steps, s);
    } else {
      DecisionsAreOneRun(setup, steps, s);
      if setup.dedup.capacity == 1 {
        CapacityOneAgrees(setup.dedup, Calls(s.decisions));
      } else if setup.dedup.capacity == 2 && setup.dedup.ttl > 0 {
        ThreeAreEnough(setup.dedup, Calls(s.decisions));
      }
    }
  }

  lemma FewCalls(lim: Dedup.Limits, x: string, k: string)
    requires lim.capacity >= 1 && x != k
    ensures |Execute(lim, [Call(x, 0)]).cache.order| == 1
    ensures lim.capacity >= 2 && lim.ttl > 0 ==> |Execute(lim, [Call(x, 0), Call(k, 0)]).cache.order| == 2
  {
    RoomForMore(lim, Dedup.EMPTY, x, 0);
    ExecuteMore(lim, [], Call(x, 0));
    assert [] + [Call(x, 0)] == [Call(x, 0)];
    if lim.capacity >= 2 && lim.ttl > 0 {
      RoomForMore(lim, Execute(lim, [Call(x, 0)]).cache, k, 0);
      ExecuteMore(lim, [Call(x, 0)], Call(k, 0));
      assert [Call(x, 0)] + [Call(k, 0)] == [Call(x, 0), Call(k, 0)];
    }
  }

  /** Without overlap the queue fills up to a capacity of one or two. */
  lemma FewFill(setup: Setup, payload: string -> seq<Byte>, keys: seq<string>)
    requires setup.workers >= 1 && setup.queueCapacity >= 1 && CanSend(setup, payload, keys) && |keys| >= 2
    requires setup.dedup.capacity == 1 || (setup.dedup.capacity == 2 && setup.dedup.ttl > 0)
    ensures Filled(setup, setup.dedup.capacity)
  {
    var i, x, k := Initial(setup), keys[0], keys[1];
    assert Differ(keys, 0, 1) && Calls(i.decisions) == [];
    FewCalls(setup.dedup, x, k);
    var s1 := Handle(setup, i, 0, 0, payload(x), x, 0);
    if setup.dedup.capacity == 1 {
      var steps := ReachedByTimedRun(setup, 0, s1, 0);
      FilledBy(setup, steps, 0, s1, [Call(x, 0)]);
    } else {
      var s2 := Handle(setup, s1, 0, 0, payload(k), k, 0);
      ReachesOn(setup, i, 0, s1, 0, s2, 0);
      var steps := ReachedByTimedRun(setup, 0, s2, 0);
      FilledBy(setup, steps, 0, s2, [Call(x, 0), Call(k, 0)]);
    }
  }

  lemma ThreeFill(setup: Setup, payload: string -> seq<Byte>, keys: seq<string>)
    requires setup.queueCapacity >= 1 && CanSend(setup, payload, keys) && |keys| >= 3
    requires setup.dedup.capacity == 2 && Overfills(setup.dedup, setup.workers)
    ensures Filled(setup, 3)
  {
    var ttl := setup.dedup.ttl;
    var r :=
      if ttl >= 2 then Readings(1, 0, ttl, 1) else if ttl == 1 then Readings(1, 0, 1, 0) else Readings(2, 1, 1, 0);
    var steps, s;
    if ttl >= 2 {
      steps, s := TwoWorkersOverfill(setup, payload, keys[0], keys[1], keys[2]);
    } else if ttl == 1 {
      steps, s := ThreeWorkersOverfill(setup, payload, keys[0], keys[1], keys[2]);
    } else {
      steps, s := FourWorkersOverfill(setup, payload, keys[0], keys[1], keys[2]);
    }
    assert Differ(keys, 0, 1) && Differ(keys, 1, 2);
    ShortRunOverfills(setup.dedup, keys[0], keys[1], keys[2], r);
    FilledBy(setup, steps, 0, s, ShortRun(keys[0], keys[1], keys[2], r));
  }

  /** With a lifetime of zero the workers pile up behind the one that overtook them. */
  lemma AllPileUp(setup: Setup, payload: string -> seq<Byte>, keys: seq<string>)
    requires setup.workers >= 1 && setup.queueCapacity >= 1 && CanSend(setup, payload, keys) && |keys| >= 2
    requires setup.dedup.ttl == 0 && setup.dedup.capacity >= 3
    ensures Filled(setup, setup.workers)
  {
    var n, x, k := setup.workers - 1, keys[0], keys[1];
    assert Differ(keys, 0, 1);
    var s := Overtake(setup, payload, x, k, 0, 1, n);
    var steps := ReachedByTimedRun(setup, 0, s, 1);
    QueueCanOutgrowCapacity(setup.dedup, x, k, n, 1);
    FilledBy(setup, steps, 0, s, [Call(x, 1)] + Renewals(setup.dedup, k, n));
  }

  lemma ManyFill(setup: Setup, payload: string -> seq<Byte>, keys: seq<string>)
    requires setup.workers >= 1 && setup.queueCapacity >= 1 && setup.dedup.ttl >= 1 && setup.dedup.capacity >= 3
    requires CanSend(setup, payload, keys) && |keys| >= setup.dedup.capacity
    ensures Filled(setup, setup.dedup.capacity + setup.workers - 1)
  {
    var fillers := SplitKeys(keys, setup.dedup.capacity);
    assert forall j :: 0 <= j < |fillers| ==> fillers[j] == keys[j + 2];
    var steps, s := LongRunHappens(setup, payload, keys[0], keys[1], fillers);
    LongRunFills(setup.dedup, setup.workers, keys[0], keys[1], fillers);
    FilledBy(setup, steps, 0 - setup.dedup.ttl, s, LongRun(setup.dedup, setup.workers, keys[0], keys[1], fillers));
  }

  /** No run has a longer queue, and some run has one as long, provided enough different keys can arrive. */
  lemma LongestQueue(setup: Setup, payload: string -> seq<Byte>, keys: seq<string>)
    requires setup.dedup.capacity >= 1 && (setup.dedup.ttl >= 1 || setup.dedup.capacity != 2)
    requires setup.queueCapacity >= 1 && CanSend(setup, payload, keys) && |keys| > setup.dedup.capacity
    ensures forall steps, since, s :: TimedRun(setup, steps, since, s) ==>
      |s.cache.order| <= Longest(setup.dedup, setup.workers)
    ensures Filled(setup, Longest(setup.dedup, setup.workers))
  {
    forall steps, since, s | TimedRun(setup, steps, since, s)
      ensures |s.cache.order| <= Longest(setup.dedup, setup.workers)
    {
      NoLonger(setup, steps, since, s);
    }
    if setup.workers == 0 {
      assert TimedRun(setup, [], 0, Initial(setup));
    } else if setup.dedup.capacity >= 3 {
      if setup.dedup.ttl == 0 {
        AllPileUp(setup, payload, keys);
      } else {
        ManyFill(setup, payload, keys);
      }
    } else if Overfills(setup.dedup, setup.workers) {
      ThreeFill(setup, payload, keys);
    } else {
      FewFill(setup, payload, keys);
    }
  }

  /**
   With a clock that never goes back, the queue stays within the capacity in every run
   exactly when there are too few workers to overfill it: one worker always fits, and so
   does room for one key; with a lifetime of two ticks or room for three keys, two
   workers do not. Events with enough different keys can arrive.
   */
  lemma QueueFitsExactly(setup: Setup, payload: string -> seq<Byte>, keys: seq<string>)
    requires setup.dedup.capacity >= 1 && setup.queueCapacity >= 1
    requires CanSend(setup, payload, keys) && |keys| > setup.dedup.capacity
    ensures (forall steps, since, s :: TimedRun(setup, steps, since, s) ==> |s.cache.order| <= setup.dedup.capacity)
      <==> !Overfills(setup.dedup, setup.workers)
  {
    if !Overfills(setup.dedup, setup.workers) {
      forall steps, since, s | TimedRun(setup, steps, since, s) ensures |s.cache.order| <= setup.dedup.capacity {
        NoLonger(setup, steps, since, s);
        QueueIsBounded(setup, steps, since, s);
      }
    } else if setup.dedup.capacity >= 3 {
      LongestQueue(setup, payload, keys);
    } else {
      ThreeFill(setup, payload, keys);
    }
  }
}
