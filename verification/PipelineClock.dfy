/**
 The duplicate cache inside the pipeline when the clock never goes back. A worker reads
 the clock when it has parsed its event and takes the cache's lock later, so the
 readings reach the cache out of order by at most the number of workers.
 */
module PipelineClock {
  import opened Pipeline
  import opened PipelineDedup
  import opened DedupOverlap
  import Dedup
  import PipelineOrder

  // ---------------------------------------------------------------------------
  // Time

  /** The last reading taken once `step` is done. */
  function After(step: Step, since: int): int {
    if step.Parse? then step.now else since
  }

  /** No reading along `steps` is earlier than the one before it, or than `since`. */
  ghost predicate Timed(steps: seq<Step>, since: int)
    decreases |steps|
  {
    steps == [] || (since <= After(steps[0], since) && Timed(steps[1..], After(steps[0], since)))
  }

  /** A run of the agent from its start, with a clock that never goes back. */
  ghost predicate TimedRun(setup: Setup, steps: seq<Step>, since: int, s: State) {
    Leads(setup, Initial(setup), steps, s) && Timed(steps, since)
  }

  // ---------------------------------------------------------------------------
  // Calls under way

  /** 1 if the worker has read the clock but not the cache, and its entry would expire before `x`. */
  function Pending(worker: Worker, ttl: nat, x: int): nat {
    if worker.Checking? && worker.now + ttl < x then 1 else 0
  }

  function OutBelow(workers: seq<Worker>, ttl: nat, x: int): nat {
    if workers == [] then 0 else
    OutBelow(workers[..|workers| - 1], ttl, x) + Pending(workers[|workers| - 1], ttl, x)
  }

  function Out(workers: seq<Worker>, ttl: nat): int -> nat {
    x => OutBelow(workers, ttl, x)
  }

  lemma {:induction false} OutUpdate(workers: seq<Worker>, w: nat, worker: Worker, ttl: nat, x: int)
    requires w < |workers|
    ensures OutBelow(workers[w := worker], ttl, x) + Pending(workers[w], ttl, x)
         == OutBelow(workers, ttl, x) + Pending(worker, ttl, x)
    decreases |workers|
  {
    var n := |workers| - 1;
    if w < n {
      OutUpdate(workers[..n], w, worker, ttl, x);
      assert workers[w := worker][..n] == workers[..n][w := worker];
    } else {
      assert workers[w := worker][..n] == workers[..n];
    }
  }

  lemma {:induction false} OutAtMost(workers: seq<Worker>, ttl: nat, x: int)
    ensures OutBelow(workers, ttl, x) <= |workers|
    decreases |workers|
  {
    if workers != [] {
      OutAtMost(workers[..|workers| - 1], ttl, x);
    }
  }

  lemma {:induction false} OneNotReading(workers: seq<Worker>, w: nat, ttl: nat, x: int)
    requires w < |workers| && !workers[w].Checking?
    ensures OutBelow(workers, ttl, x) <= |workers| - 1
    decreases |workers|
  {
    var n := |workers| - 1;
    if w < n {
      OneNotReading(workers[..n], w, ttl, x);
    } else {
      OutAtMost(workers[..n], ttl, x);
    }
  }

  // ---------------------------------------------------------------------------
  // What every step of a timed run keeps

  ghost predicate ReadBy(workers: seq<Worker>, clock: int) {
    forall w :: 0 <= w < |workers| && workers[w].Checking? ==> workers[w].now <= clock
  }

  ghost predicate MadeBy(order: seq<Dedup.Entry>, top: int) {
    forall i :: 0 <= i < |order| ==> order[i].expires <= top
  }

  /** The cache is no longer than the calls under way allow, and nothing in it was read after `clock`. */
  ghost predicate CacheOnTime(lim: Dedup.Limits, c: Dedup.Cache, out: int -> nat, slots: int, clock: int, bar: int) {
    && MadeBy(c.order, clock + lim.ttl) && bar <= clock + lim.ttl
    && Tidy(c.order, out, slots) && Loose(lim, c, out, slots, bar) && Roomy(lim, c, slots, bar)
  }

  ghost predicate OnTime(setup: Setup, s: State, clock: int, bar: int) {
    && s.workers != [] && ReadBy(s.workers, clock)
    && CacheOnTime(setup.dedup, s.cache, Out(s.workers, setup.dedup.ttl), |s.workers| - 1, clock, bar)
  }

  /** The cache is not touched, and no call with an early reading starts. */
  lemma QuietStep(setup: Setup, s: State, t: State, clock: int, later: int, bar: int)
    requires OnTime(setup, s, clock, bar) && t.cache == s.cache && |t.workers| == |s.workers|
    requires clock <= later && ReadBy(t.workers, later)
    requires forall x :: x <= clock + setup.dedup.ttl ==>
      OutBelow(t.workers, setup.dedup.ttl, x) <= OutBelow(s.workers, setup.dedup.ttl, x)
    ensures OnTime(setup, t, later, bar)
  {
    var ttl := setup.dedup.ttl;
    var out, left := Out(s.workers, ttl), Out(t.workers, ttl);
    assert left(bar) <= out(bar);
    FewerTidy(s.cache.order, out, left, |s.workers| - 1, clock + ttl);
  }

  /** Only worker `w` changes what it is doing, at a reading no earlier than `clock` if it takes one. */
  lemma WorkerStep(setup: Setup, s: State, t: State, w: nat, worker: Worker, clock: int, later: int, bar: int)
    requires OnTime(setup, s, clock, bar) && t.cache == s.cache
    requires w < |s.workers| && t.workers == s.workers[w := worker]
    requires clock <= later && (worker.Checking? ==> clock <= worker.now <= later)
    ensures OnTime(setup, t, later, bar)
  {
    forall x | x <= clock + setup.dedup.ttl
      ensures OutBelow(t.workers, setup.dedup.ttl, x) <= OutBelow(s.workers, setup.dedup.ttl, x)
    {
      OutUpdate(s.workers, w, worker, setup.dedup.ttl, x);
    }
    QuietStep(setup, s, t, clock, later, bar);
  }

  lemma OfferedEntries(lim: Dedup.Limits, c: Dedup.Cache, key: string, now: int, top: int)
    requires MadeBy(c.order, top) && now + lim.ttl <= top
    ensures MadeBy(Dedup.Offer(lim, c, key, now).cache.order, top)
  {
    var k := PurgeTakesFront(c, now);
    var m := EvictTakesFront(Dedup.Purge(c, now), lim.capacity);
  }

  /** Worker `w` stops being under way. */
  lemma CallEnds(workers: seq<Worker>, w: nat, worker: Worker, ttl: nat)
    requires w < |workers| && workers[w].Checking? && !worker.Checking?
    ensures Ends(Out(workers, ttl), Out(workers[w := worker], ttl), workers[w].now + ttl)
    ensures AtMost(Out(workers[w := worker], ttl), |workers| - 1)
  {
    var after := workers[w := worker];
    forall x
      ensures OutBelow(after, ttl, x) + (if workers[w].now + ttl < x then 1 else 0) <= OutBelow(workers, ttl, x)
      ensures OutBelow(after, ttl, x) <= |workers| - 1
    {
      OutUpdate(workers, w, worker, ttl, x);
      OneNotReading(after, w, ttl, x);
    }
  }

  lemma CheckKeepsTime(setup: Setup, s: State, w: nat, clock: int, bar: int) returns (raised: int)
    requires setup.dedup.capacity >= 1 && OnTime(setup, s, clock, bar) && Enabled(s, Check(w))
    ensures OnTime(setup, DoCheck(setup, s, w), clock, raised)
  {
    var t := DoCheck(setup, s, w);
    CheckEffect(setup, s, w);
    raised := CallKeepsOnTime(setup, s, t, w, t.workers[w], clock, bar);
  }

  lemma CheckEffect(setup: Setup, s: State, w: nat)
    requires Enabled(s, Check(w))
    ensures var t, n, now := DoCheck(setup, s, w), s.workers[w].n, s.workers[w].now;
      && t.cache == Dedup.Offer(setup.dedup, s.cache, n.deduplicationKey, now).cache
      && t.workers == s.workers[w := t.workers[w]] && !t.workers[w].Checking?
  {
  }

  lemma CallKeepsOnTime(setup: Setup, s: State, t: State, w: nat, worker: Worker, clock: int, bar: int)
    returns (raised: int)
    requires setup.dedup.capacity >= 1 && OnTime(setup, s, clock, bar)
    requires w < |s.workers| && s.workers[w].Checking? && !worker.Checking? && t.workers == s.workers[w := worker]
    requires t.cache == Dedup.Offer(setup.dedup, s.cache, s.workers[w].n.deduplicationKey, s.workers[w].now).cache
    ensures OnTime(setup, t, clock, raised)
  {
    var key, now, lim := s.workers[w].n.deduplicationKey, s.workers[w].now, setup.dedup;
    var out, left, slots := Out(s.workers, lim.ttl), Out(t.workers, lim.ttl), |s.workers| - 1;
    assert Ends(out, left, now + lim.ttl) && AtMost(left, slots) by {
      CallEnds(s.workers, w, worker, lim.ttl);
    }
    assert |t.workers| - 1 == slots && ReadBy(t.workers, clock);
    assert CacheOnTime(lim, s.cache, out, slots, clock, bar);
    raised := CallKeepsTime(lim, s.cache, key, now, t.cache, out, left, slots, clock, bar);
  }

  lemma CallKeepsTime(lim: Dedup.Limits, c: Dedup.Cache, key: string, now: int, d: Dedup.Cache, out: int -> nat,
      left: int -> nat, slots: int, clock: int, bar: int)
    returns (raised: int)
    requires lim.capacity >= 1 && now <= clock && CacheOnTime(lim, c, out, slots, clock, bar)
    requires d == Dedup.Offer(lim, c, key, now).cache
    requires Ends(out, left, now + lim.ttl) && AtMost(left, slots)
    ensures CacheOnTime(lim, d, left, slots, clock, raised)
  {
    raised := OfferKeepsOverlap(lim, c, key, now, out, left, slots, bar);
    OfferKeepsRoom(lim, c, key, now, out, left, slots, bar, raised);
    OfferedEntries(lim, c, key, now, clock + lim.ttl);
  }

  lemma StepKeepsTime(setup: Setup, s: State, step: Step, clock: int, bar: int) returns (raised: int)
    requires setup.dedup.capacity >= 1 && OnTime(setup, s, clock, bar) && Enabled(s, step)
    requires clock <= After(step, clock)
    ensures OnTime(setup, Apply(setup, s, step), After(step, clock), raised)
  {
    raised := bar;
    match step
    case Check(w) => raised := CheckKeepsTime(setup, s, w, clock, bar);
    case Dequeue(w) => WorkerStep(setup, s, DoDequeue(s, w), w, Holding(s.queue[0]), clock, clock, bar);
    case Exit(w) => WorkerStep(setup, s, s.(workers := s.workers[w := Exited]), w, Exited, clock, clock, bar);
    case Parse(w, now) =>
      var t := DoParse(setup, s, w, now);
      WorkerStep(setup, s, t, w, t.workers[w], clock, now, bar);
    case Observe(w) => WorkerStep(setup, s, DoObserve(setup, s, w), w, Handing(s.workers[w].n), clock, clock, bar);
    case HandOver(w) => WorkerStep(setup, s, DoHandOver(setup, s, w), w, Idle, clock, clock, bar);
    case _ => QuietStep(setup, s, Apply(setup, s, step), clock, clock, bar);
  }

  lemma {:induction false} RunKeepsTime(setup: Setup, s: State, steps: seq<Step>, t: State, clock: int, bar: int)
    requires setup.dedup.capacity >= 1 && OnTime(setup, s, clock, bar)
    requires Leads(setup, s, steps, t) && Timed(steps, clock)
    ensures exists later, raised :: OnTime(setup, t, later, raised)
    decreases |steps|
  {
    if steps != [] {
      var raised := StepKeepsTime(setup, s, steps[0], clock, bar);
      RunKeepsTime(setup, Apply(setup, s, steps[0]), steps[1..], t, After(steps[0], clock), raised);
    }
  }

  lemma {:induction false} NoneReading(workers: seq<Worker>, ttl: nat, x: int)
    requires forall w :: 0 <= w < |workers| ==> workers[w].Idle?
    ensures OutBelow(workers, ttl, x) == 0
    decreases |workers|
  {
    if workers != [] {
      NoneReading(workers[..|workers| - 1], ttl, x);
    }
  }

  lemma {:induction false} RunKeepsWorkers(setup: Setup, s: State, steps: seq<Step>, t: State)
    requires Leads(setup, s, steps, t)
    ensures |t.workers| == |s.workers|
    decreases |steps|
  {
    if steps != [] {
      RunKeepsWorkers(setup, Apply(setup, s, steps[0]), steps[1..], t);
    }
  }

  /** Without workers the cache stays empty. */
  lemma NoWorkersEmptyCache(setup: Setup, steps: seq<Step>, s: State)
    requires Leads(setup, Initial(setup), steps, s) && setup.workers == 0
    ensures s.cache == Dedup.EMPTY && s.decisions == []
  {
    PipelineOrder.NoWorkersNoDecisions(setup, Initial(setup), steps, s);
    DecisionsAreOneRun(setup, steps, s);
    assert Calls(s.decisions) == [];
  }

  /**
   With a clock that never goes back, the cache's queue exceeds the capacity by at most
   the number of other workers; with a lifetime of zero it never exceeds the number of
   workers. Room for two keys also suffices for two workers with a lifetime of one tick
   and for three with a lifetime of zero.
   */
  lemma QueueIsBounded(setup: Setup, steps: seq<Step>, since: int, s: State)
    requires setup.dedup.capacity >= 1 && TimedRun(setup, steps, since, s)
    ensures |s.cache.order| <= setup.dedup.capacity + (if setup.workers == 0 then 0 else setup.workers - 1)
    ensures setup.dedup.ttl == 0 ==> |s.cache.order| <= setup.workers
    ensures setup.dedup.capacity == 2 && setup.dedup.ttl <= 1 && setup.workers + setup.dedup.ttl <= 3 ==>
      |s.cache.order| <= 2
  {
    if setup.workers == 0 {
      NoWorkersEmptyCache(setup, steps, s);
    } else {
      var i := Initial(setup);
      forall x ensures OutBelow(i.workers, setup.dedup.ttl, x) == 0 {
        NoneReading(i.workers, setup.dedup.ttl, x);
      }
      assert OnTime(setup, i, since, since);
      RunKeepsTime(setup, i, steps, s, since, since);
      var later, bar :| OnTime(setup, s, later, bar);
      RunKeepsWorkers(setup, i, steps, s);
      LooseFits(setup.dedup, s.cache, Out(s.workers, setup.dedup.ttl), |s.workers| - 1, bar);
    }
  }
}
