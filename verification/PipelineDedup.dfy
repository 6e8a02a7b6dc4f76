/**
 The duplicate cache inside the pipeline: whatever the interleaving, its decisions
 are one run of the cache, every event is decided at most once, and the events that
 get past it are exactly the accepted ones. So what `DedupRuns` proves of the cache
 holds end to end.
 */
module PipelineDedup {
  import opened Model
  import opened Parser
  import opened Pipeline
  import opened PipelineLedger
  import opened DedupRuns
  import Dedup
  import A = Aggregation

  function Calls(decisions: seq<Decision>): (r: seq<Call>)
    ensures |r| == |decisions|
    ensures forall i :: 0 <= i < |r| ==> r[i] == decisions[i].call
  {
    seq(|decisions|, i requires 0 <= i < |decisions| => decisions[i].call)
  }

  /** The event with stamp `x` has got past the cache. */
  ghost predicate Admitted(s: State, x: nat) {
    && x in s.place
    && match s.place[x]
       case InQueue => false
       case AtWorker(w) => w < |s.workers| && (s.workers[w].Observing? || s.workers[w].Handing?)
       case InBucket(_) => true
       case InHand(_) => true
       case InToast(_) => true
       case Dropped(reason) => reason == BucketOverflow || reason == Superseded
  }

  ghost predicate DecidedAs(decisions: seq<Decision>, x: nat, accepted: bool) {
    exists i :: 0 <= i < |decisions| && decisions[i].stamp == x && decisions[i].accepted == accepted
  }

  ghost predicate IsOneRun(setup: Setup, s: State) {
    var run := Execute(setup.dedup, Calls(s.decisions));
    && s.cache == run.cache
    && |run.answers| == |s.decisions|
    && forall i :: 0 <= i < |s.decisions| ==> s.decisions[i].accepted == run.answers[i]
  }

  ghost predicate DecisionOk(setup: Setup, s: State, d: Decision) {
    && 1 <= d.stamp <= |s.received|
    && ParseEvent(setup.lib, s.received[d.stamp - 1]).Ok?
    && d.call.key == ParseEvent(setup.lib, s.received[d.stamp - 1]).value.deduplicationKey
  }

  ghost predicate Decided(setup: Setup, s: State) {
    && IsOneRun(setup, s)
    && (forall i :: 0 <= i < |s.decisions| ==> DecisionOk(setup, s, s.decisions[i]))
    && (forall i, j :: 0 <= i < j < |s.decisions| ==> s.decisions[i].stamp != s.decisions[j].stamp)
    && (forall x: nat :: DecidedAs(s.decisions, x, true) <==> Admitted(s, x))
    && (forall x: nat :: DecidedAs(s.decisions, x, false) <==> At(s.place, x, Dropped(Duplicate)))
  }

  /** A step that takes no decision. */
  lemma NoDecision(setup: Setup, s: State, t: State)
    requires Decided(setup, s) && t.decisions == s.decisions && t.cache == s.cache && s.received <= t.received
    requires forall x: nat :: Admitted(t, x) <==> Admitted(s, x)
    requires forall x: nat :: At(t.place, x, Dropped(Duplicate)) <==> At(s.place, x, Dropped(Duplicate))
    ensures Decided(setup, t)
  {
    forall i | 0 <= i < |t.decisions| ensures DecisionOk(setup, t, t.decisions[i]) {
      assert DecisionOk(setup, s, s.decisions[i]);
    }
  }

  /** Only worker `w` changes what it is doing; `x`, if any, is the event it was at. */
  lemma OthersStayPut(setup: Setup, s: State, w: nat, x: nat)
    requires Ledger(setup, s) && w < |s.workers| && Holds(s.workers[w], x)
    ensures At(s.place, x, AtWorker(w))
    ensures forall y: nat, v: nat :: At(s.place, y, AtWorker(v)) && y != x ==> v != w
  {
    assert WorkerOk(setup.lib, s.received, s.workers[w], s.place, w);
  }

  lemma ReceiveDecided(setup: Setup, s: State, payload: seq<Byte>, at: int)
    requires Decided(setup, s) && Ledger(setup, s)
    ensures Decided(setup, DoReceive(setup, s, payload, at))
  {
    NoDecision(setup, s, DoReceive(setup, s, payload, at));
  }

  lemma DequeueDecided(setup: Setup, s: State, w: nat)
    requires Decided(setup, s) && Ledger(setup, s) && Enabled(s, Dequeue(w))
    ensures Decided(setup, DoDequeue(s, w))
  {
    var t := DoDequeue(s, w);
    assert At(s.place, s.queue[0].stamp, InQueue);
    forall x: nat ensures Admitted(t, x) <==> Admitted(s, x) {
      if x in s.place && s.place[x].AtWorker? {
        assert At(s.place, x, AtWorker(s.place[x].w));
      }
    }
    NoDecision(setup, s, t);
  }

  lemma ExitDecided(setup: Setup, s: State, w: nat)
    requires Decided(setup, s) && Ledger(setup, s) && Enabled(s, Exit(w))
    ensures Decided(setup, s.(workers := s.workers[w := Exited]))
  {
    var t := s.(workers := s.workers[w := Exited]);
    forall x: nat ensures Admitted(t, x) <==> Admitted(s, x) {
      if x in s.place && s.place[x].AtWorker? {
        assert At(s.place, x, AtWorker(s.place[x].w));
      }
    }
    NoDecision(setup, s, t);
  }

  lemma ParseDecided(setup: Setup, s: State, w: nat, now: int)
    requires Decided(setup, s) && Ledger(setup, s) && Enabled(s, Parse(w, now))
    ensures Decided(setup, DoParse(setup, s, w, now))
  {
    var t := DoParse(setup, s, w, now);
    var x := s.workers[w].evt.stamp;
    OthersStayPut(setup, s, w, x);
    forall y: nat ensures Admitted(t, y) <==> Admitted(s, y) {
      if y in s.place && s.place[y].AtWorker? {
        assert At(s.place, y, AtWorker(s.place[y].w));
      }
    }
    NoDecision(setup, s, t);
  }

  lemma ObserveDecided(setup: Setup, s: State, w: nat)
    requires Decided(setup, s) && Ledger(setup, s) && Enabled(s, Observe(w))
    ensures Decided(setup, DoObserve(setup, s, w))
  {
    var t := DoObserve(setup, s, w);
    forall y: nat ensures Admitted(t, y) <==> Admitted(s, y) {}
    NoDecision(setup, s, t);
  }

  lemma HandOverAdmits(setup: Setup, s: State, w: nat, y: nat)
    requires Ledger(setup, s) && Enabled(s, HandOver(w))
    ensures Admitted(DoHandOver(setup, s, w), y) <==> Admitted(s, y)
    ensures At(DoHandOver(setup, s, w).place, y, Dropped(Duplicate)) <==> At(s.place, y, Dropped(Duplicate))
  {
    var n := s.workers[w].n;
    OthersStayPut(setup, s, w, n.stamp);
    if y in s.place {
      PlacedAfterAdd(setup, s, n, y);
      assert s.place[y].AtWorker? ==> At(s.place, y, AtWorker(s.place[y].w));
    }
  }

  lemma HandOverDecided(setup: Setup, s: State, w: nat)
    requires Decided(setup, s) && Ledger(setup, s) && Enabled(s, HandOver(w))
    ensures Decided(setup, DoHandOver(setup, s, w))
  {
    var t := DoHandOver(setup, s, w);
    forall y: nat
      ensures Admitted(t, y) <==> Admitted(s, y)
      ensures At(t.place, y, Dropped(Duplicate)) <==> At(s.place, y, Dropped(Duplicate))
    {
      HandOverAdmits(setup, s, w, y);
    }
    NoDecision(setup, s, t);
  }

  lemma TakeDecided(setup: Setup, s: State, taken: A.Taken, key: Key, ofHost: bool)
    requires Decided(setup, s)
    ensures Decided(setup, AfterTake(s, taken, key, ofHost))
  {
    var t := AfterTake(s, taken, key, ofHost);
    MoveAt(s.place, InBucket(key), InHand(|s.hands|));
    forall y: nat ensures Admitted(t, y) <==> Admitted(s, y) {}
    NoDecision(setup, s, t);
  }

  lemma SpawnTakenAdmits(setup: Setup, s: State, h: nat, y: nat)
    requires Enabled(s, SpawnTaken(h))
    ensures var t := DoSpawnTaken(setup, s, h);
      && (Admitted(t, y) <==> Admitted(s, y))
      && (At(t.place, y, Dropped(Duplicate)) <==> At(s.place, y, Dropped(Duplicate)))
  {
  }

  lemma SpawnTakenDecided(setup: Setup, s: State, h: nat)
    requires Decided(setup, s) && Enabled(s, SpawnTaken(h))
    ensures Decided(setup, DoSpawnTaken(setup, s, h))
  {
    var t := DoSpawnTaken(setup, s, h);
    forall y: nat
      ensures Admitted(t, y) <==> Admitted(s, y)
      ensures At(t.place, y, Dropped(Duplicate)) <==> At(s.place, y, Dropped(Duplicate))
    {
      SpawnTakenAdmits(setup, s, h, y);
    }
    NoDecision(setup, s, t);
  }

  lemma HostDecided(setup: Setup, s: State, h: Host)
    requires Decided(setup, s)
    ensures Decided(setup, s.(host := h))
  {
    var t := s.(host := h);
    forall y: nat ensures Admitted(t, y) <==> Admitted(s, y) {}
    NoDecision(setup, s, t);
  }

  lemma FlushNextDecided(setup: Setup, s: State, aborted: bool)
    requires Decided(setup, s) && Enabled(s, FlushNext(aborted))
    ensures Decided(setup, DoFlushNext(s, aborted))
  {
    var key := s.host.left[0];
    var taken := A.Take(s.table, key, aborted);
    TakeDecided(setup, s, taken, key, true);
    HostDecided(setup, AfterTake(s, taken, key, true), Flushing(s.host.left[1..]));
  }

  lemma RenderDecided(setup: Setup, s: State, renders: seq<Render>, log: seq<AckAttempt>)
    requires Decided(setup, s)
    ensures Decided(setup, s.(renders := renders, log := log))
  {
    var t := s.(renders := renders, log := log);
    forall y: nat ensures Admitted(t, y) <==> Admitted(s, y) {}
    NoDecision(setup, s, t);
  }

  // ---------------------------------------------------------------------------
  // The decision itself

  lemma DecidedAfter(decisions: seq<Decision>, d: Decision, x: nat, accepted: bool)
    ensures DecidedAs(decisions + [d], x, accepted)
      <==> DecidedAs(decisions, x, accepted) || (d.stamp == x && d.accepted == accepted)
  {
    var more := decisions + [d];
    if DecidedAs(decisions, x, accepted) {
      var i :| 0 <= i < |decisions| && decisions[i].stamp == x && decisions[i].accepted == accepted;
      assert more[i] == decisions[i];
    }
    assert more[|decisions|] == d;
  }

  lemma RunExtends(setup: Setup, s: State, d: Decision)
    requires IsOneRun(setup, s)
    requires d.accepted == Dedup.Offer(setup.dedup, s.cache, d.call.key, d.call.now).accepted
    ensures var t := s.(decisions := s.decisions + [d],
                        cache := Dedup.Offer(setup.dedup, s.cache, d.call.key, d.call.now).cache);
      IsOneRun(setup, t)
  {
    var calls, more := Calls(s.decisions), Calls(s.decisions + [d]);
    assert more == calls + [d.call];
    assert more[..|calls|] == calls;
  }

  lemma CheckAdmits(setup: Setup, s: State, w: nat, y: nat)
    requires Ledger(setup, s) && Enabled(s, Check(w))
    ensures var t := DoCheck(setup, s, w); var x := s.workers[w].n.stamp;
      && (Admitted(t, y) <==> Admitted(s, y) || (y == x && t.workers[w].Observing?))
      && (At(t.place, y, Dropped(Duplicate)) <==> At(s.place, y, Dropped(Duplicate)) || (y == x && t.workers[w].Idle?))
      && !Admitted(s, x) && !At(s.place, x, Dropped(Duplicate))
  {
    OthersStayPut(setup, s, w, s.workers[w].n.stamp);
    if y in s.place && s.place[y].AtWorker? {
      assert At(s.place, y, AtWorker(s.place[y].w));
    }
  }

  lemma CheckDecided(setup: Setup, s: State, w: nat)
    requires Decided(setup, s) && Ledger(setup, s) && Enabled(s, Check(w))
    ensures Decided(setup, DoCheck(setup, s, w))
  {
    var t := DoCheck(setup, s, w);
    var n := s.workers[w].n;
    var d := t.decisions[|s.decisions|];
    assert t.decisions == s.decisions + [d];
    RunExtends(setup, s, d);
    CheckAdmits(setup, s, w, n.stamp);
    assert !DecidedAs(s.decisions, n.stamp, true) && !DecidedAs(s.decisions, n.stamp, false);
    forall x: nat
      ensures DecidedAs(t.decisions, x, true) <==> Admitted(t, x)
      ensures DecidedAs(t.decisions, x, false) <==> At(t.place, x, Dropped(Duplicate))
    {
      CheckAdmits(setup, s, w, x);
      DecidedAfter(s.decisions, d, x, true);
      DecidedAfter(s.decisions, d, x, false);
    }
    CheckDecisions(setup, s, w);
  }

  lemma NewDecisionOk(setup: Setup, s: State, w: nat)
    requires Ledger(setup, s) && Enabled(s, Check(w))
    ensures var t := DoCheck(setup, s, w);
      |t.decisions| == |s.decisions| + 1 && DecisionOk(setup, t, t.decisions[|s.decisions|])
  {
    assert WorkerOk(setup.lib, s.received, s.workers[w], s.place, w);
  }

  lemma CheckDecisions(setup: Setup, s: State, w: nat)
    requires Ledger(setup, s) && Enabled(s, Check(w))
    requires forall i :: 0 <= i < |s.decisions| ==> DecisionOk(setup, s, s.decisions[i])
    requires forall i, j :: 0 <= i < j < |s.decisions| ==> s.decisions[i].stamp != s.decisions[j].stamp
    requires !DecidedAs(s.decisions, s.workers[w].n.stamp, true) && !DecidedAs(s.decisions, s.workers[w].n.stamp, false)
    ensures var t := DoCheck(setup, s, w);
      && (forall i :: 0 <= i < |t.decisions| ==> DecisionOk(setup, t, t.decisions[i]))
      && (forall i, j :: 0 <= i < j < |t.decisions| ==> t.decisions[i].stamp != t.decisions[j].stamp)
  {
    var t := DoCheck(setup, s, w);
    forall i | 0 <= i < |t.decisions| ensures DecisionOk(setup, t, t.decisions[i]) {
      if i < |s.decisions| {
        assert DecisionOk(setup, s, s.decisions[i]);
      } else {
        NewDecisionOk(setup, s, w);
      }
    }
    forall i | 0 <= i < |s.decisions| ensures s.decisions[i].stamp != s.workers[w].n.stamp {
      assert s.decisions[i].stamp == s.workers[w].n.stamp ==>
        DecidedAs(s.decisions, s.workers[w].n.stamp, s.decisions[i].accepted);
    }
  }

  // ---------------------------------------------------------------------------
  // Every step, every run

  lemma WorkerStepKeepsDecided(setup: Setup, s: State, step: Step)
    requires Ledger(setup, s) && Decided(setup, s) && Enabled(s, step) && OfWorker(step)
    ensures Decided(setup, Apply(setup, s, step))
  {
    if step.Dequeue? {
      DequeueDecided(setup, s, step.w);
    } else if step.Exit? {
      ExitDecided(setup, s, step.w);
    } else if step.Parse? {
      ParseDecided(setup, s, step.w, step.now);
    } else if step.Check? {
      CheckDecided(setup, s, step.w);
    } else if step.Observe? {
      ObserveDecided(setup, s, step.w);
    } else {
      HandOverDecided(setup, s, step.w);
    }
  }

  lemma HostStepKeepsDecided(setup: Setup, s: State, step: Step)
    requires Decided(setup, s) && Enabled(s, step) && OfHost(step)
    ensures Decided(setup, Apply(setup, s, step))
  {
    HostDecided(setup, s, Apply(setup, s, step).host);
  }

  lemma RenderStepKeepsDecided(setup: Setup, s: State, step: Step)
    requires Decided(setup, s) && Enabled(s, step) && (step.Show? || step.AckSource?)
    ensures Decided(setup, Apply(setup, s, step))
  {
    var t := Apply(setup, s, step);
    RenderDecided(setup, s, t.renders, t.log);
  }

  lemma StepKeepsDecided(setup: Setup, s: State, step: Step)
    requires Ledger(setup, s) && Decided(setup, s) && Enabled(s, step)
    ensures Decided(setup, Apply(setup, s, step))
  {
    if OfWorker(step) {
      WorkerStepKeepsDecided(setup, s, step);
    } else if OfHost(step) {
      HostStepKeepsDecided(setup, s, step);
    } else if step.Receive? {
      ReceiveDecided(setup, s, step.payload, step.at);
    } else if step.TimerFires? {
      TakeDecided(setup, s, A.TimerTakes(s.table, step.id, step.aborted), s.table.timers[step.id].key, false);
    } else if step.FlushNext? {
      FlushNextDecided(setup, s, step.aborted);
    } else if step.SpawnTaken? {
      SpawnTakenDecided(setup, s, step.h);
    } else {
      RenderStepKeepsDecided(setup, s, step);
    }
  }

  lemma {:induction false} RunKeepsDecided(setup: Setup, s: State, steps: seq<Step>, t: State)
    requires Invariant(setup, s) && Decided(setup, s) && Leads(setup, s, steps, t)
    ensures Invariant(setup, t) && Decided(setup, t)
    decreases |steps|
  {
    if steps != [] {
      StepKeepsLedger(setup, s, steps[0]);
      StepKeepsBounds(setup, s, steps[0]);
      StepKeepsDecided(setup, s, steps[0]);
      RunKeepsDecided(setup, Apply(setup, s, steps[0]), steps[1..], t);
    }
  }

  /** After every run the decisions are one run of the cache, and the admitted events are the accepted ones. */
  lemma DecisionsAreOneRun(setup: Setup, steps: seq<Step>, s: State)
    requires Leads(setup, Initial(setup), steps, s)
    ensures Decided(setup, s)
  {
    InitialInvariant(setup);
    var i := Initial(setup);
    assert Calls(i.decisions) == [];
    RunKeepsDecided(setup, i, steps, s);
  }

  ghost function DedupKey(setup: Setup, s: State, x: nat): string
    requires 1 <= x <= |s.received| && ParseEvent(setup.lib, s.received[x - 1]).Ok?
  {
    ParseEvent(setup.lib, s.received[x - 1]).value.deduplicationKey
  }

  lemma FirstsDiffer(calls: seq<Call>, i: nat, j: nat)
    requires i < |calls| && j < |calls| && i != j && FirstOfItsKey(calls, i) && FirstOfItsKey(calls, j)
    ensures calls[i].key != calls[j].key
  {
  }

  /** The decision taken on the event with stamp `x`. */
  lemma DecisionOf(setup: Setup, s: State, x: nat, accepted: bool) returns (i: nat)
    requires Decided(setup, s) && DecidedAs(s.decisions, x, accepted)
    ensures i < |s.decisions| && s.decisions[i].stamp == x && s.decisions[i].accepted == accepted
    ensures HasKey(setup, s, x, s.decisions[i].call.key)
  {
    i :| 0 <= i < |s.decisions| && s.decisions[i].stamp == x && s.decisions[i].accepted == accepted;
    assert DecisionOk(setup, s, s.decisions[i]);
  }

  ghost predicate HasKey(setup: Setup, s: State, x: nat, key: string) {
    1 <= x <= |s.received| && ParseEvent(setup.lib, s.received[x - 1]).Ok? && DedupKey(setup, s, x) == key
  }

  lemma AdmittedIsFirst(setup: Setup, s: State, x: nat) returns (i: nat)
    requires Decided(setup, s) && FirstsWin(setup.dedup, Calls(s.decisions)) && Admitted(s, x)
    ensures i < |s.decisions| && FirstOfItsKey(Calls(s.decisions), i) && s.decisions[i].stamp == x
    ensures HasKey(setup, s, x, Calls(s.decisions)[i].key)
  {
    assert DecidedAs(s.decisions, x, true);
    i := DecisionOf(setup, s, x, true);
    AcceptedIsFirst(setup, s, i);
  }

  lemma AcceptedIsFirst(setup: Setup, s: State, i: nat)
    requires IsOneRun(setup, s) && FirstsWin(setup.dedup, Calls(s.decisions))
    requires i < |s.decisions| && s.decisions[i].accepted
    ensures FirstOfItsKey(Calls(s.decisions), i)
  {
    assert Execute(setup.dedup, Calls(s.decisions)).answers[i];
  }

  lemma AdmittedDiffer(setup: Setup, s: State, x: nat, y: nat)
    requires Decided(setup, s) && FirstsWin(setup.dedup, Calls(s.decisions))
    requires Admitted(s, x) && Admitted(s, y) && x != y
    ensures HaveDifferentKeys(setup, s, x, y)
  {
    var i := AdmittedIsFirst(setup, s, x);
    var j := AdmittedIsFirst(setup, s, y);
    FirstsDiffer(Calls(s.decisions), i, j);
  }

  ghost predicate HaveDifferentKeys(setup: Setup, s: State, x: nat, y: nat) {
    && 1 <= x <= |s.received| && ParseEvent(setup.lib, s.received[x - 1]).Ok?
    && 1 <= y <= |s.received| && ParseEvent(setup.lib, s.received[y - 1]).Ok?
    && DedupKey(setup, s, x) != DedupKey(setup, s, y)
  }

  /**
   No duplicate is ever acknowledged or shown: if the clock readings lie within less
   than a lifetime and the keys fit in the cache, then in every interleaving at most
   one event of each duplicate key gets past the cache, and so at most one is ever
   observed, bucketed or a source of any toast.
   */
  lemma AtMostOneAdmittedPerKey(setup: Setup, steps: seq<Step>, s: State, x: nat, y: nat)
    requires Leads(setup, Initial(setup), steps, s)
    requires |KeysOf(Calls(s.decisions))| <= setup.dedup.capacity
    requires WithinLifetime(setup.dedup, Calls(s.decisions))
    requires Admitted(s, x) && Admitted(s, y) && x != y
    ensures HaveDifferentKeys(setup, s, x, y)
  {
    DecisionsAreOneRun(setup, steps, s);
    OneWinnerPerKey(setup.dedup, Calls(s.decisions));
    AdmittedDiffer(setup, s, x, y);
  }
}
