/**
 Exactly when overlapping workers show in the duplicate cache's decisions. With a clock
 that never goes back, every decision is the one a scan of the accepted calls would give
 exactly when there is at most one worker or room for one key. The runs that show the
 other direction are built from two moves: a worker fetches an event and reads the
 clock, and later takes its decision.
 */
module PipelineOverlap {
  import opened Model
  import opened Parser
  import opened Pipeline
  import opened PipelineDedup
  import opened PipelineClock
  import opened PipelineShutdown
  import opened DedupRuns
  import opened DedupOverlap
  import Dedup

  // ---------------------------------------------------------------------------
  // Building timed runs

  /** The last reading along `steps`. */
  ghost function LastReading(steps: seq<Step>, since: int): int
    decreases |steps|
  {
    if steps == [] then since else LastReading(steps[1..], After(steps[0], since))
  }

  /** `s` leads to `t` while the clock goes from `since` to `clock`. */
  ghost predicate Reaches(setup: Setup, s: State, since: int, t: State, clock: int) {
    exists steps :: Leads(setup, s, steps, t) && Timed(steps, since) && LastReading(steps, since) == clock
  }

  lemma {:induction false} LeadsAppend(setup: Setup, s: State, a: seq<Step>, t: State, b: seq<Step>, u: State)
    requires Leads(setup, s, a, t) && Leads(setup, t, b, u)
    ensures Leads(setup, s, a + b, u)
    decreases |b|
  {
    if b == [] {
      assert a + b == a;
    } else {
      LeadsOn(setup, s, a, t, b[0]);
      LeadsAppend(setup, s, a + [b[0]], Apply(setup, t, b[0]), b[1..], u);
      assert a + b == (a + [b[0]]) + b[1..];
    }
  }

  lemma {:induction false} TimedAppend(a: seq<Step>, b: seq<Step>, since: int)
    requires Timed(a, since) && Timed(b, LastReading(a, since))
    ensures Timed(a + b, since) && LastReading(a + b, since) == LastReading(b, LastReading(a, since))
    decreases |a|
  {
    if a == [] {
      assert a + b == b;
    } else {
      TimedAppend(a[1..], b, After(a[0], since));
      assert (a + b)[1..] == a[1..] + b && (a + b)[0] == a[0];
    }
  }

  lemma ReachesOn(setup: Setup, s: State, since: int, t: State, mid: int, u: State, clock: int)
    requires Reaches(setup, s, since, t, mid) && Reaches(setup, t, mid, u, clock)
    ensures Reaches(setup, s, since, u, clock)
  {
    var a :| Leads(setup, s, a, t) && Timed(a, since) && LastReading(a, since) == mid;
    var b :| Leads(setup, t, b, u) && Timed(b, mid) && LastReading(b, mid) == clock;
    LeadsAppend(setup, s, a, t, b, u);
    TimedAppend(a, b, since);
  }

  lemma ReachesNext(setup: Setup, s: State, since: int, step: Step)
    requires Enabled(s, step) && since <= After(step, since)
    ensures Reaches(setup, s, since, Apply(setup, s, step), After(step, since))
  {
    var t := Apply(setup, s, step);
    LeadsBack(setup, s, step, t, [], t);
    assert [step] + [] == [step] && [step][1..] == [];
    assert Timed([], After(step, since)) && LastReading([], After(step, since)) == After(step, since);
    assert Timed([step], since) && LastReading([step], since) == After(step, since);
  }

  lemma ReachesItself(setup: Setup, s: State, since: int)
    ensures Reaches(setup, s, since, s, since)
  {
    assert Leads(setup, s, [], s) && Timed([], since) && LastReading([], since) == since;
  }

  lemma ReachedByTimedRun(setup: Setup, since: int, s: State, clock: int) returns (steps: seq<Step>)
    requires Reaches(setup, Initial(setup), since, s, clock)
    ensures TimedRun(setup, steps, since, s)
  {
    steps :| Leads(setup, Initial(setup), steps, s) && Timed(steps, since) && LastReading(steps, since) == clock;
  }

  // ---------------------------------------------------------------------------
  // The two moves

  /** The payload is a valid event with that duplicate key. */
  ghost predicate Sends(setup: Setup, payload: seq<Byte>, key: string) {
    forall stamp: nat ::
      var r := ParseEvent(setup.lib, ReceivedEvent(payload, 0, stamp)); r.Ok? && r.value.deduplicationKey == key
  }

  /** The subscriber is running and nothing is waiting. */
  ghost predicate Free(s: State) {
    s.host.Running? && s.queue == []
  }

  /** Worker `w` holds a reading `now` for `key`. */
  ghost predicate Reading(s: State, w: nat, key: string, now: int) {
    w < |s.workers| && s.workers[w].Checking? && s.workers[w].n.deduplicationKey == key && s.workers[w].now == now
  }

  /** A message arrives, worker `w` takes it, parses it and reads the clock. */
  lemma Fetch(setup: Setup, s: State, since: int, w: nat, payload: seq<Byte>, key: string, now: int) returns (t: State)
    requires setup.queueCapacity >= 1 && Free(s) && w < |s.workers| && s.workers[w].Idle?
    requires since <= now && Sends(setup, payload, key)
    ensures Reaches(setup, s, since, t, now) && Free(t) && Reading(t, w, key, now)
    ensures t.workers == s.workers[w := t.workers[w]] && t.decisions == s.decisions
  {
    var evt := ReceivedEvent(payload, 0, |s.received| + 1);
    assert ParseEvent(setup.lib, evt).Ok? && ParseEvent(setup.lib, evt).value.deduplicationKey == key;
    var s1 := DoReceive(setup, s, payload, 0);
    assert s1.queue == [evt];
    ReachesNext(setup, s, since, Receive(payload, 0));
    var s2 := DoDequeue(s1, w);
    ReachesNext(setup, s1, since, Dequeue(w));
    ReachesOn(setup, s, since, s1, since, s2, since);
    t := DoParse(setup, s2, w, now);
    ReachesNext(setup, s2, since, Parse(w, now));
    ReachesOn(setup, s, since, s2, since, t, now);
  }

  /** Worker `w` takes its decision and finishes its event. */
  lemma Settle(setup: Setup, s: State, clock: int, w: nat, key: string, now: int) returns (t: State)
    requires Free(s) && Reading(s, w, key, now)
    ensures Reaches(setup, s, clock, t, clock) && Free(t)
    ensures t.workers == s.workers[w := Idle] && Calls(t.decisions) == Calls(s.decisions) + [Call(key, now)]
  {
    var s1 := DoCheck(setup, s, w);
    ReachesNext(setup, s, clock, Check(w));
    if s1.workers[w].Idle? {
      t := s1;
    } else {
      var s2 := DoObserve(setup, s1, w);
      ReachesNext(setup, s1, clock, Observe(w));
      ReachesOn(setup, s, clock, s1, clock, s2, clock);
      t := DoHandOver(setup, s2, w);
      ReachesNext(setup, s2, clock, HandOver(w));
      ReachesOn(setup, s, clock, s2, clock, t, clock);
    }
  }

  /** Both moves in one. */
  lemma Handle(setup: Setup, s: State, since: int, w: nat, payload: seq<Byte>, key: string, now: int) returns (t: State)
    requires setup.queueCapacity >= 1 && Free(s) && w < |s.workers| && s.workers[w].Idle?
    requires since <= now && Sends(setup, payload, key)
    ensures Reaches(setup, s, since, t, now) && Free(t)
    ensures t.workers == s.workers && Calls(t.decisions) == Calls(s.decisions) + [Call(key, now)]
  {
    var s1 := Fetch(setup, s, since, w, payload, key, now);
    t := Settle(setup, s1, now, w, key, now);
    ReachesOn(setup, s, since, s1, now, t, now);
  }

  // ---------------------------------------------------------------------------
  // The history scan

  /** Every decision is the one a scan of the calls accepted before it gives. */
  ghost predicate ScanDecides(lim: Dedup.Limits, decisions: seq<Decision>) {
    forall i :: 0 <= i < |decisions| ==> ScanDecidesAt(lim, decisions, i)
  }

  ghost predicate ScanDecidesAt(lim: Dedup.Limits, decisions: seq<Decision>, i: nat)
    requires i < |decisions|
  {
    var call := decisions[i].call;
    decisions[i].accepted <==> !SeenRecently(lim, Execute(lim, Calls(decisions)[..i]).accepted, call.key, call.now)
  }

  lemma {:induction false} AnswerIsOffer(lim: Dedup.Limits, calls: seq<Call>, i: nat)
    requires i < |calls|
    ensures |Execute(lim, calls).answers| == |calls|
    ensures Execute(lim, calls).answers[i]
      == Dedup.Offer(lim, Execute(lim, calls[..i]).cache, calls[i].key, calls[i].now).accepted
    decreases |calls|
  {
    var n := |calls| - 1;
    ExecuteMore(lim, calls[..n], calls[n]);
    assert calls[..n] + [calls[n]] == calls;
    AnswerCount(lim, calls[..n]);
    if i < n {
      AnswerIsOffer(lim, calls[..n], i);
      assert calls[..n][..i] == calls[..i];
    }
  }

  lemma {:induction false} AnswerCount(lim: Dedup.Limits, calls: seq<Call>)
    ensures |Execute(lim, calls).answers| == |calls|
    decreases |calls|
  {
    if calls != [] {
      AnswerCount(lim, calls[..|calls| - 1]);
    }
  }

  lemma InOrderScanDecides(setup: Setup, s: State)
    requires setup.dedup.capacity >= 1 && IsOneRun(setup, s)
    requires Monotone(Calls(s.decisions)) || setup.dedup.capacity == 1
    ensures ScanDecides(setup.dedup, s.decisions)
  {
    var calls := Calls(s.decisions);
    forall i | 0 <= i < |s.decisions| ensures ScanDecidesAt(setup.dedup, s.decisions, i) {
      AnswerIsOffer(setup.dedup, calls, i);
      if setup.dedup.capacity == 1 {
        CapacityOneMatchesScan(setup.dedup, calls[..i], calls[i]);
      } else {
        assert calls[..i] + [calls[i]] == calls[..i + 1];
        MatchesHistoryScan(setup.dedup, calls[..i], calls[i]);
      }
    }
  }

  /** With one worker the readings reach the cache in the order they were taken. */
  ghost predicate OneReader(s: State, clock: int) {
    && |s.workers| == 1 && ReadBy(s.workers, clock) && Monotone(Calls(s.decisions))
    && forall i :: 0 <= i < |s.decisions| ==>
         s.decisions[i].call.now <= if s.workers[0].Checking? then s.workers[0].now else clock
  }

  lemma StepKeepsOneReader(setup: Setup, s: State, step: Step, clock: int)
    requires OneReader(s, clock) && Enabled(s, step) && clock <= After(step, clock)
    ensures OneReader(Apply(setup, s, step), After(step, clock))
  {
    var t := Apply(setup, s, step);
    if step.Check? {
      var calls, more := Calls(s.decisions), Calls(t.decisions);
      assert more == calls + [Call(s.workers[0].n.deduplicationKey, s.workers[0].now)];
      assert forall i :: 0 <= i < |calls| ==> calls[i].now <= s.workers[0].now;
    } else {
      assert t.decisions == s.decisions;
    }
  }

  lemma {:induction false} RunKeepsOneReader(setup: Setup, s: State, steps: seq<Step>, t: State, clock: int)
    requires OneReader(s, clock) && Leads(setup, s, steps, t) && Timed(steps, clock)
    ensures Monotone(Calls(t.decisions))
    decreases |steps|
  {
    if steps != [] {
      StepKeepsOneReader(setup, s, steps[0], clock);
      RunKeepsOneReader(setup, Apply(setup, s, steps[0]), steps[1..], t, After(steps[0], clock));
    }
  }

  /** At most one worker, or room for one key: the scan decides in every run. */
  lemma ScanHolds(setup: Setup, steps: seq<Step>, since: int, s: State)
    requires setup.dedup.capacity >= 1 && TimedRun(setup, steps, since, s)
    requires setup.workers <= 1 || setup.dedup.capacity == 1
    ensures ScanDecides(setup.dedup, s.decisions)
  {
    DecisionsAreOneRun(setup, steps, s);
    if setup.workers == 0 {
      NoWorkersEmptyCache(setup, steps, s);
    } else {
      if setup.workers == 1 {
        assert Calls(Initial(setup).decisions) == [];
        RunKeepsOneReader(setup, Initial(setup), steps, s, since);
      }
      InOrderScanDecides(setup, s);
    }
  }

  /** One worker reads for `a`, then the other has `a` and, a lifetime later, `b` decided before it. */
  lemma LateCallHappens(setup: Setup, payload: string -> seq<Byte>, a: string, b: string)
    returns (steps: seq<Step>, s: State)
    requires setup.workers >= 2 && setup.queueCapacity >= 1
    requires Sends(setup, payload(a), a) && Sends(setup, payload(b), b)
    ensures TimedRun(setup, steps, 0, s)
    ensures Calls(s.decisions) == [Call(a, 1), Call(b, 1 + setup.dedup.ttl)] + [Call(a, 0)]
  {
    var i, last := Initial(setup), 1 + setup.dedup.ttl;
    var s1 := Fetch(setup, i, 0, 0, payload(a), a, 0);
    var s2 := Handle(setup, s1, 0, 1, payload(a), a, 1);
    ReachesOn(setup, i, 0, s1, 0, s2, 1);
    var s3 := Handle(setup, s2, 1, 1, payload(b), b, last);
    ReachesOn(setup, i, 0, s2, 1, s3, last);
    s := Settle(setup, s3, last, 0, a, 0);
    ReachesOn(setup, i, 0, s3, last, s, last);
    steps := ReachedByTimedRun(setup, 0, s, last);
    assert Calls(i.decisions) == [];
  }

  lemma ScanFails(setup: Setup, payload: string -> seq<Byte>, a: string, b: string) returns (steps: seq<Step>, s: State)
    requires setup.dedup.capacity >= 2 && setup.workers >= 2 && setup.queueCapacity >= 1
    requires a != b && Sends(setup, payload(a), a) && Sends(setup, payload(b), b)
    ensures TimedRun(setup, steps, 0, s) && !ScanDecides(setup.dedup, s.decisions)
  {
    steps, s := LateCallHappens(setup, payload, a, b);
    DecisionsAreOneRun(setup, steps, s);
    LateCallBreaksScan(setup, s, a, b);
  }

  lemma LateAnswer(lim: Dedup.Limits, calls: seq<Call>, a: string, b: string)
    requires lim.capacity >= 2 && a != b && calls == [Call(a, 1), Call(b, 1 + lim.ttl)] + [Call(a, 0)]
    ensures |Execute(lim, calls).answers| == 3 && Execute(lim, calls).answers[2]
    ensures SeenRecently(lim, Execute(lim, calls[..2]).accepted, a, 0)
  {
    assert calls[..2] == [Call(a, 1), Call(b, 1 + lim.ttl)] && calls[2] == Call(a, 0);
    ScanNeedsMonotoneReadings(lim, a, b);
    AnswerIsOffer(lim, calls, 2);
  }

  lemma LateCallBreaksScan(setup: Setup, s: State, a: string, b: string)
    requires setup.dedup.capacity >= 2 && a != b && IsOneRun(setup, s)
    requires Calls(s.decisions) == [Call(a, 1), Call(b, 1 + setup.dedup.ttl)] + [Call(a, 0)]
    ensures !ScanDecides(setup.dedup, s.decisions)
  {
    LateAnswer(setup.dedup, Calls(s.decisions), a, b);
    assert !ScanDecidesAt(setup.dedup, s.decisions, 2);
  }

  /**
   With a clock that never goes back, the cache decides every event of every run as a
   scan of its accepted calls would, exactly when there is at most one worker or room
   for one key, provided two events with different keys can arrive.
   */
  lemma ScanHoldsExactly(setup: Setup, payload: string -> seq<Byte>, a: string, b: string)
    requires setup.dedup.capacity >= 1 && setup.queueCapacity >= 1
    requires a != b && Sends(setup, payload(a), a) && Sends(setup, payload(b), b)
    ensures (forall steps, since, s :: TimedRun(setup, steps, since, s) ==> ScanDecides(setup.dedup, s.decisions))
      <==> setup.workers <= 1 || setup.dedup.capacity == 1
  {
    if setup.workers <= 1 || setup.dedup.capacity == 1 {
      forall steps, since, s | TimedRun(setup, steps, since, s) ensures ScanDecides(setup.dedup, s.decisions) {
        ScanHolds(setup, steps, since, s);
      }
    } else {
      var steps, s := ScanFails(setup, payload, a, b);
    }
  }
}
