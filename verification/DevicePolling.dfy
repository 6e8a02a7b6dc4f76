/**
 Device-code sign-in (identity.rs): poll the token endpoint until it answers,
 fails, or the code expires. Time is counted in nanoseconds from the moment the
 deadline is fixed; what the network does is an arbitrary script of rounds.
 */
module DevicePolling {
  import opened Model

  const NANOS: nat := 1_000_000_000
  const U64_MAX: nat := 0xFFFF_FFFF_FFFF_FFFF

  /** The string fields the token endpoint's body may carry. */
  datatype Body = Body(
    idToken: Option<string>,
    refreshToken: Option<string>,
    error: Option<string>,
    errorDescription: Option<string>)

  datatype TokenPoll =
    | Pending
    | SlowDown
    | Success(idToken: string, refreshToken: Option<string>)
    | Failed(reason: string)

  function ParseTokenPoll(body: Body): TokenPoll {
    if body.idToken.Some? then Success(body.idToken.value, body.refreshToken)
    else match body.error
      case Some(e) =>
        if e == "authorization_pending" then Pending
        else if e == "slow_down" then SlowDown
        else Failed(e + ": " + (if body.errorDescription.Some? then body.errorDescription.value else ""))
      case None => Failed("malformed token response")
  }

  /** One round: how long the sleep and the request took, and the body, if any arrived. */
  datatype Round = Round(sleep: nat, request: nat, body: Option<Body>)

  datatype Outcome = SignedIn(userId: string, refreshToken: Option<string>) | Rejected | TimedOut

  function AtLeastOne(n: nat): nat {
    if n < 1 then 1 else n
  }

  function SaturatingAdd(a: nat, b: nat): nat {
    if a + b > U64_MAX then U64_MAX else a + b
  }

  predicate Continues(r: Round) {
    r.body.Some? && (ParseTokenPoll(r.body.value).Pending? || ParseTokenPoll(r.body.value).SlowDown?)
  }

  predicate SlowsDown(r: Round) {
    r.body.Some? && ParseTokenPoll(r.body.value).SlowDown?
  }

  /** The poll interval in force before round `k`. */
  function IntervalBefore(interval: nat, script: nat -> Round, k: nat): nat {
    if k == 0 then AtLeastOne(interval)
    else if SlowsDown(script(k - 1)) then SaturatingAdd(IntervalBefore(interval, script, k - 1), 5)
    else IntervalBefore(interval, script, k - 1)
  }

  function SlowDowns(script: nat -> Round, k: nat): nat {
    if k == 0 then 0 else SlowDowns(script, k - 1) + (if SlowsDown(script(k - 1)) then 1 else 0)
  }

  /** The time before round `k`. */
  function Elapsed(script: nat -> Round, k: nat): nat {
    if k == 0 then 0 else Elapsed(script, k - 1) + script(k - 1).sleep + script(k - 1).request
  }

  predicate SleepIsLongEnough(interval: nat, script: nat -> Round, k: nat) {
    script(k).sleep >= IntervalBefore(interval, script, k) * 1_000_000_000
  }

  ghost predicate SleepsLongEnough(interval: nat, script: nat -> Round) {
    forall k: nat :: SleepIsLongEnough(interval, script, k)
  }

  /** Round `k` begins before the deadline. */
  predicate InTime(expiresIn: nat, script: nat -> Round, k: nat) {
    Elapsed(script, k) < expiresIn * 1_000_000_000
  }

  predicate GoesOn(script: nat -> Round, k: nat) {
    Continues(script(k))
  }

  function Conclusion(oid: string -> Option<string>, r: Round): Outcome {
    if r.body.None? then Rejected else
    match ParseTokenPoll(r.body.value)
    case Success(idToken, refresh) =>
      if oid(idToken).Some? then SignedIn("u_" + oid(idToken).value, refresh) else Rejected
    case _ => Rejected
  }

  /**
   `requests` rounds were run: each began before the deadline, all but the last
   asked to go on, and polling stopped on a final answer or at the deadline.
   */
  ghost predicate IsRun(expiresIn: nat, oid: string -> Option<string>, script: nat -> Round, requests: nat,
      outcome: Outcome)
  {
    && (forall k: nat :: k < requests ==> InTime(expiresIn, script, k))
    && (forall k: nat :: k + 1 < requests ==> GoesOn(script, k))
    && (if requests > 0 && !GoesOn(script, requests - 1) then outcome == Conclusion(oid, script(requests - 1))
        else outcome == TimedOut && !InTime(expiresIn, script, requests))
  }

  ghost predicate StillPolling(expiresIn: nat, script: nat -> Round, requests: nat) {
    && (forall k: nat :: k < requests ==> InTime(expiresIn, script, k))
    && (forall k: nat :: k < requests ==> GoesOn(script, k))
  }

  lemma FinalAnswer(expiresIn: nat, oid: string -> Option<string>, script: nat -> Round, requests: nat)
    requires StillPolling(expiresIn, script, requests)
    requires InTime(expiresIn, script, requests) && !GoesOn(script, requests)
    ensures IsRun(expiresIn, oid, script, requests + 1, Conclusion(oid, script(requests)))
  {
  }

  method Poll(expiresIn: nat, interval: nat, oid: string -> Option<string>, script: nat -> Round)
    returns (outcome: Outcome, requests: nat, pollInterval: nat)
    requires SleepsLongEnough(interval, script)
    ensures IsRun(expiresIn, oid, script, requests, outcome)
    ensures pollInterval == IntervalBefore(interval, script, requests)
  {
    var deadline := expiresIn * NANOS;
    var now: nat := 0;
    requests := 0;
    pollInterval := AtLeastOne(interval);
    while true
      invariant now == Elapsed(script, requests)
      invariant pollInterval == IntervalBefore(interval, script, requests) >= 1
      invariant StillPolling(expiresIn, script, requests)
      decreases deadline - now
    {
      if now >= deadline {
        return TimedOut, requests, pollInterval;
      }
      var round := script(requests);
      assert SleepIsLongEnough(interval, script, requests) && InTime(expiresIn, script, requests);
      now := now + round.sleep + round.request;
      requests := requests + 1;
      if !Continues(round) {
        assert !GoesOn(script, requests - 1);
        FinalAnswer(expiresIn, oid, script, requests - 1);
        outcome := Conclude(oid, round);
        return;
      }
      assert GoesOn(script, requests - 1);
      if ParseTokenPoll(round.body.value).SlowDown? {
        pollInterval := SaturatingAdd(pollInterval, 5);
      }
    }
  }

  /**
   Polling goes on exactly for the two error codes of section 3.5 of RFC 8628 that ask
   for it, slows down exactly for one of them, and a token beats any error code.
   */
  lemma PollingGoesOnExactly(r: Round)
    ensures Continues(r) <==>
      && r.body.Some? && r.body.value.idToken.None?
      && (r.body.value.error == Some("authorization_pending") || r.body.value.error == Some("slow_down"))
    ensures SlowsDown(r) <==> r.body.Some? && r.body.value.idToken.None? && r.body.value.error == Some("slow_down")
    ensures r.body.Some? && r.body.value.idToken.Some? ==>
      ParseTokenPoll(r.body.value) == Success(r.body.value.idToken.value, r.body.value.refreshToken)
    ensures r.body.Some? && !Continues(r) && r.body.value.idToken.None? ==>
      ParseTokenPoll(r.body.value) == Failed(
        if r.body.value.error.None? then "malformed token response"
        else if r.body.value.errorDescription.None? then r.body.value.error.value + ": "
        else r.body.value.error.value + ": " + r.body.value.errorDescription.value)
  {
    assert "authorization_pending"[0] != "slow_down"[0];
  }

  /** The last round: a failed request, a token, or a final error. */
  method Conclude(oid: string -> Option<string>, round: Round) returns (outcome: Outcome)
    requires !Continues(round)
    ensures outcome == Conclusion(oid, round)
    ensures outcome.SignedIn? <==>
      round.body.Some? && round.body.value.idToken.Some? && oid(round.body.value.idToken.value).Some?
    ensures if outcome.SignedIn?
            then outcome == SignedIn("u_" + oid(round.body.value.idToken.value).value, round.body.value.refreshToken)
            else outcome == Rejected
  {
    if round.body.None? {
      return Rejected;
    }
    match ParseTokenPoll(round.body.value)
    case Success(idToken, refresh) =>
      var id := oid(idToken);
      return if id.Some? then SignedIn("u_" + id.value, refresh) else Rejected;
    case _ =>
      return Rejected;
  }

  // ---------------------------------------------------------------------------
  // The bound

  /** The interval is the saturating sum of the server's interval and 5 seconds per `slow_down`. */
  lemma {:induction false} IntervalExactly(interval: nat, script: nat -> Round, k: nat)
    requires interval <= U64_MAX
    ensures var sum := (if interval == 0 then 1 else interval) + 5 * SlowDowns(script, k);
      IntervalBefore(interval, script, k) == if sum > 0xFFFF_FFFF_FFFF_FFFF then 0xFFFF_FFFF_FFFF_FFFF else sum
  {
    if k > 0 {
      IntervalExactly(interval, script, k - 1);
    }
  }

  lemma {:induction false} TimePasses(interval: nat, script: nat -> Round, k: nat)
    requires interval <= U64_MAX && SleepsLongEnough(interval, script)
    ensures Elapsed(script, k) >= k * (AtLeastOne(interval) * NANOS)
  {
    if k > 0 {
      TimePasses(interval, script, k - 1);
      IntervalExactly(interval, script, k - 1);
      assert SleepIsLongEnough(interval, script, k - 1);
      Distribute(k, AtLeastOne(interval) * NANOS);
    }
  }

  lemma Distribute(k: nat, per: nat)
    requires k > 0
    ensures k * per == (k - 1) * per + per
  {
  }

  lemma Scale(n: nat, i: nat)
    ensures n * (i * NANOS) == (n * i) * NANOS
  {
  }

  function CeilDiv(a: nat, b: nat): nat
    requires b > 0
  {
    (a + b - 1) / b
  }

  lemma BelowCeil(n: nat, i: nat, e: nat)
    requires i > 0 && n * i < e
    ensures n < CeilDiv(e, i)
  {
    var q := CeilDiv(e, i);
    assert q * i >= e;
    assert n >= q ==> n * i >= q * i;
  }

  lemma CeilIsLeast(n: nat, i: nat, e: nat)
    requires i > 0 && n < CeilDiv(e, i)
    ensures n * i < e
  {
    var q := CeilDiv(e, i);
    assert q * i <= e + i - 1;
    Scaled(n + 1, q, i);
    Distribute(n + 1, i);
  }

  lemma Scaled(a: nat, b: nat, i: nat)
    requires a <= b
    ensures a * i <= b * i
  {
  }

  /** At most `ceil(expires_in / max(1, interval))` token requests are sent, whatever the replies. */
  lemma RequestBound(expiresIn: nat, interval: nat, oid: string -> Option<string>, script: nat -> Round,
      requests: nat, outcome: Outcome)
    requires interval <= U64_MAX && SleepsLongEnough(interval, script)
    requires IsRun(expiresIn, oid, script, requests, outcome)
    ensures requests <= CeilDiv(expiresIn, if interval == 0 then 1 else interval)
  {
    if requests > 0 {
      var i := AtLeastOne(interval);
      assert InTime(expiresIn, script, requests - 1);
      TimePasses(interval, script, requests - 1);
      Scale(requests - 1, i);
      BelowCeil(requests - 1, i, expiresIn);
    }
  }

  /** A server that always answers `authorization_pending` at once, with sleeps of exactly the interval. */
  predicate PatientRound(interval: nat, script: nat -> Round, k: nat) {
    && GoesOn(script, k) && !SlowsDown(script(k))
    && script(k).request == 0 && script(k).sleep == (if interval == 0 then 1 else interval) * 1_000_000_000
  }

  ghost predicate PatientServer(interval: nat, script: nat -> Round) {
    forall k: nat :: PatientRound(interval, script, k)
  }

  lemma {:induction false} PatientTime(interval: nat, script: nat -> Round, k: nat)
    requires PatientServer(interval, script)
    ensures Elapsed(script, k) == k * (AtLeastOne(interval) * NANOS)
    ensures IntervalBefore(interval, script, k) == AtLeastOne(interval)
  {
    if k > 0 {
      PatientTime(interval, script, k - 1);
      Distribute(k, AtLeastOne(interval) * NANOS);
      assert PatientRound(interval, script, k - 1);
    }
  }

  /** The bound is reached: against a patient server exactly that many requests are sent. */
  lemma BoundIsReached(expiresIn: nat, interval: nat, oid: string -> Option<string>, script: nat -> Round,
      requests: nat, outcome: Outcome)
    requires interval <= U64_MAX && PatientServer(interval, script)
    requires IsRun(expiresIn, oid, script, requests, outcome)
    ensures requests == CeilDiv(expiresIn, if interval == 0 then 1 else interval) && outcome == TimedOut
  {
    var i := AtLeastOne(interval);
    forall k: nat ensures SleepIsLongEnough(interval, script, k) {
      PatientTime(interval, script, k);
      assert PatientRound(interval, script, k);
    }
    RequestBound(expiresIn, interval, oid, script, requests, outcome);
    assert requests > 0 ==> PatientRound(interval, script, requests - 1);
    PatientTime(interval, script, requests);
    if requests < CeilDiv(expiresIn, i) {
      CeilIsLeast(requests, i, expiresIn);
      Scale(requests, i);
    }
  }

  /** The script determines the run: nothing is sent after a final answer or after the deadline. */
  lemma RunIsUnique(expiresIn: nat, oid: string -> Option<string>, script: nat -> Round, m: nat, o: Outcome, n: nat,
      p: Outcome)
    requires IsRun(expiresIn, oid, script, m, o) && IsRun(expiresIn, oid, script, n, p)
    ensures m == n && o == p
  {
  }

  lemma {:induction false} TimeNeverGoesBack(script: nat -> Round, j: nat, k: nat)
    requires j <= k
    ensures Elapsed(script, j) <= Elapsed(script, k)
    decreases k
  {
    if j < k {
      TimeNeverGoesBack(script, j, k - 1);
    }
  }

  lemma LongPast(expiresIn: nat, script: nat -> Round, k: nat, later: nat)
    requires k < later && script(k).sleep + script(k).request >= expiresIn * 1_000_000_000
    ensures !InTime(expiresIn, script, later)
  {
    assert Elapsed(script, k + 1) >= script(k).sleep + script(k).request;
    TimeNeverGoesBack(script, k + 1, later);
  }

  /** Once sleeping and waiting for an answer have used up the lifetime, nothing more is sent. */
  lemma SlowRoundEndsPolling(expiresIn: nat, oid: string -> Option<string>, script: nat -> Round, requests: nat,
      outcome: Outcome, k: nat)
    requires IsRun(expiresIn, oid, script, requests, outcome) && k < requests
    requires script(k).sleep + script(k).request >= expiresIn * 1_000_000_000
    ensures requests == k + 1
  {
    if requests > k + 1 {
      LongPast(expiresIn, script, k, requests - 1);
    }
  }
}
