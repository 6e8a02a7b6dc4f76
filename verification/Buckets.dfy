/**
 What one aggregation bucket holds after any arrival order, and the toast it
 flushes to (aggregator.rs `apply_to_bucket` and `flush`).

 Two workers may hand events over out of order, so the questions are: which
 events survive, does the newest one always survive, and when does the arrival
 order stop mattering. `SurvivorsExactly` answers the first for every arrival
 sequence; the others follow from it.
 */
module Buckets {
  import opened Model
  import opened Toasts
  import opened Sorting

  function NewestStamp(events: seq<Notification>): nat {
    if events == [] then 0 else Latest(events).stamp
  }

  /** One arrival at an open bucket. */
  function ApplyToBucket(events: seq<Notification>, n: Notification): seq<Notification> {
    if n.isReplaceable then
      if n.stamp >= NewestStamp(events) then [n] else events
    else
      events + [n]
  }

  /** The bucket after `arrivals`, the first of which opened it. */
  function BucketAfter(arrivals: seq<Notification>): seq<Notification>
    requires arrivals != []
  {
    var n := |arrivals| - 1;
    if n == 0 then [arrivals[0]] else ApplyToBucket(BucketAfter(arrivals[..n]), arrivals[n])
  }

  predicate ByStamp(a: Notification, b: Notification) {
    a.stamp <= b.stamp
  }

  /** The flush: sort by stamp, then build the toast. */
  function FlushToast(lib: Libraries, events: seq<Notification>): ToastRequest
    requires events != []
  {
    SortKeepsElements(ByStamp, events);
    FromBatch(lib, Sort(ByStamp, events))
  }

  ghost predicate DistinctStamps(s: seq<Notification>) {
    forall i, j :: 0 <= i < j < |s| ==> s[i].stamp != s[j].stamp
  }

  ghost predicate AllReplaceable(s: seq<Notification>) {
    forall i :: 0 <= i < |s| ==> s[i].isReplaceable
  }

  ghost predicate NoneReplaceable(s: seq<Notification>) {
    forall i :: 0 <= i < |s| ==> !s[i].isReplaceable
  }

  // ---------------------------------------------------------------------------
  // The newest event always survives

  /** The bucket is not empty, keeps only offered events, and its newest stamp is the newest offered. */
  ghost predicate KeepsNewest(arrivals: seq<Notification>, events: seq<Notification>) {
    && arrivals != [] && events != []
    && (forall e :: e in events ==> e in arrivals)
    && NewestStamp(events) == Latest(arrivals).stamp
  }

  lemma ApplyKeepsNewest(front: seq<Notification>, events: seq<Notification>, n: Notification)
    requires KeepsNewest(front, events)
    ensures KeepsNewest(front + [n], ApplyToBucket(events, n))
  {
    var all, after := front + [n], ApplyToBucket(events, n);
    assert all[..|front|] == front;
    if after == events + [n] {
      assert after[..|events|] == events;
    }
  }

  lemma {:induction false} NewestSurvives(arrivals: seq<Notification>)
    requires arrivals != []
    ensures KeepsNewest(arrivals, BucketAfter(arrivals))
    decreases |arrivals|
  {
    var n := |arrivals| - 1;
    if n == 0 {
      assert arrivals == [arrivals[0]];
    } else {
      NewestSurvives(arrivals[..n]);
      NewestGrows(arrivals, BucketAfter(arrivals[..n]));
    }
  }

  lemma NewestGrows(arrivals: seq<Notification>, events: seq<Notification>)
    requires arrivals != [] && KeepsNewest(arrivals[..|arrivals| - 1], events)
    ensures KeepsNewest(arrivals, ApplyToBucket(events, arrivals[|arrivals| - 1]))
  {
    var n := |arrivals| - 1;
    ApplyKeepsNewest(arrivals[..n], events, arrivals[n]);
    assert arrivals == arrivals[..n] + [arrivals[n]];
  }

  lemma LatestIsUnique(s: seq<Notification>, m: Notification)
    requires DistinctStamps(s) && m in s
    requires forall e :: e in s ==> e.stamp <= m.stamp
    ensures s != [] && Latest(s) == m
  {
    var i :| 0 <= i < |s| && s[i] == m;
    var latest := Latest(s);
    var j :| 0 <= j < |s| && s[j] == latest;
    assert s[i].stamp <= latest.stamp;
  }

  lemma LatestInSubset(arrivals: seq<Notification>, s: seq<Notification>)
    requires arrivals != [] && s != [] && DistinctStamps(arrivals)
    requires forall e :: e in s ==> e in arrivals
    requires Latest(s).stamp == Latest(arrivals).stamp
    ensures Latest(s) == Latest(arrivals)
  {
    LatestIsUnique(arrivals, Latest(arrivals));
    LatestIsUnique(arrivals, Latest(s));
  }

  /**
   Latest wins, for every arrival order and every mix of replaceable and
   ordinary events: the newest event offered is still in the bucket, is a source
   of the toast, and supplies its attribution, action and image.
   */
  lemma LatestWins(lib: Libraries, arrivals: seq<Notification>)
    requires arrivals != [] && DistinctStamps(arrivals)
    ensures Latest(arrivals) in BucketAfter(arrivals)
    ensures BucketAfter(arrivals) != []
    ensures Latest(arrivals) in FlushToast(lib, BucketAfter(arrivals)).sources
    ensures ShowsDetailsOf(FlushToast(lib, BucketAfter(arrivals)), Latest(arrivals))
  {
    NewestSurvives(arrivals);
    var events := BucketAfter(arrivals);
    LatestInSubset(arrivals, events);
    SortKeepsMembers(ByStamp, events);
    SortKeepsElements(ByStamp, events);
    var sorted := Sort(ByStamp, events);
    assert Latest(events) in sorted;
    assert Latest(sorted) in events;
    LatestInSubset(arrivals, sorted);
    BatchShowsLatest(lib, sorted);
  }

  // ---------------------------------------------------------------------------
  // Exactly which events survive

  /** Arrival `i` empties the bucket: it opened it, or it is replaceable and nothing newer came before. */
  ghost predicate Resets(arrivals: seq<Notification>, i: nat)
    requires i < |arrivals|
  {
    i == 0 || (arrivals[i].isReplaceable && forall j :: 0 <= j < i ==> arrivals[j].stamp <= arrivals[i].stamp)
  }

  ghost function LastReset(arrivals: seq<Notification>): (r: nat)
    requires arrivals != []
    ensures r < |arrivals| && Resets(arrivals, r)
    ensures forall i :: r < i < |arrivals| ==> !Resets(arrivals, i)
  {
    var n := |arrivals| - 1;
    if Resets(arrivals, n) then n else
    var r := LastReset(arrivals[..n]);
    assert forall i :: 0 <= i < n ==> Resets(arrivals[..n], i) == Resets(arrivals, i);
    r
  }

  function Ordinary(s: seq<Notification>): (r: seq<Notification>) {
    if s == [] then [] else
    var n := |s| - 1;
    Ordinary(s[..n]) + (if s[n].isReplaceable then [] else [s[n]])
  }

  /** The code compares a replaceable arrival with the bucket; that is as good as comparing it with all arrivals. */
  lemma ArrivalEffect(arrivals: seq<Notification>)
    requires |arrivals| > 1
    ensures var n := |arrivals| - 1;
      BucketAfter(arrivals) ==
        if Resets(arrivals, n) then [arrivals[n]]
        else if arrivals[n].isReplaceable then BucketAfter(arrivals[..n])
        else BucketAfter(arrivals[..n]) + [arrivals[n]]
  {
    var n := |arrivals| - 1;
    var front := arrivals[..n];
    NewestSurvives(front);
    var j :| 0 <= j < n && front[j] == Latest(front);
    assert arrivals[j].stamp == NewestStamp(BucketAfter(front));
    forall i | 0 <= i < n ensures arrivals[i].stamp <= arrivals[j].stamp {
      assert front[i] == arrivals[i];
    }
  }

  lemma ResetsInFront(arrivals: seq<Notification>, i: nat)
    requires i < |arrivals| - 1
    ensures Resets(arrivals[..|arrivals| - 1], i) <==> Resets(arrivals, i)
  {
    var front := arrivals[..|arrivals| - 1];
    assert forall j :: 0 <= j <= i ==> front[j] == arrivals[j];
  }

  lemma OnlyTheReset(arrivals: seq<Notification>)
    requires arrivals != [] && Resets(arrivals, |arrivals| - 1)
    ensures BucketAfter(arrivals) == [arrivals[|arrivals| - 1]] + Ordinary(arrivals[|arrivals|..])
  {
    assert arrivals[|arrivals|..] == [];
    if |arrivals| > 1 {
      ArrivalEffect(arrivals);
    }
  }

  /** An arrival that does not empty the bucket joins it if it is ordinary. */
  lemma SurvivorsGrow(arrivals: seq<Notification>, r: nat)
    requires r < |arrivals| - 1 && !Resets(arrivals, |arrivals| - 1)
    requires var front := arrivals[..|arrivals| - 1];
      BucketAfter(front) == [front[r]] + Ordinary(front[r + 1..])
    ensures BucketAfter(arrivals) == [arrivals[r]] + Ordinary(arrivals[r + 1..])
  {
    ArrivalEffect(arrivals);
    OrdinaryGrows(arrivals, r + 1);
  }

  lemma {:induction false} SurvivorsFrom(arrivals: seq<Notification>, r: nat)
    requires r < |arrivals| && Resets(arrivals, r) && forall i :: r < i < |arrivals| ==> !Resets(arrivals, i)
    ensures BucketAfter(arrivals) == [arrivals[r]] + Ordinary(arrivals[r + 1..])
    decreases |arrivals|
  {
    var n := |arrivals| - 1;
    if r == n {
      OnlyTheReset(arrivals);
    } else {
      forall i | r <= i < n ensures Resets(arrivals[..n], i) <==> Resets(arrivals, i) {
        ResetsInFront(arrivals, i);
      }
      SurvivorsFrom(arrivals[..n], r);
      SurvivorsGrow(arrivals, r);
    }
  }

  /**
   Closed form of the bucket, for every arrival sequence: the last arrival that
   emptied it, followed by the ordinary events that came after, in order.
   */
  lemma SurvivorsExactly(arrivals: seq<Notification>)
    requires arrivals != []
    ensures var r := LastReset(arrivals);
      BucketAfter(arrivals) == [arrivals[r]] + Ordinary(arrivals[r + 1..])
  {
    SurvivorsFrom(arrivals, LastReset(arrivals));
  }

  lemma OrdinaryGrows(s: seq<Notification>, from: nat)
    requires from < |s|
    ensures var n := |s| - 1;
      Ordinary(s[from..]) == Ordinary(s[..n][from..]) + (if s[n].isReplaceable then [] else [s[n]])
  {
    var n := |s| - 1;
    var tail := s[from..];
    assert tail[..|tail| - 1] == s[..n][from..];
    assert tail[|tail| - 1] == s[n];
  }

  // ---------------------------------------------------------------------------
  // When the arrival order does not matter

  /** Every reordering of the arrivals flushes to the same toast. */
  ghost predicate OrderDoesNotMatter(lib: Libraries, arrivals: seq<Notification>)
    requires arrivals != []
  {
    forall other: seq<Notification> {:trigger BucketAfter(other)} ::
      multiset(other) == multiset(arrivals) ==> SameFlush(lib, arrivals, other)
  }

  ghost predicate SameFlush(lib: Libraries, a: seq<Notification>, b: seq<Notification>) {
    && a != [] && b != []
    && BucketAfter(a) != [] && BucketAfter(b) != []
    && FlushToast(lib, BucketAfter(a)) == FlushToast(lib, BucketAfter(b))
  }

  lemma ByStampIsPreorder()
    ensures TotalPreorder(ByStamp)
  {
  }

  lemma DistinctPermutation(a: seq<Notification>, b: seq<Notification>)
    requires multiset(a) == multiset(b) && DistinctStamps(a)
    ensures DistinctStamps(b)
  {
    PermutationMembers(a, b);
    PermutationHasNoDuplicates(a, b);
    forall i, j | 0 <= i < j < |b| ensures b[i].stamp != b[j].stamp {
      assert b[i] in b && b[j] in b;
      var p :| 0 <= p < |a| && a[p] == b[i];
      var q :| 0 <= q < |a| && a[q] == b[j];
      assert p != q;
    }
  }

  lemma SortOfPermutation(a: seq<Notification>, b: seq<Notification>)
    requires multiset(a) == multiset(b) && DistinctStamps(a)
    ensures Sort(ByStamp, a) == Sort(ByStamp, b)
  {
    ByStampIsPreorder();
    SortOrders(ByStamp, a);
    SortOrders(ByStamp, b);
    SortKeepsElements(ByStamp, a);
    SortKeepsElements(ByStamp, b);
    DistinctPermutation(a, Sort(ByStamp, a));
    OrderedPermutationsAgree(ByStamp, Sort(ByStamp, a), Sort(ByStamp, b));
  }

  lemma {:induction false} OrdinaryOfOrdinary(s: seq<Notification>)
    requires NoneReplaceable(s)
    ensures Ordinary(s) == s
    decreases |s|
  {
    if s != [] {
      OrdinaryOfOrdinary(s[..|s| - 1]);
      assert s == s[..|s| - 1] + [s[|s| - 1]];
    }
  }

  lemma {:induction false} OrdinaryOfReplaceable(s: seq<Notification>)
    requires AllReplaceable(s)
    ensures Ordinary(s) == []
    decreases |s|
  {
    if s != [] {
      OrdinaryOfReplaceable(s[..|s| - 1]);
    }
  }

  /** Replaceable events alone leave only the newest. */
  lemma ReplaceableBucket(a: seq<Notification>)
    requires a != [] && DistinctStamps(a) && AllReplaceable(a)
    ensures BucketAfter(a) == [Latest(a)]
  {
    var r := LastReset(a);
    assert Ordinary(a[r + 1..]) == [] by {
      OrdinaryOfReplaceable(a[r + 1..]);
    }
    SurvivorsExactly(a);
    assert BucketAfter(a) == [a[r]];
    LoneSurvivor(a, a[r]);
  }

  lemma LoneSurvivor(a: seq<Notification>, e: Notification)
    requires a != [] && DistinctStamps(a) && BucketAfter(a) == [e]
    ensures e == Latest(a)
  {
    NewestSurvives(a);
    LatestInSubset(a, [e]);
  }

  /** Ordinary events alone all stay, in arrival order. */
  lemma OrdinaryBucket(a: seq<Notification>)
    requires a != [] && NoneReplaceable(a)
    ensures BucketAfter(a) == a
  {
    SurvivorsExactly(a);
    assert LastReset(a) == 0;
    OrdinaryOfOrdinary(a[1..]);
    assert a == [a[0]] + a[1..];
  }

  lemma HomogeneousIsConfluent(lib: Libraries, a: seq<Notification>, b: seq<Notification>)
    requires a != [] && DistinctStamps(a) && multiset(a) == multiset(b)
    requires AllReplaceable(a) || NoneReplaceable(a)
    ensures SameFlush(lib, a, b)
  {
    PermutationMembers(a, b);
    DistinctPermutation(a, b);
    assert AllReplaceable(a) ==> AllReplaceable(b) by {
      forall i | 0 <= i < |b| ensures b[i] in a {}
    }
    assert NoneReplaceable(a) ==> NoneReplaceable(b) by {
      forall i | 0 <= i < |b| ensures b[i] in a {}
    }
    if AllReplaceable(a) {
      ReplaceableBucket(a);
      ReplaceableBucket(b);
      LatestIsUnique(b, Latest(a));
    } else {
      OrdinaryBucket(a);
      OrdinaryBucket(b);
      SortOfPermutation(a, b);
    }
  }

  // A mixed bucket always has two orders that flush differently.

  function Without(s: seq<Notification>, i: nat): seq<Notification>
    requires i < |s|
  {
    s[..i] + s[i + 1..]
  }

  lemma WithoutFacts(s: seq<Notification>, i: nat)
    requires i < |s|
    ensures multiset([s[i]] + Without(s, i)) == multiset(Without(s, i) + [s[i]]) == multiset(s)
    ensures forall x :: x in s && x != s[i] ==> x in Without(s, i)
    ensures forall x :: x in Without(s, i) ==> x in s
  {
    assert s == s[..i] + [s[i]] + s[i + 1..];
  }

  lemma {:induction false} OrdinaryMembers(s: seq<Notification>)
    ensures forall x :: x in Ordinary(s) <==> x in s && !x.isReplaceable
    decreases |s|
  {
    if s != [] {
      OrdinaryMembers(s[..|s| - 1]);
      assert s == s[..|s| - 1] + [s[|s| - 1]];
    }
  }

  /** When the newest event comes first, nothing can empty the bucket again. */
  lemma NewestFirst(m: Notification, rest: seq<Notification>)
    requires forall x :: x in rest ==> x.stamp < m.stamp
    ensures BucketAfter([m] + rest) == [m] + Ordinary(rest)
  {
    var a := [m] + rest;
    SurvivorsExactly(a);
    forall k | 0 < k < |a| ensures !Resets(a, k) {
      assert a[k] in rest;
      assert a[0].stamp > a[k].stamp;
    }
    assert a[1..] == rest;
  }

  /** When the newest event comes last and is replaceable, it is alone. */
  lemma NewestReplaceableLast(m: Notification, rest: seq<Notification>)
    requires m.isReplaceable && forall x :: x in rest ==> x.stamp < m.stamp
    ensures BucketAfter(rest + [m]) == [m]
  {
    var a := rest + [m];
    SurvivorsExactly(a);
    assert Resets(a, |rest|);
    assert a[|rest| + 1..] == [];
  }

  /** When a replaceable event opens and an ordinary newest one follows, the opener stays. */
  lemma ReplaceableThenNewest(r: Notification, m: Notification, rest: seq<Notification>)
    requires r.stamp < m.stamp && !m.isReplaceable && forall x :: x in rest ==> x.stamp < m.stamp
    ensures r in BucketAfter([r, m] + rest)
  {
    var a := [r, m] + rest;
    SurvivorsExactly(a);
    forall k | 1 < k < |a| ensures !Resets(a, k) {
      assert a[k] in rest;
      assert a[1].stamp > a[k].stamp;
    }
    assert !Resets(a, 1);
  }

  lemma FlushSources(lib: Libraries, events: seq<Notification>)
    requires events != []
    ensures forall x :: x in FlushToast(lib, events).sources <==> x in events
    ensures |FlushToast(lib, events).sources| == |events|
  {
    SortKeepsElements(ByStamp, events);
    SortKeepsMembers(ByStamp, events);
    BatchShowsLatest(lib, Sort(ByStamp, events));
  }

  lemma OthersAreOlder(s: seq<Notification>, i: nat)
    requires i < |s| && DistinctStamps(s) && s[i] == Latest(s)
    ensures forall x :: x in Without(s, i) ==> x.stamp < s[i].stamp
  {
    var w := Without(s, i);
    forall k | 0 <= k < |w| ensures w[k].stamp < s[i].stamp {
      var k' := if k < i then k else k + 1;
      assert w[k] == s[k'];
    }
  }

  lemma TwoOrdersDiffer(lib: Libraries, a: seq<Notification>, b: seq<Notification>, c: seq<Notification>,
      x: Notification)
    requires a != [] && multiset(b) == multiset(c) == multiset(a)
    requires b != [] && x in BucketAfter(b)
    requires c != [] && x !in BucketAfter(c)
    ensures !OrderDoesNotMatter(lib, a)
  {
    NewestSurvives(b);
    NewestSurvives(c);
    FlushSources(lib, BucketAfter(b));
    FlushSources(lib, BucketAfter(c));
    assert !(SameFlush(lib, a, b) && SameFlush(lib, a, c));
  }

  lemma MixedNewestReplaceable(lib: Libraries, a: seq<Notification>, i: nat, o: Notification)
    requires i < |a| && DistinctStamps(a) && a[i] == Latest(a) && a[i].isReplaceable
    requires o in a && !o.isReplaceable
    ensures !OrderDoesNotMatter(lib, a)
  {
    var rest := Without(a, i);
    WithoutFacts(a, i);
    OthersAreOlder(a, i);
    NewestFirst(a[i], rest);
    NewestReplaceableLast(a[i], rest);
    OrdinaryMembers(rest);
    TwoOrdersDiffer(lib, a, [a[i]] + rest, rest + [a[i]], o);
  }

  lemma FrontSwap(m: Notification, r: Notification, rest: seq<Notification>, rest': seq<Notification>)
    requires multiset(rest) == multiset([r] + rest')
    ensures multiset([r, m] + rest') == multiset([m] + rest)
  {
    assert [r, m] + rest' == [r] + ([m] + rest');
  }

  lemma MixedNewestOrdinary(lib: Libraries, a: seq<Notification>, i: nat, r: Notification)
    requires i < |a| && DistinctStamps(a) && a[i] == Latest(a) && !a[i].isReplaceable
    requires r in a && r.isReplaceable
    ensures !OrderDoesNotMatter(lib, a)
  {
    var rest := Without(a, i);
    WithoutFacts(a, i);
    OthersAreOlder(a, i);
    var j :| 0 <= j < |rest| && rest[j] == r;
    var rest' := Without(rest, j);
    WithoutFacts(rest, j);
    FrontSwap(a[i], r, rest, rest');
    NewestFirst(a[i], rest);
    OrdinaryMembers(rest);
    ReplaceableThenNewest(r, a[i], rest');
    TwoOrdersDiffer(lib, a, [r, a[i]] + rest', [a[i]] + rest, r);
  }

  /**
   Arrival order does not matter exactly for the buckets whose events are all
   replaceable or all ordinary. For those, every permutation flushes to the same
   toast; every mixed collection has two orders that flush differently.
   */
  lemma OrderMattersExactlyWhenMixed(lib: Libraries, arrivals: seq<Notification>)
    requires arrivals != [] && DistinctStamps(arrivals)
    ensures OrderDoesNotMatter(lib, arrivals) <==> AllReplaceable(arrivals) || NoneReplaceable(arrivals)
  {
    if AllReplaceable(arrivals) || NoneReplaceable(arrivals) {
      forall other: seq<Notification> | multiset(other) == multiset(arrivals)
        ensures SameFlush(lib, arrivals, other)
      {
        HomogeneousIsConfluent(lib, arrivals, other);
      }
    } else {
      var o :| 0 <= o < |arrivals| && !arrivals[o].isReplaceable;
      var r :| 0 <= r < |arrivals| && arrivals[r].isReplaceable;
      var latest := Latest(arrivals);
      var i :| 0 <= i < |arrivals| && arrivals[i] == latest;
      if latest.isReplaceable {
        MixedNewestReplaceable(lib, arrivals, i, arrivals[o]);
      } else {
        MixedNewestOrdinary(lib, arrivals, i, arrivals[r]);
      }
    }
  }
}
