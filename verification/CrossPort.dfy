/**
 The Go and C# ports keep a bucket in arrival order: a replaceable event clears
 it, then every event is appended, and the last element is the latest. The Rust
 port decides by stamp. This module says exactly when the two agree.
 */
module CrossPort {
  import opened Model
  import opened Toasts
  import opened Sorting
  import opened Buckets

  /** One arrival in the Go and C# ports. */
  function ArrivalApply(events: seq<Notification>, n: Notification): seq<Notification> {
    (if n.isReplaceable then [] else events) + [n]
  }

  function ArrivalBucket(arrivals: seq<Notification>): (r: seq<Notification>) {
    if arrivals == [] then [] else
    var n := |arrivals| - 1;
    ArrivalApply(ArrivalBucket(arrivals[..n]), arrivals[n])
  }

  /** `FromBatch` of the Go and C# ports: the last element supplies the details. */
  function ArrivalFromBatch(lib: Libraries, batch: seq<Notification>): ToastRequest
    requires batch != []
  {
    if |batch| == 1 then FromSingle(lib, batch[0]) else Summary(lib, batch, batch[|batch| - 1])
  }

  /** The index of the last replaceable arrival, or 0 when there is none. */
  ghost function LastReplaceable(arrivals: seq<Notification>): (i: nat)
    requires arrivals != []
    ensures i < |arrivals|
    ensures i > 0 ==> arrivals[i].isReplaceable
    ensures forall j :: i < j < |arrivals| ==> !arrivals[j].isReplaceable
  {
    var n := |arrivals| - 1;
    if n == 0 || arrivals[n].isReplaceable then n else LastReplaceable(arrivals[..n])
  }

  /** The arrival-order bucket is the suffix of the arrivals that starts at the last replaceable one. */
  lemma {:induction false} ArrivalBucketIsSuffix(arrivals: seq<Notification>)
    requires arrivals != []
    ensures ArrivalBucket(arrivals) == arrivals[LastReplaceable(arrivals)..]
    decreases |arrivals|
  {
    var n := |arrivals| - 1;
    if n == 0 {
      assert ArrivalBucket(arrivals[..0]) == [];
      assert arrivals == [arrivals[0]];
    } else {
      var front := arrivals[..n];
      ArrivalBucketIsSuffix(front);
      var i := LastReplaceable(arrivals);
      if i < n {
        assert front[i..] + [arrivals[n]] == arrivals[i..];
      }
    }
  }

  /** No replaceable event arrives after a newer one. */
  ghost predicate ReplaceableArriveInOrder(arrivals: seq<Notification>) {
    forall i, j :: 0 <= j < i < |arrivals| && arrivals[i].isReplaceable ==> arrivals[j].stamp <= arrivals[i].stamp
  }

  ghost predicate PortsAgreeThroughout(arrivals: seq<Notification>) {
    forall k :: 0 < k <= |arrivals| ==> BucketAfter(arrivals[..k]) == ArrivalBucket(arrivals[..k])
  }

  lemma {:induction false} InOrderPortsAgree(arrivals: seq<Notification>)
    requires arrivals != [] && ReplaceableArriveInOrder(arrivals)
    ensures BucketAfter(arrivals) == ArrivalBucket(arrivals)
    decreases |arrivals|
  {
    var n := |arrivals| - 1;
    if n == 0 {
      assert ArrivalBucket(arrivals[..0]) == [];
    } else {
      InOrderPortsAgree(arrivals[..n]);
      ArrivalEffect(arrivals);
    }
  }

  lemma StaleReplaceableSplitsPorts(arrivals: seq<Notification>, j: nat)
    requires |arrivals| > 1 && j < |arrivals| - 1
    requires arrivals[|arrivals| - 1].isReplaceable && arrivals[j].stamp > arrivals[|arrivals| - 1].stamp
    ensures BucketAfter(arrivals) != ArrivalBucket(arrivals)
  {
    var n := |arrivals| - 1;
    NewestSurvives(arrivals);
    assert arrivals[j].stamp <= Latest(arrivals).stamp;
    assert ArrivalBucket(arrivals) == [arrivals[n]];
    assert NewestStamp([arrivals[n]]) == arrivals[n].stamp;
  }

  /**
   The Rust bucket equals the Go and C# bucket after every prefix of the arrivals
   exactly when no replaceable event arrives after a newer one.
   */
  lemma PortsAgreeExactly(arrivals: seq<Notification>)
    ensures PortsAgreeThroughout(arrivals) <==> ReplaceableArriveInOrder(arrivals)
  {
    if ReplaceableArriveInOrder(arrivals) {
      forall k | 0 < k <= |arrivals|
        ensures BucketAfter(arrivals[..k]) == ArrivalBucket(arrivals[..k])
      {
        InOrderPortsAgree(arrivals[..k]);
      }
    } else {
      var i, j :| 0 <= j < i < |arrivals| && arrivals[i].isReplaceable && arrivals[j].stamp > arrivals[i].stamp;
      StaleReplaceableSplitsPorts(arrivals[..i + 1], j);
    }
  }

  ghost predicate InStampOrder(s: seq<Notification>) {
    forall i, j :: 0 <= i < j < |s| ==> s[i].stamp < s[j].stamp
  }

  lemma {:induction false} LatestOfIncreasing(s: seq<Notification>)
    requires s != [] && InStampOrder(s)
    ensures Latest(s) == s[|s| - 1]
  {
    LatestIsUnique(s, s[|s| - 1]);
  }

  lemma IncreasingBatchesLookAlike(lib: Libraries, events: seq<Notification>)
    requires events != [] && InStampOrder(events)
    ensures FlushToast(lib, events) == ArrivalFromBatch(lib, events)
    ensures FlushToast(lib, events).sources == events
  {
    SortOfOrdered(ByStamp, events);
    LatestOfIncreasing(events);
    BatchShowsLatest(lib, events);
  }

  /**
   Events that reach a bucket in stamp order give the same bucket and the same
   toast in every port: the suffix of the arrivals from the last replaceable one.
   */
  lemma PortsShowTheSameToast(lib: Libraries, arrivals: seq<Notification>)
    requires arrivals != [] && InStampOrder(arrivals)
    ensures PortsAgreeThroughout(arrivals)
    ensures BucketAfter(arrivals) == ArrivalBucket(arrivals) == arrivals[LastReplaceable(arrivals)..]
    ensures FlushToast(lib, BucketAfter(arrivals)) == ArrivalFromBatch(lib, ArrivalBucket(arrivals))
    ensures FlushToast(lib, BucketAfter(arrivals)).sources == BucketAfter(arrivals)
  {
    PortsAgreeExactly(arrivals);
    InOrderPortsAgree(arrivals);
    ArrivalBucketIsSuffix(arrivals);
    IncreasingBatchesLookAlike(lib, arrivals[LastReplaceable(arrivals)..]);
  }

  /** The last reset is no later than the last replaceable arrival. */
  lemma ResetIsReplaceable(arrivals: seq<Notification>)
    requires arrivals != []
    ensures LastReset(arrivals) <= LastReplaceable(arrivals)
  {
  }

  lemma OrdinaryTail(arrivals: seq<Notification>, p: nat)
    requires p < |arrivals| && forall i :: p < i < |arrivals| ==> !arrivals[i].isReplaceable
    ensures [arrivals[p]] + Ordinary(arrivals[p + 1..]) == arrivals[p..]
  {
    var tail := arrivals[p + 1..];
    OrdinaryOfOrdinary(tail);
    assert [arrivals[p]] + tail == arrivals[p..];
  }

  /** Both ports keep the same suffix. */
  lemma SameResetSameBucket(arrivals: seq<Notification>)
    requires arrivals != [] && LastReset(arrivals) == LastReplaceable(arrivals)
    ensures BucketAfter(arrivals) == ArrivalBucket(arrivals) == arrivals[LastReplaceable(arrivals)..]
  {
    SurvivorsExactly(arrivals);
    ArrivalBucketIsSuffix(arrivals);
    OrdinaryTail(arrivals, LastReplaceable(arrivals));
  }

  lemma ReplaceableIsNotOrdinary(arrivals: seq<Notification>, r: nat, p: nat)
    requires r < p < |arrivals| && arrivals[p].isReplaceable && arrivals[r].stamp != arrivals[p].stamp
    ensures arrivals[p] !in [arrivals[r]] + Ordinary(arrivals[r + 1..])
  {
    OrdinaryMembers(arrivals[r + 1..]);
  }

  /** A replaceable event that arrives after the last reset is not in the Rust bucket. */
  lemma StaleReplaceableIsMissing(arrivals: seq<Notification>, r: nat, p: nat)
    requires r < p < |arrivals| && Resets(arrivals, r) && forall i :: r < i < |arrivals| ==> !Resets(arrivals, i)
    requires arrivals[p].isReplaceable && arrivals[r].stamp != arrivals[p].stamp
    ensures arrivals[p] !in BucketAfter(arrivals)
  {
    SurvivorsFrom(arrivals, r);
    ReplaceableIsNotOrdinary(arrivals, r, p);
  }

  /**
   For distinct stamps the ports flush to the same toast exactly when the last arrival
   that emptied the Rust bucket is the last replaceable one and the events from there on
   arrived in stamp order.
   */
  lemma SameToastExactly(lib: Libraries, arrivals: seq<Notification>)
    requires arrivals != [] && DistinctStamps(arrivals)
    ensures BucketAfter(arrivals) != [] && ArrivalBucket(arrivals) != []
    ensures FlushToast(lib, BucketAfter(arrivals)) == ArrivalFromBatch(lib, ArrivalBucket(arrivals))
      <==> LastReset(arrivals) == LastReplaceable(arrivals) && InStampOrder(arrivals[LastReplaceable(arrivals)..])
  {
    var p := LastReplaceable(arrivals);
    NewestSurvives(arrivals);
    ArrivalBucketIsSuffix(arrivals);
    ResetIsReplaceable(arrivals);
    if LastReset(arrivals) == p {
      SameResetSameBucket(arrivals);
      var events := arrivals[p..];
      if InStampOrder(events) {
        IncreasingBatchesLookAlike(lib, events);
      } else {
        UnorderedBatchesDiffer(lib, events);
      }
    } else {
      StaleReplaceableIsMissing(arrivals, LastReset(arrivals), p);
      MissingSourceDiffers(lib, BucketAfter(arrivals), ArrivalBucket(arrivals), arrivals[p]);
    }
  }

  lemma UnorderedBatchesDiffer(lib: Libraries, events: seq<Notification>)
    requires events != [] && DistinctStamps(events) && !InStampOrder(events)
    ensures FlushToast(lib, events) != ArrivalFromBatch(lib, events)
  {
    FlushSources(lib, events);
    ByStampIsPreorder();
    SortOrders(ByStamp, events);
    var i, j :| 0 <= i < j < |events| && events[i].stamp >= events[j].stamp;
    var sorted := Sort(ByStamp, events);
    SortKeepsElements(ByStamp, events);
    assert ByStamp(sorted[i], sorted[j]);
    assert events[i].stamp != events[j].stamp;
  }

  lemma MissingSourceDiffers(lib: Libraries, a: seq<Notification>, b: seq<Notification>, n: Notification)
    requires a != [] && b != [] && n !in a && n in b
    ensures FlushToast(lib, a) != ArrivalFromBatch(lib, b)
  {
    FlushSources(lib, a);
    SortKeepsMembers(ByStamp, a);
    assert n !in FlushToast(lib, a).sources;
    assert ArrivalFromBatch(lib, b).sources == b;
  }
}
