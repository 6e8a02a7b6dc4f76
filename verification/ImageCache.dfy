/** The image cache (image_cache.rs): size-capped download and eviction of the oldest files. */
module ImageCache {
  import opened Model
  import opened Sorting

  // ---------------------------------------------------------------------------
  // Eviction

  datatype File = File(modified: int, path: string)

  predicate ByModified(a: File, b: File) {
    a.modified <= b.modified
  }

  /** A directory listing: every file once, in any order. */
  ghost predicate Lists(listing: seq<File>, files: map<string, int>) {
    && (forall i, j :: 0 <= i < j < |listing| ==> listing[i].path != listing[j].path)
    && (forall f :: f in listing ==> f.path in files && files[f.path] == f.modified)
    && (forall p :: p in files ==> File(files[p], p) in listing)
  }

  function Paths(s: seq<File>): set<string> {
    set f | f in s :: f.path
  }

  /** The files the eviction tries to remove: all but the last `maxFiles` in order of modification. */
  function Victims(listing: seq<File>, maxFiles: nat): seq<File> {
    SortKeepsElements(ByModified, listing);
    if |listing| <= maxFiles then [] else Sort(ByModified, listing)[..|listing| - maxFiles]
  }

  /** `files` after removing `victims`, except those whose removal fails. */
  function Without(files: map<string, int>, victims: seq<File>, stuck: set<string>): map<string, int> {
    files - (Paths(victims) - stuck)
  }

  lemma RemoveOneMore(files: map<string, int>, victims: seq<File>, f: File, stuck: set<string>)
    ensures Without(files, victims + [f], stuck) ==
      if f.path in stuck then Without(files, victims, stuck) else Without(files, victims, stuck) - {f.path}
  {
    PathsOfMore(victims, f);
  }

  class CacheDirectory {
    var files: map<string, int>

    constructor ()
      ensures files == map[]
    {
      files := map[];
    }

    /** `stuck` are the paths whose removal fails; failures are ignored. */
    method EvictBeyondCap(listing: seq<File>, maxFiles: nat, stuck: set<string>)
      requires Lists(listing, files)
      modifies this
      ensures files == Without(old(files), Victims(listing, maxFiles), stuck)
    {
      if |listing| <= maxFiles {
        assert Paths(Victims(listing, maxFiles)) == {};
        return;
      }
      var sorted := Sort(ByModified, listing);
      SortKeepsElements(ByModified, listing);
      ghost var before := files;
      for i := 0 to |listing| - maxFiles
        invariant files == Without(before, sorted[..i], stuck)
      {
        assert sorted[..i + 1] == sorted[..i] + [sorted[i]];
        RemoveOneMore(before, sorted[..i], sorted[i], stuck);
        if sorted[i].path !in stuck {
          files := files - {sorted[i].path};
        }
      }
    }
  }

  lemma PathsOfMore(s: seq<File>, f: File)
    ensures Paths(s + [f]) == Paths(s) + {f.path}
  {
    forall p ensures p in Paths(s + [f]) <==> p in Paths(s) + {f.path} {
      if p in Paths(s) {
        var g :| g in s && g.path == p;
        assert g in s + [f];
      }
      if p == f.path {
        assert f in s + [f];
      }
    }
  }

  ghost predicate DistinctPaths(s: seq<File>) {
    forall i, j :: 0 <= i < j < |s| ==> s[i].path != s[j].path
  }

  lemma {:induction false} CountPaths(s: seq<File>)
    requires DistinctPaths(s)
    ensures |Paths(s)| == |s|
    decreases |s|
  {
    if s == [] {
      assert Paths(s) == {};
    } else {
      var n := |s| - 1;
      assert s == s[..n] + [s[n]];
      CountPaths(s[..n]);
      PathsOfMore(s[..n], s[n]);
      assert s[n].path !in Paths(s[..n]);
    }
  }

  lemma SortedListing(listing: seq<File>, files: map<string, int>)
    requires Lists(listing, files)
    ensures Ordered(ByModified, Sort(ByModified, listing))
    ensures DistinctPaths(Sort(ByModified, listing))
    ensures forall f :: f in Sort(ByModified, listing) <==> f in listing
    ensures |Sort(ByModified, listing)| == |listing|
  {
    SortOrders(ByModified, listing);
    SortKeepsElements(ByModified, listing);
    SortKeepsMembers(ByModified, listing);
    DistinctAfterSort(listing, Sort(ByModified, listing), files);
  }

  lemma DistinctAfterSort(listing: seq<File>, sorted: seq<File>, files: map<string, int>)
    requires Lists(listing, files) && multiset(sorted) == multiset(listing)
    ensures DistinctPaths(sorted)
  {
    PermutationMembers(listing, sorted);
    PermutationHasNoDuplicates(listing, sorted);
    forall i, j | 0 <= i < j < |sorted| ensures sorted[i].path != sorted[j].path {
      assert sorted[i] in sorted && sorted[j] in sorted;
      assert files[sorted[i].path] == sorted[i].modified && files[sorted[j].path] == sorted[j].modified;
    }
  }

  /** The files that remain when every removal succeeds. */
  function Remaining(files: map<string, int>, listing: seq<File>, maxFiles: nat): (left: map<string, int>)
    ensures left == files - Paths(Victims(listing, maxFiles))
  {
    assert Paths(Victims(listing, maxFiles)) - {} == Paths(Victims(listing, maxFiles));
    Without(files, Victims(listing, maxFiles), {})
  }

  lemma RemainingCount(files: map<string, int>, listing: seq<File>, maxFiles: nat)
    requires Lists(listing, files)
    ensures |Remaining(files, listing, maxFiles)| == if |files| <= maxFiles then |files| else maxFiles
  {
    ListedPaths(files, listing);
    CountPaths(listing);
    assert |files| == |files.Keys| == |listing|;
    var victims := Victims(listing, maxFiles);
    SortedListing(listing, files);
    CountPaths(victims);
    forall p | p in Paths(victims) ensures p in files.Keys {
      var f :| f in victims && f.path == p;
      assert f in Sort(ByModified, listing);
    }
    assert Remaining(files, listing, maxFiles).Keys == files.Keys - Paths(victims);
  }

  lemma ListedPaths(files: map<string, int>, listing: seq<File>)
    requires Lists(listing, files)
    ensures Paths(listing) == files.Keys
  {
    forall p ensures p in Paths(listing) <==> p in files.Keys {
      if p in files {
        assert File(files[p], p) in listing;
      }
    }
  }

  lemma KeptComesLater(sorted: seq<File>, m: nat, f: File) returns (j: nat)
    requires m <= |sorted| && f in sorted && f.path !in Paths(sorted[..m])
    ensures m <= j < |sorted| && sorted[j] == f
  {
    j :| 0 <= j < |sorted| && sorted[j] == f;
  }

  lemma RemovedAreOldest(files: map<string, int>, listing: seq<File>, maxFiles: nat, removed: string, kept: string)
    requires Lists(listing, files) && removed in files && kept in files
    requires removed !in Remaining(files, listing, maxFiles) && kept in Remaining(files, listing, maxFiles)
    ensures files[removed] <= files[kept]
  {
    var sorted := Sort(ByModified, listing);
    SortedListing(listing, files);
    var victims := Victims(listing, maxFiles);
    var f :| f in victims && f.path == removed;
    var i :| 0 <= i < |victims| && victims[i] == f;
    assert sorted[i] == f && f in sorted;
    assert File(files[kept], kept) in listing;
    var j := KeptComesLater(sorted, |victims|, File(files[kept], kept));
    assert ByModified(sorted[i], sorted[j]);
  }

  lemma SomethingRemains(files: map<string, int>, listing: seq<File>, maxFiles: nat)
    requires Lists(listing, files) && maxFiles >= 1 && |files| >= 1
    ensures exists k :: k in Remaining(files, listing, maxFiles)
  {
    RemainingCount(files, listing, maxFiles);
    var keys := Remaining(files, listing, maxFiles).Keys;
    assert |keys| >= 1;
    var k :| k in keys;
  }

  /**
   If every removal succeeds, exactly the smaller of the file count and the cap
   remains, no removed file is newer than a kept one, and a strictly newest file
   survives whenever the cap is positive. Ties and listing order do not matter.
   */
  lemma EvictionKeepsNewest(files: map<string, int>, listing: seq<File>, maxFiles: nat)
    requires Lists(listing, files)
    ensures var left := Remaining(files, listing, maxFiles);
      && |left| == (if |files| <= maxFiles then |files| else maxFiles)
      && (forall r, k :: r in files && r !in left && k in left ==> files[r] <= files[k])
      && (forall p :: p in files && maxFiles >= 1 && (forall q :: q in files && q != p ==> files[q] < files[p]) ==>
           p in left)
  {
    RemainingCount(files, listing, maxFiles);
    var left := Remaining(files, listing, maxFiles);
    forall r, k | r in files && r !in left && k in left ensures files[r] <= files[k] {
      RemovedAreOldest(files, listing, maxFiles, r, k);
    }
    forall p | p in files && maxFiles >= 1 && (forall q :: q in files && q != p ==> files[q] < files[p])
      ensures p in left
    {
      assert p in files.Keys && |files.Keys| >= 1;
      SomethingRemains(files, listing, maxFiles);
      var k :| k in left;
      if p !in left {
        RemovedAreOldest(files, listing, maxFiles, p, k);
      }
    }
  }

  // ---------------------------------------------------------------------------
  // Download

  function Flatten(chunks: seq<Option<seq<Byte>>>): seq<Byte> {
    if chunks == [] then [] else
    var n := |chunks| - 1;
    Flatten(chunks[..n]) + (if chunks[n].Some? then chunks[n].value else [])
  }

  lemma {:induction false} FlattenGrows(chunks: seq<Option<seq<Byte>>>, i: nat)
    requires i <= |chunks|
    ensures |Flatten(chunks[..i])| <= |Flatten(chunks)|
    decreases |chunks| - i
  {
    if i == |chunks| {
      assert chunks[..i] == chunks;
    } else {
      assert chunks[..i + 1][..i] == chunks[..i];
      FlattenGrows(chunks, i + 1);
    }
  }

  /** A chunk of `None` is a stream error. The body comes back exactly when all of it arrived and fits. */
  method Download(chunks: seq<Option<seq<Byte>>>, maxBytes: nat) returns (body: Option<seq<Byte>>)
    ensures body.Some? <==> (forall i :: 0 <= i < |chunks| ==> chunks[i].Some?) && |Flatten(chunks)| <= maxBytes
    ensures body.Some? ==> body.value == Flatten(chunks)
  {
    var bytes: seq<Byte> := [];
    for i := 0 to |chunks|
      invariant bytes == Flatten(chunks[..i]) && |bytes| <= maxBytes
      invariant forall j :: 0 <= j < i ==> chunks[j].Some?
    {
      if chunks[i].None? {
        return None;
      }
      assert chunks[..i + 1][..i] == chunks[..i];
      if |bytes| + |chunks[i].value| > maxBytes {
        FlattenGrows(chunks, i + 1);
        return None;
      }
      bytes := bytes + chunks[i].value;
    }
    assert chunks[..|chunks|] == chunks;
    return Some(bytes);
  }
}
