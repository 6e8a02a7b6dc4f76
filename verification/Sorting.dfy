/**
 Stable sorting by a comparison, the shape of Rust's `sort_by_key` and Go's
 `sort.Slice` as the agent uses them, with the facts the other modules need:
 the result is ordered, it is a permutation, and two ordered permutations of
 one collection are equal when the order separates its elements.
 */
module Sorting {

  ghost predicate TotalPreorder<T(!new)>(leq: (T, T) -> bool) {
    && (forall a, b :: leq(a, b) || leq(b, a))
    && (forall a, b, c :: leq(a, b) && leq(b, c) ==> leq(a, c))
  }

  ghost predicate Ordered<T>(leq: (T, T) -> bool, s: seq<T>) {
    forall i, j :: 0 <= i < j < |s| ==> leq(s[i], s[j])
  }

  /** No two positions of `s` are equivalent under `leq`. */
  ghost predicate Separated<T>(leq: (T, T) -> bool, s: seq<T>) {
    forall i, j :: 0 <= i < j < |s| ==> !(leq(s[i], s[j]) && leq(s[j], s[i]))
  }

  function Insert<T>(leq: (T, T) -> bool, x: T, s: seq<T>): (r: seq<T>) {
    if s == [] || leq(x, s[0]) then [x] + s else [s[0]] + Insert(leq, x, s[1..])
  }

  /** Stable: an element goes in front of the later ones it is equivalent to. */
  function Sort<T>(leq: (T, T) -> bool, s: seq<T>): (r: seq<T>) {
    if s == [] then [] else Insert(leq, s[0], Sort(leq, s[1..]))
  }

  lemma {:induction false} InsertKeepsElements<T>(leq: (T, T) -> bool, x: T, s: seq<T>)
    ensures multiset(Insert(leq, x, s)) == multiset{x} + multiset(s)
  {
    if s == [] || leq(x, s[0]) {
    } else {
      InsertKeepsElements(leq, x, s[1..]);
      assert s == [s[0]] + s[1..];
    }
  }

  lemma {:induction false} SortKeepsElements<T>(leq: (T, T) -> bool, s: seq<T>)
    ensures multiset(Sort(leq, s)) == multiset(s)
    ensures |Sort(leq, s)| == |s|
  {
    if s == [] {
    } else {
      SortKeepsElements(leq, s[1..]);
      InsertKeepsElements(leq, s[0], Sort(leq, s[1..]));
      assert s == [s[0]] + s[1..];
    }
    assert |multiset(Sort(leq, s))| == |multiset(s)|;
  }

  lemma {:induction false} InsertOrders<T(!new)>(leq: (T, T) -> bool, x: T, s: seq<T>)
    requires TotalPreorder(leq) && Ordered(leq, s)
    ensures Ordered(leq, Insert(leq, x, s))
  {
    if s == [] || leq(x, s[0]) {
    } else {
      var t := Insert(leq, x, s[1..]);
      InsertOrders(leq, x, s[1..]);
      InsertKeepsElements(leq, x, s[1..]);
      forall i | 0 <= i < |t| ensures leq(s[0], t[i]) {
        assert t[i] in multiset(t);
        assert t[i] == x || t[i] in s[1..];
      }
    }
  }

  lemma {:induction false} SortOrders<T(!new)>(leq: (T, T) -> bool, s: seq<T>)
    requires TotalPreorder(leq)
    ensures Ordered(leq, Sort(leq, s))
  {
    if s == [] {
    } else {
      SortOrders(leq, s[1..]);
      InsertOrders(leq, s[0], Sort(leq, s[1..]));
    }
  }

  /** A stable sort leaves an ordered sequence alone. */
  lemma {:induction false} SortOfOrdered<T>(leq: (T, T) -> bool, s: seq<T>)
    requires Ordered(leq, s)
    ensures Sort(leq, s) == s
  {
    if s == [] {
    } else {
      SortOfOrdered(leq, s[1..]);
      assert s == [s[0]] + s[1..];
    }
  }

  lemma LeastComesFirst<T(!new)>(leq: (T, T) -> bool, s: seq<T>, t: seq<T>)
    requires TotalPreorder(leq) && Ordered(leq, s) && Ordered(leq, t) && Separated(leq, s)
    requires s != [] && t != [] && s[0] in t && t[0] in s
    ensures s[0] == t[0]
  {
    var i :| 0 <= i < |t| && t[i] == s[0];
    var j :| 0 <= j < |s| && s[j] == t[0];
    assert leq(t[0], t[i]);
    assert j == 0;
  }

  lemma TailMultiset<T>(s: seq<T>)
    requires s != []
    ensures multiset(s[1..]) == multiset(s) - multiset{s[0]}
  {
    assert s == [s[0]] + s[1..];
  }

  /** Ordered permutations of one separated collection coincide. */
  lemma {:induction false} OrderedPermutationsAgree<T(!new)>(leq: (T, T) -> bool, s: seq<T>, t: seq<T>)
    requires TotalPreorder(leq) && Ordered(leq, s) && Ordered(leq, t) && Separated(leq, s)
    requires multiset(s) == multiset(t)
    ensures s == t
  {
    assert |s| == |multiset(s)| == |multiset(t)| == |t|;
    if s == [] {
    } else {
      assert s[0] in multiset(t) && t[0] in multiset(s);
      LeastComesFirst(leq, s, t);
      TailMultiset(s);
      TailMultiset(t);
      OrderedPermutationsAgree(leq, s[1..], t[1..]);
      assert s == [s[0]] + s[1..] && t == [t[0]] + t[1..];
    }
  }

  lemma SortKeepsMembers<T>(leq: (T, T) -> bool, s: seq<T>)
    ensures forall x :: x in Sort(leq, s) <==> x in s
  {
    SortKeepsElements(leq, s);
    forall x ensures x in Sort(leq, s) <==> x in s {
      assert x in multiset(Sort(leq, s)) <==> x in multiset(s);
    }
  }

  // ---------------------------------------------------------------------------
  // Permutations

  ghost predicate NoDuplicates<T>(s: seq<T>) {
    forall i, j :: 0 <= i < j < |s| ==> s[i] != s[j]
  }

  lemma PermutationMembers<T>(s: seq<T>, t: seq<T>)
    requires multiset(s) == multiset(t)
    ensures |s| == |t|
    ensures forall x :: x in s <==> x in t
  {
    assert |multiset(s)| == |multiset(t)|;
    forall x ensures x in s <==> x in t {
      assert x in multiset(s) <==> x in multiset(t);
    }
  }

  lemma OccursOnce<T>(s: seq<T>, x: T)
    requires NoDuplicates(s)
    ensures multiset(s)[x] == if x in s then 1 else 0
  {
    if x in s {
      var i :| 0 <= i < |s| && s[i] == x;
      assert s == s[..i] + [x] + s[i + 1..];
      assert x !in s[..i] && x !in s[i + 1..];
    }
  }

  lemma OccursTwice<T>(s: seq<T>, i: nat, j: nat)
    requires i < j < |s| && s[i] == s[j]
    ensures multiset(s)[s[i]] >= 2
  {
    assert s == s[..i] + [s[i]] + s[i + 1..j] + [s[j]] + s[j + 1..];
  }

  lemma PermutationHasNoDuplicates<T>(s: seq<T>, t: seq<T>)
    requires multiset(s) == multiset(t) && NoDuplicates(s)
    ensures NoDuplicates(t)
  {
    forall i, j | 0 <= i < j < |t| ensures t[i] != t[j] {
      OccursOnce(s, t[i]);
      if t[i] == t[j] {
        OccursTwice(t, i, j);
      }
    }
  }

  lemma SameMembersSameMultiset<T>(s: seq<T>, t: seq<T>)
    requires NoDuplicates(s) && NoDuplicates(t) && forall x :: x in s <==> x in t
    ensures multiset(s) == multiset(t)
  {
    forall x ensures multiset(s)[x] == multiset(t)[x] {
      OccursOnce(s, x);
      OccursOnce(t, x);
    }
  }

  // ---------------------------------------------------------------------------
  // Enumerations of a set

  /** Every item once, in any order. */
  ghost predicate Enumerates<T>(order: seq<T>, items: set<T>) {
    (forall x :: x in order ==> x in items) && (forall x :: x in items ==> x in order) && NoDuplicates(order)
  }

  lemma {:induction false} EnumerationLength<T>(order: seq<T>, items: set<T>)
    requires Enumerates(order, items)
    ensures |order| == |items|
    decreases |order|
  {
    if order == [] {
      forall x ensures x !in items { assert x !in order; }
      assert items == {};
    } else {
      var n := |order| - 1;
      assert order == order[..n] + [order[n]];
      assert order[n] in order;
      EnumerationLength(order[..n], items - {order[n]});
    }
  }

  lemma {:induction false} CanEnumerate<T>(items: set<T>) returns (order: seq<T>)
    ensures Enumerates(order, items)
  {
    if items == {} {
      order := [];
    } else {
      var x :| x in items;
      var rest := CanEnumerate(items - {x});
      order := rest + [x];
    }
  }
}
