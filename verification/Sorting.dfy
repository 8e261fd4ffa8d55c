/** Sorting with a comparison, as Go's sort.Slice / sort.SliceStable are used. */
module Sorting {

  ghost predicate TotalPreorder<T(!new)>(leq: (T, T) -> bool) {
    && (forall x, y :: leq(x, y) || leq(y, x))
    && (forall x, y, z :: leq(x, y) && leq(y, z) ==> leq(x, z))
  }

  ghost predicate TotalOrder<T(!new)>(leq: (T, T) -> bool) {
    && TotalPreorder(leq)
    && (forall x, y :: leq(x, y) && leq(y, x) ==> x == y)
  }

  ghost predicate Sorted<T>(s: seq<T>, leq: (T, T) -> bool) {
    forall i, j :: 0 <= i < j < |s| ==> leq(s[i], s[j])
  }

  /** Puts x behind every element that is not greater: the stable choice. */
  function Insert<T>(s: seq<T>, x: T, leq: (T, T) -> bool): seq<T> {
    if s == [] then [x]
    else if leq(s[|s| - 1], x) then s + [x]
    else Insert(s[..|s| - 1], x, leq) + [s[|s| - 1]]
  }

  /** A stable sort. */
  function Sort<T>(s: seq<T>, leq: (T, T) -> bool): seq<T> {
    if s == [] then [] else Insert(Sort(s[..|s| - 1], leq), s[|s| - 1], leq)
  }

  lemma {:induction false} InsertPermutes<T>(s: seq<T>, x: T, leq: (T, T) -> bool)
    ensures multiset(Insert(s, x, leq)) == multiset(s) + multiset{x}
  {
    if s != [] && !leq(s[|s| - 1], x) {
      InsertPermutes(s[..|s| - 1], x, leq);
      assert s == s[..|s| - 1] + [s[|s| - 1]];
    }
  }

  lemma {:induction false} SortRearranges<T>(s: seq<T>, leq: (T, T) -> bool)
    ensures multiset(Sort(s, leq)) == multiset(s)
  {
    if s != [] {
      SortSnoc(s, leq);
      hide Sort, Insert;
      var init, x := s[..|s| - 1], s[|s| - 1];
      SortRearranges(init, leq);
      InsertPermutes(Sort(init, leq), x, leq);
      RemoveLast(s);
    }
  }

  lemma SortSnoc<T>(s: seq<T>, leq: (T, T) -> bool)
    requires s != []
    ensures Sort(s, leq) == Insert(Sort(s[..|s| - 1], leq), s[|s| - 1], leq)
  {
  }

  lemma SortPermutes<T>(s: seq<T>, leq: (T, T) -> bool)
    ensures multiset(Sort(s, leq)) == multiset(s)
    ensures |Sort(s, leq)| == |s|
  {
    SortRearranges(s, leq);
    hide Sort;
    assert |multiset(Sort(s, leq))| == |multiset(s)|;
  }

  lemma PermutationMembers<T>(a: seq<T>, b: seq<T>)
    requires multiset(a) == multiset(b)
    ensures |a| == |b|
    ensures forall x :: x in a <==> x in b
  {
    assert |multiset(a)| == |multiset(b)|;
    forall x ensures x in a <==> x in b {
      assert x in a <==> x in multiset(a);
      assert x in b <==> x in multiset(b);
    }
  }

  lemma {:induction false} InsertMembers<T>(s: seq<T>, x: T, leq: (T, T) -> bool)
    ensures forall i :: 0 <= i < |Insert(s, x, leq)| ==> Insert(s, x, leq)[i] in s || Insert(s, x, leq)[i] == x
  {
    if s != [] && !leq(s[|s| - 1], x) {
      InsertMembers(s[..|s| - 1], x, leq);
    }
  }

  lemma SortedSnoc<T>(s: seq<T>, x: T, leq: (T, T) -> bool)
    requires Sorted(s, leq)
    requires forall i :: 0 <= i < |s| ==> leq(s[i], x)
    ensures Sorted(s + [x], leq)
  {
  }

  lemma {:induction false} InsertSorted<T(!new)>(s: seq<T>, x: T, leq: (T, T) -> bool)
    requires TotalPreorder(leq) && Sorted(s, leq)
    ensures Sorted(Insert(s, x, leq), leq)
  {
    if s != [] {
      var init, last := s[..|s| - 1], s[|s| - 1];
      if leq(last, x) {
        SortedSnoc(s, x, leq);
      } else {
        InsertSorted(init, x, leq);
        InsertMembers(init, x, leq);
        SortedSnoc(Insert(init, x, leq), last, leq);
      }
    }
  }

  lemma {:induction false} SortSorted<T(!new)>(s: seq<T>, leq: (T, T) -> bool)
    requires TotalPreorder(leq)
    ensures Sorted(Sort(s, leq), leq)
  {
    if s != [] {
      SortSorted(s[..|s| - 1], leq);
      InsertSorted(Sort(s[..|s| - 1], leq), s[|s| - 1], leq);
    }
  }

  lemma LastIsLargest<T(!new)>(s: seq<T>, x: T, leq: (T, T) -> bool)
    requires TotalPreorder(leq) && Sorted(s, leq) && x in s
    ensures leq(x, s[|s| - 1])
  {
    var i :| 0 <= i < |s| && s[i] == x;
    assert leq(x, x);
  }

  lemma RemoveLast<T>(s: seq<T>)
    requires s != []
    ensures multiset(s[..|s| - 1]) == multiset(s) - multiset{s[|s| - 1]}
  {
    assert s == s[..|s| - 1] + [s[|s| - 1]];
  }

  lemma RemoveAt<T>(s: seq<T>, i: int)
    requires 0 <= i < |s|
    ensures multiset(s[..i] + s[i + 1..]) == multiset(s) - multiset{s[i]}
  {
    assert s == s[..i] + [s[i]] + s[i + 1..];
  }

  lemma LastsEqual<T(!new)>(a: seq<T>, b: seq<T>, leq: (T, T) -> bool)
    requires TotalOrder(leq) && Sorted(a, leq) && Sorted(b, leq)
    requires a != [] && multiset(a) == multiset(b)
    ensures b != [] && a[|a| - 1] == b[|b| - 1]
  {
    PermutationMembers(a, b);
    LastIsLargest(b, a[|a| - 1], leq);
    LastIsLargest(a, b[|b| - 1], leq);
  }

  /** Under a total order a multiset has one sorted arrangement, so any sort returns the same slice. */
  lemma {:induction false} SortedUnique<T(!new)>(a: seq<T>, b: seq<T>, leq: (T, T) -> bool)
    requires TotalOrder(leq) && Sorted(a, leq) && Sorted(b, leq)
    requires multiset(a) == multiset(b)
    ensures a == b
  {
    hide *;
    assert |a| == |b| by { PermutationMembers(a, b); }
    if a != [] {
      var n := |a| - 1;
      LastsEqual(a, b, leq);
      SortedInit(a, leq);
      SortedInit(b, leq);
      assert multiset(a[..n]) == multiset(b[..n]) by {
        RemoveLast(a);
        RemoveLast(b);
      }
      SortedUnique(a[..n], b[..n], leq);
      LastEquals(a, b);
    }
  }

  lemma LastEquals<T>(a: seq<T>, b: seq<T>)
    requires |a| == |b| > 0 && a[..|a| - 1] == b[..|b| - 1] && a[|a| - 1] == b[|b| - 1]
    ensures a == b
  {
    assert a == a[..|a| - 1] + [a[|a| - 1]];
  }

  lemma SortedInit<T>(s: seq<T>, leq: (T, T) -> bool)
    requires s != [] && Sorted(s, leq)
    ensures Sorted(s[..|s| - 1], leq)
  {
  }

  function Map<T, U>(s: seq<T>, f: T -> U): (r: seq<U>)
    ensures |r| == |s|
    ensures forall i :: 0 <= i < |s| ==> r[i] == f(s[i])
  {
    seq(|s|, i requires 0 <= i < |s| => f(s[i]))
  }

  lemma MapRemoveAt<T, U>(s: seq<T>, i: int, f: T -> U)
    requires 0 <= i < |s|
    ensures multiset(Map(s, f)) == multiset(Map(s[..i] + s[i + 1..], f)) + multiset{f(s[i])}
  {
    var rest := s[..i] + s[i + 1..];
    assert Map(s, f)[..i] + Map(s, f)[i + 1..] == Map(rest, f);
    RemoveAt(Map(s, f), i);
    assert f(s[i]) in Map(s, f) by { assert Map(s, f)[i] == f(s[i]); }
  }

  lemma {:induction false} MapPermutes<T, U>(a: seq<T>, b: seq<T>, f: T -> U)
    requires multiset(a) == multiset(b)
    ensures multiset(Map(a, f)) == multiset(Map(b, f))
    decreases |a|
  {
    hide Map;
    if a == [] {
      assert |multiset(b)| == 0;
      assert b == [];
    } else {
      var n := |a| - 1;
      var i := IndexIn(a[n], a, b);
      RemoveLast(a);
      RemoveAt(b, i);
      MapRemoveAt(a, n, f);
      MapRemoveAt(b, i, f);
      assert a[..n] + a[n + 1..] == a[..n];
      MapPermutes(a[..n], b[..i] + b[i + 1..], f);
    }
  }

  lemma IndexIn<T>(x: T, a: seq<T>, b: seq<T>) returns (i: nat)
    requires x in a && multiset(a) == multiset(b)
    ensures i < |b| && b[i] == x
  {
    PermutationMembers(a, b);
    i :| 0 <= i < |b| && b[i] == x;
  }
}
