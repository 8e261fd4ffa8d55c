/** Lists without repetitions. */
module Lists {
  predicate Distinct<T(==)>(s: seq<T>) {
    forall i, j :: 0 <= i < j < |s| ==> s[i] != s[j]
  }

  /** First occurrences, in order. */
  function Dedupe<T(==)>(s: seq<T>): seq<T> {
    if s == [] then []
    else
      var d := Dedupe(s[..|s| - 1]);
      if s[|s| - 1] in d then d else d + [s[|s| - 1]]
  }

  lemma {:induction false} DedupeIs<T>(s: seq<T>)
    ensures Distinct(Dedupe(s)) && |Dedupe(s)| <= |s|
    ensures forall x :: x in Dedupe(s) <==> x in s
    ensures Dedupe(s) == s <==> Distinct(s)
    ensures |Dedupe(s)| == |s| <==> Distinct(s)
  {
    if s != [] {
      var init, x := s[..|s| - 1], s[|s| - 1];
      DedupeIs(init);
      assert s == init + [x];
      if x in Dedupe(init) {
        var i :| 0 <= i < |init| && init[i] == x;
        assert s[i] == s[|s| - 1];
      }
      assert Distinct(s) ==> Distinct(init);
    }
  }

  lemma DedupeMultiset<T>(s: seq<T>)
    ensures multiset(Dedupe(s)) == multiset(s) <==> Distinct(s)
  {
    DedupeIs(s);
    if multiset(Dedupe(s)) == multiset(s) {
      assert |multiset(Dedupe(s))| == |multiset(s)|;
    }
  }

  lemma {:induction false} DistinctCount<T>(r: seq<T>, x: T)
    requires Distinct(r)
    ensures multiset(r)[x] <= 1
  {
    if r != [] {
      var init, y := r[..|r| - 1], r[|r| - 1];
      DistinctCount(init, x);
      assert r == init + [y];
      assert y !in init;
    }
  }

  lemma RepeatedCount<T>(s: seq<T>, i: int, j: int)
    requires 0 <= i < j < |s| && s[i] == s[j]
    ensures multiset(s)[s[i]] >= 2
  {
    assert s == s[..i] + [s[i]] + s[i + 1..j] + [s[j]] + s[j + 1..];
  }

  /** A rearrangement of a list without repetitions has none. */
  lemma DistinctPermutes<T>(r: seq<T>, s: seq<T>)
    requires Distinct(r) && multiset(r) == multiset(s)
    ensures Distinct(s)
  {
    forall i, j | 0 <= i < j < |s| ensures s[i] != s[j] {
      DistinctCount(r, s[i]);
      if s[i] == s[j] {
        RepeatedCount(s, i, j);
      }
    }
  }

  /** Lists without repetitions and with the same members are rearrangements of each other. */
  lemma DistinctSameMembers<T>(a: seq<T>, b: seq<T>)
    requires Distinct(a) && Distinct(b) && forall x :: x in a <==> x in b
    ensures multiset(a) == multiset(b)
  {
    forall x ensures multiset(a)[x] == multiset(b)[x] {
      DistinctCount(a, x);
      DistinctCount(b, x);
      assert x in a <==> x in multiset(a);
      assert x in b <==> x in multiset(b);
    }
  }

  lemma {:induction false} DistinctSize<T>(s: seq<T>)
    ensures |set x | x in s| <= |s|
    ensures |set x | x in s| == |s| <==> Distinct(s)
  {
    if s != [] {
      var init, y := s[..|s| - 1], s[|s| - 1];
      DistinctSize(init);
      assert s == init + [y];
      assert (set x | x in s) == (set x | x in init) + {y};
      assert y in init <==> exists i :: 0 <= i < |init| && s[i] == y;
    }
  }
}
