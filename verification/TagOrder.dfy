/** The tags of a memory, read back ORDER BY tag. */
module TagOrder {
  import opened Sorting
  import opened Text
  import opened StringOrder
  import opened Lists

  lemma {:induction false} FirstExists(s: set<string>)
    requires s != {}
    ensures exists m :: m in s && forall x :: x in s ==> StringLeq(m, x)
    decreases |s|
  {
    StringLeqOrder();
    var y :| y in s;
    var rest := s - {y};
    if rest == {} {
      assert s == {y};
    } else {
      FirstExists(rest);
      var m :| m in rest && forall x :: x in rest ==> StringLeq(m, x);
      assert s == rest + {y};
      assert (if StringLeq(m, y) then m else y) in s;
    }
  }

  function First(s: set<string>): (m: string)
    requires s != {}
    ensures m in s && forall x :: x in s ==> StringLeq(m, x)
  {
    FirstExists(s);
    StringLeqOrder();
    var m :| m in s && forall x :: x in s ==> StringLeq(m, x);
    m
  }

  function SortedTags(s: set<string>): seq<string>
    decreases |s|
  {
    if s == {} then [] else [First(s)] + SortedTags(s - {First(s)})
  }

  lemma {:induction false} SortedTagsIs(s: set<string>)
    ensures Sorted(SortedTags(s), StringLeq) && Distinct(SortedTags(s))
    ensures forall x :: x in SortedTags(s) <==> x in s
    decreases |s|
  {
    if s != {} {
      var m, rest := First(s), s - {First(s)};
      assert SortedTags(s) == [m] + SortedTags(rest);
      assert s == rest + {m};
      SortedTagsIs(rest);
      hide SortedTags, First, StringLeq;
      SortedCons(m, SortedTags(rest));
    }
  }

  lemma SortedCons(m: string, t: seq<string>)
    requires Sorted(t, StringLeq) && Distinct(t) && forall x :: x in t ==> StringLeq(m, x) && x != m
    ensures Sorted([m] + t, StringLeq) && Distinct([m] + t)
    ensures forall x :: x in [m] + t <==> x == m || x in t
  {
    hide StringLeq;
    assert forall i :: 0 <= i < |t| ==> t[i] in t;
  }

  function Members(s: seq<string>): set<string> {
    set x | x in s
  }

  lemma {:induction false} DistinctMultiset(s: seq<string>)
    requires Distinct(s)
    ensures multiset(s) == multiset(Members(s))
  {
    if s != [] {
      var init, x := s[..|s| - 1], s[|s| - 1];
      DistinctMultiset(init);
      assert s == init + [x];
      assert x !in init;
      assert Members(s) == Members(init) + {x};
    } else {
      assert Members(s) == {};
    }
  }

  /** What the store reads back are the distinct tags, sorted. */
  lemma StoredTags(tags: seq<string>)
    ensures Members(SortedTags(Members(tags))) == Members(tags)
    ensures multiset(SortedTags(Members(tags))) == multiset(tags) <==> Distinct(tags)
    ensures Distinct(tags) ==> SortedTags(Members(tags)) == SortStrings(tags)
  {
    var r := SortedTags(Members(tags));
    SortedTagsIs(Members(tags));
    DistinctMultiset(r);
    assert Members(r) == Members(tags);
    if Distinct(tags) {
      DistinctMultiset(tags);
      StringLeqOrder();
      SortPermutes(tags, StringLeq);
      SortSorted(tags, StringLeq);
      SortedUnique(r, SortStrings(tags), StringLeq);
    }
    if multiset(r) == multiset(tags) {
      DistinctPermutes(r, tags);
    }
  }
}
