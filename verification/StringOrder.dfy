/** Facts that join the string order to the sorting module. */
module StringOrder {
  import opened Sorting
  import opened Text

  lemma StringLeqOrder()
    ensures TotalOrder(StringLeq)
  {
    forall a, b ensures StringLeq(a, b) || StringLeq(b, a) {
      StringLeqTotal(a, b);
    }
    forall a, b | StringLeq(a, b) && StringLeq(b, a) ensures a == b {
      StringLeqTotal(a, b);
    }
    forall a, b, c | StringLeq(a, b) && StringLeq(b, c) ensures StringLeq(a, c) {
      StringLeqTransitive(a, b, c);
    }
  }

  /** The strings first differ at i, and a has the smaller character there. */
  ghost predicate DiffersAt(a: string, b: string, i: int) {
    0 <= i < |a| && i < |b| && a[..i] == b[..i] && a[i] < b[i]
  }

  /** The order is the lexicographic one: a is a prefix of b, or smaller where they first differ. */
  lemma {:induction false} StringLeqIs(a: string, b: string)
    ensures StringLeq(a, b) <==> a <= b || exists i :: DiffersAt(a, b, i)
  {
    if a != "" && b != "" {
      var c, d := a[1..], b[1..];
      assert a == [a[0]] + c && b == [b[0]] + d;
      if a[0] == b[0] {
        StringLeqIs(c, d);
        assert a <= b <==> c <= d;
        if i :| DiffersAt(c, d, i) {
          assert a[..i + 1] == [a[0]] + c[..i] && b[..i + 1] == [b[0]] + d[..i];
          assert DiffersAt(a, b, i + 1);
        }
        if i :| DiffersAt(a, b, i) {
          assert i > 0 && c[..i - 1] == a[..i][1..] && d[..i - 1] == b[..i][1..];
          assert DiffersAt(c, d, i - 1);
        }
      } else {
        assert !(a <= b);
        if a[0] < b[0] {
          assert DiffersAt(a, b, 0);
        }
        forall i ensures DiffersAt(a, b, i) ==> i == 0 {
          StartsSame(a, b, i);
        }
      }
    }
  }

  lemma StartsSame(a: string, b: string, i: int)
    ensures DiffersAt(a, b, i) && i > 0 ==> a[0] == b[0]
  {
    if DiffersAt(a, b, i) && i > 0 {
      assert a[..i][0] == a[0] && b[..i][0] == b[0];
    }
  }

  function SortStrings(s: seq<string>): seq<string> {
    Sort(s, StringLeq)
  }

  /** Sorting strings forgets the order and nothing else. */
  lemma SortStringsCanonical(a: seq<string>, b: seq<string>)
    ensures SortStrings(a) == SortStrings(b) <==> multiset(a) == multiset(b)
  {
    StringLeqOrder();
    SortPermutes(a, StringLeq);
    SortPermutes(b, StringLeq);
    SortSorted(a, StringLeq);
    SortSorted(b, StringLeq);
    if multiset(a) == multiset(b) {
      SortedUnique(SortStrings(a), SortStrings(b), StringLeq);
    }
  }
}
