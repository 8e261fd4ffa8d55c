/** Row ids of `INTEGER PRIMARY KEY` tables without AUTOINCREMENT: one more than the largest live id. */
module Ids {
  import opened Base

  lemma {:induction false} MaxExists(s: set<Id>)
    requires s != {}
    ensures exists m :: m in s && forall x :: x in s ==> x <= m
    decreases |s|
  {
    var y :| y in s;
    var rest := s - {y};
    if rest == {} {
      assert s == {y};
    } else {
      MaxExists(rest);
      var m :| m in rest && forall x :: x in rest ==> x <= m;
      var top := if y <= m then m else y;
      forall x | x in s ensures x <= top {
        assert x == y || x in rest;
      }
      assert top in s;
    }
  }

  function Max(s: set<Id>): (m: Id)
    requires s != {}
    ensures m in s && forall x :: x in s ==> x <= m
  {
    MaxExists(s);
    var m :| m in s && forall x :: x in s ==> x <= m;
    m
  }

  /** The id the next INSERT receives. A deleted top id is handed out again. */
  function NextId(s: set<Id>): (n: Id)
    ensures n > 0 && n !in s
    ensures forall x :: x in s ==> x < n
    ensures if s == {} then n == 1 else n - 1 in s
  {
    if s == {} then 1 else Max(s) + 1
  }

  predicate StrictlyAscending(s: seq<Id>) {
    forall i, j :: 0 <= i < j < |s| ==> s[i] < s[j]
  }

  /** The ids of a set in ascending order: what `ORDER BY id` returns. */
  function Ascending(s: set<Id>): seq<Id>
    decreases |s|
  {
    if s == {} then [] else Ascending(s - {Max(s)}) + [Max(s)]
  }

  lemma {:induction false} AscendingMembers(s: set<Id>)
    ensures |Ascending(s)| == |s|
    ensures forall x :: x in Ascending(s) <==> x in s
    decreases |s|
  {
    if s != {} {
      var rest := s - {Max(s)};
      AscendingMembers(rest);
      assert s == rest + {Max(s)};
    }
  }

  lemma {:induction false} AscendingSorted(s: set<Id>)
    ensures StrictlyAscending(Ascending(s))
    decreases |s|
  {
    if s != {} {
      var rest := s - {Max(s)};
      AscendingSorted(rest);
      AscendingMembers(rest);
      assert forall i :: 0 <= i < |Ascending(rest)| ==> Ascending(rest)[i] in rest;
    }
  }

  /** Appending a larger id to the set appends it to the ordered read. */
  lemma {:induction false} AscendingSnoc(s: set<Id>, n: Id)
    requires forall x :: x in s ==> x < n
    ensures Ascending(s + {n}) == Ascending(s) + [n]
  {
    assert Max(s + {n}) == n;
    assert (s + {n}) - {n} == s;
  }
}
