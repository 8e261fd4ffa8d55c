/** Child tables: rows with their own INTEGER PRIMARY KEY that belong to an owner and are read back ORDER BY id. */
module RowTables {
  import opened Base
  import opened Ids
  import opened Lists

  datatype Owned<+T> = Owned(owner: Id, value: T)

  type Table<T> = map<Id, Owned<T>>

  function InOrder<T>(t: Table<T>): seq<Owned<T>> {
    AscendingMembers(t.Keys);
    seq(|Ascending(t.Keys)|, i requires 0 <= i < |Ascending(t.Keys)| => assert Ascending(t.Keys)[i] in Ascending(t.Keys); t[Ascending(t.Keys)[i]])
  }

  function ValuesOf<T>(rows: seq<Owned<T>>, o: Id): seq<T> {
    if rows == [] then []
    else ValuesOf(rows[..|rows| - 1], o) + if rows[|rows| - 1].owner == o then [rows[|rows| - 1].value] else []
  }

  /** SELECT ... WHERE owner = o ORDER BY id. */
  function ListedBy<T>(t: Table<T>, o: Id): seq<T> {
    ValuesOf(InOrder(t), o)
  }

  /** INSERT of one row. */
  function Append<T>(t: Table<T>, o: Id, x: T): Table<T> {
    t[NextId(t.Keys) := Owned(o, x)]
  }

  /** DELETE of an owner's rows that satisfy a condition. */
  function Without<T>(t: Table<T>, o: Id, gone: T -> bool): Table<T> {
    map r | r in t && !Goes(t[r], o, gone) :: t[r]
  }

  predicate Goes<T>(row: Owned<T>, o: Id, gone: T -> bool) {
    row.owner == o && gone(row.value)
  }

  /** ON DELETE CASCADE. */
  function Disown<T>(t: Table<T>, o: Id): Table<T> {
    map r | r in t && t[r].owner != o :: t[r]
  }

  function Drop<T>(s: seq<T>, gone: T -> bool): seq<T> {
    if s == [] then [] else Drop(s[..|s| - 1], gone) + if gone(s[|s| - 1]) then [] else [s[|s| - 1]]
  }

  lemma InOrderSnoc<T>(t: Table<T>, n: Id, row: Owned<T>)
    requires forall r :: r in t ==> r < n
    ensures InOrder(t[n := row]) == InOrder(t) + [row]
  {
    var t' := t[n := row];
    assert t'.Keys == t.Keys + {n};
    AscendingSnoc(t.Keys, n);
    AscendingMembers(t.Keys);
    AscendingMembers(t'.Keys);
    hide Ascending;
    forall i | 0 <= i < |Ascending(t.Keys)| ensures InOrder(t')[i] == InOrder(t)[i] {
      assert Ascending(t'.Keys)[i] == Ascending(t.Keys)[i];
      assert Ascending(t.Keys)[i] in Ascending(t.Keys);
    }
  }

  lemma ValuesSnoc<T>(rows: seq<Owned<T>>, row: Owned<T>, o: Id)
    ensures ValuesOf(rows + [row], o) == if row.owner == o then ValuesOf(rows, o) + [row.value] else ValuesOf(rows, o)
  {
    assert (rows + [row])[..|rows|] == rows;
  }

  lemma ListedSnoc<T>(t: Table<T>, n: Id, row: Owned<T>, o: Id)
    requires forall r :: r in t ==> r < n
    ensures ListedBy(t[n := row], o) == if row.owner == o then ListedBy(t, o) + [row.value] else ListedBy(t, o)
  {
    InOrderSnoc(t, n, row);
    ValuesSnoc(InOrder(t), row, o);
  }

  /** A new row is read last by its owner and not at all by the others, whatever ids were freed before. */
  lemma AppendListed<T>(t: Table<T>, o: Id, x: T, p: Id)
    ensures ListedBy(Append(t, o, x), p) == if p == o then ListedBy(t, p) + [x] else ListedBy(t, p)
  {
    ListedSnoc(t, NextId(t.Keys), Owned(o, x), p);
  }

  lemma DropSnoc<T>(s: seq<T>, x: T, gone: T -> bool)
    ensures Drop(s + [x], gone) == if gone(x) then Drop(s, gone) else Drop(s, gone) + [x]
  {
    assert (s + [x])[..|s|] == s;
  }

  lemma WithoutSnoc<T>(t: Table<T>, n: Id, row: Owned<T>, o: Id, gone: T -> bool)
    requires forall r :: r in t ==> r < n
    ensures Without(t[n := row], o, gone) == if Goes(row, o, gone) then Without(t, o, gone) else Without(t, o, gone)[n := row]
    ensures forall r :: r in Without(t, o, gone) ==> r < n
  {
  }

  lemma EmptyListed<T>(o: Id)
    ensures ListedBy<T>(map[], o) == []
  {
  }

  lemma SplitMax<T>(t: Table<T>) returns (rest: Table<T>, n: Id, row: Owned<T>)
    requires t != map[]
    ensures n in t && row == t[n] && rest == t - {n} && t == rest[n := row]
    ensures n !in rest && |rest| < |t| && forall r :: r in rest ==> r < n
  {
    assert t.Keys != {};
    n := Max(t.Keys);
    row := t[n];
    rest := t - {n};
    assert t.Keys == rest.Keys + {n};
    assert |t.Keys| == |t| && |rest.Keys| == |rest|;
  }

  /** Deleting an owner's rows removes exactly their values from its list, keeps the order, and touches no other owner. */
  lemma {:induction false} WithoutListed<T>(t: Table<T>, o: Id, gone: T -> bool, p: Id)
    ensures ListedBy(Without(t, o, gone), p) == if p == o then Drop(ListedBy(t, p), gone) else ListedBy(t, p)
    decreases |t|
  {
    if t == map[] {
      assert Without(t, o, gone) == map[];
      EmptyListed<T>(p);
    } else {
      var rest, n, row := SplitMax(t);
      WithoutListed(rest, o, gone, p);
      WithoutSnoc(rest, n, row, o, gone);
      hide InOrder, ValuesOf, ListedBy, Without, Drop;
      ListedSnoc(rest, n, row, p);
      DropSnoc(ListedBy(rest, p), row.value, gone);
      if !Goes(row, o, gone) {
        ListedSnoc(Without(rest, o, gone), n, row, p);
      }
    }
  }

  function Everything<T>(): T -> bool {
    x => true
  }

  lemma DisownIsWithout<T>(t: Table<T>, o: Id)
    ensures Disown(t, o) == Without(t, o, Everything<T>())
  {
  }

  /** A cascade leaves every other owner's list alone. */
  lemma DisownListed<T>(t: Table<T>, o: Id, p: Id)
    requires p != o
    ensures ListedBy(Disown(t, o), p) == ListedBy(t, p)
  {
    DisownIsWithout(t, o);
    WithoutListed(t, o, Everything<T>(), p);
  }

  lemma {:induction false} ListedMembers<T>(t: Table<T>, o: Id, x: T)
    ensures x in ListedBy(t, o) <==> exists r :: r in t && t[r] == Owned(o, x)
    decreases |t|
  {
    if t == map[] {
      EmptyListed<T>(o);
    } else {
      var rest, n, row := SplitMax(t);
      ListedMembers(rest, o, x);
      InOrderSnoc(rest, n, row);
      ValuesSnoc(InOrder(rest), row, o);
      hide InOrder, ValuesOf;
      if r :| r in rest && rest[r] == Owned(o, x) {
        assert r in t && t[r] == Owned(o, x);
      }
      if row == Owned(o, x) {
        assert n in t && t[n] == Owned(o, x);
      }
    }
  }

  lemma {:induction false} DropMembers<T>(s: seq<T>, gone: T -> bool, x: T)
    ensures x in Drop(s, gone) <==> x in s && !gone(x)
  {
    if s != [] {
      DropMembers(s[..|s| - 1], gone, x);
      assert s == s[..|s| - 1] + [s[|s| - 1]];
    }
  }

  // ---- loops of inserts ----

  function AppendAll<T>(t: Table<T>, o: Id, xs: seq<T>): Table<T> {
    if xs == [] then t else Append(AppendAll(t, o, xs[..|xs| - 1]), o, xs[|xs| - 1])
  }

  lemma ConcatLast<T>(a: seq<T>, xs: seq<T>)
    requires xs != []
    ensures a + xs == a + xs[..|xs| - 1] + [xs[|xs| - 1]]
  {
  }

  lemma {:induction false} AppendAllListed<T>(t: Table<T>, o: Id, xs: seq<T>, p: Id)
    ensures ListedBy(AppendAll(t, o, xs), p) == if p == o then ListedBy(t, p) + xs else ListedBy(t, p)
  {
    if xs == [] {
      assert AppendAll(t, o, xs) == t;
      hide *;
      assert ListedBy(t, p) + xs == ListedBy(t, p);
    } else {
      var init, x := xs[..|xs| - 1], xs[|xs| - 1];
      assert AppendAll(t, o, xs) == Append(AppendAll(t, o, init), o, x);
      hide *;
      AppendAllListed(t, o, init, p);
      AppendListed(AppendAll(t, o, init), o, x, p);
      ConcatLast(ListedBy(t, p), xs);
    }
  }

  ghost predicate OwnedIn<T>(t: Table<T>, owners: set<Id>) {
    forall r :: r in t ==> t[r].owner in owners
  }

  lemma {:induction false} AppendAllOwned<T>(t: Table<T>, o: Id, xs: seq<T>, owners: set<Id>)
    requires OwnedIn(t, owners) && o in owners
    ensures OwnedIn(AppendAll(t, o, xs), owners)
  {
    if xs != [] {
      AppendAllOwned(t, o, xs[..|xs| - 1], owners);
    }
  }

  /** A table nobody owns a row of lists nothing. */
  lemma UnownedEmpty<T>(t: Table<T>, owners: set<Id>, o: Id)
    requires OwnedIn(t, owners) && o !in owners
    ensures ListedBy(t, o) == []
  {
    if ListedBy(t, o) != [] {
      ListedMembers(t, o, ListedBy(t, o)[0]);
    }
  }

  predicate HasRow<T(==)>(t: Table<T>, row: Owned<T>) {
    exists r :: r in t && t[r] == row
  }

  /** INSERT OR IGNORE under UNIQUE (owner, value). */
  function InsertIgnore<T(==)>(t: Table<T>, o: Id, x: T): Table<T> {
    if HasRow(t, Owned(o, x)) then t else Append(t, o, x)
  }

  function InsertIgnoreAll<T(==)>(t: Table<T>, o: Id, xs: seq<T>): Table<T> {
    if xs == [] then t else InsertIgnore(InsertIgnoreAll(t, o, xs[..|xs| - 1]), o, xs[|xs| - 1])
  }

  /** Adds what is not there yet, at the end. */
  function Unite<T(==)>(s: seq<T>, xs: seq<T>): seq<T> {
    if xs == [] then s
    else
      var u := Unite(s, xs[..|xs| - 1]);
      if xs[|xs| - 1] in u then u else u + [xs[|xs| - 1]]
  }

  lemma {:induction false} UniteEmpty<T>(xs: seq<T>)
    ensures Unite([], xs) == Dedupe(xs)
  {
    if xs != [] {
      UniteEmpty(xs[..|xs| - 1]);
    }
  }

  lemma {:induction false} UniteMembers<T>(s: seq<T>, xs: seq<T>, x: T)
    requires Distinct(s)
    ensures Distinct(Unite(s, xs)) && (x in Unite(s, xs) <==> x in s || x in xs)
  {
    if xs != [] {
      UniteMembers(s, xs[..|xs| - 1], x);
      assert xs == xs[..|xs| - 1] + [xs[|xs| - 1]];
    }
  }

  lemma {:induction false} InsertIgnoreAllListed<T>(t: Table<T>, o: Id, xs: seq<T>, p: Id)
    ensures ListedBy(InsertIgnoreAll(t, o, xs), p) == if p == o then Unite(ListedBy(t, o), xs) else ListedBy(t, p)
  {
    if xs != [] {
      var init, x := xs[..|xs| - 1], xs[|xs| - 1];
      InsertIgnoreAllListed(t, o, init, p);
      InsertIgnoreAllListed(t, o, init, o);
      AppendListed(InsertIgnoreAll(t, o, init), o, x, p);
      ListedMembers(InsertIgnoreAll(t, o, init), o, x);
      hide ListedBy, Append;
    }
  }

  ghost predicate UniqueRows<T>(t: Table<T>) {
    forall r, q :: r in t && q in t && t[r] == t[q] ==> r == q
  }

  lemma {:induction false} InsertIgnoreAllKeeps<T>(t: Table<T>, o: Id, xs: seq<T>, owners: set<Id>)
    requires OwnedIn(t, owners) && o in owners && UniqueRows(t)
    ensures OwnedIn(InsertIgnoreAll(t, o, xs), owners) && UniqueRows(InsertIgnoreAll(t, o, xs))
  {
    if xs != [] {
      InsertIgnoreAllKeeps(t, o, xs[..|xs| - 1], owners);
    }
  }

  lemma WithoutKeeps<T>(t: Table<T>, o: Id, gone: T -> bool, owners: set<Id>)
    requires OwnedIn(t, owners)
    ensures OwnedIn(Without(t, o, gone), owners)
    ensures UniqueRows(t) ==> UniqueRows(Without(t, o, gone))
  {
  }
}
