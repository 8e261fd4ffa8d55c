/** The symbols a parse yields: one per (container, name), the most specific kind winning. */
module Extraction {
  import opened Sorting
  import opened Text
  import opened StringOrder
  import opened Digests

  datatype Symbol = Symbol(
    name: string, kind: string, container: string, signature: string,
    exported: bool, startLine: int, endLine: int)

  /** What an extractor's query matches give, before duplicates are collapsed. */
  datatype RawResult = RawResult(symbols: seq<Symbol>, imports: seq<string>, exports: seq<string>, todos: seq<(int, string)>)

  function KindPriority(kind: string): nat {
    match kind
    case "class" => 6
    case "interface" => 6
    case "enum" => 6
    case "method" => 5
    case "function" => 5
    case "heading" => 4
    case "type" => 3
    case "const" => 2
    case "var" => 1
    case _ => 0
  }

  function Identity(s: Symbol): string {
    s.container + [NUL] + s.name
  }

  predicate PositionLeq(a: Symbol, b: Symbol) {
    a.startLine < b.startLine || (a.startLine == b.startLine && StringLeq(a.name, b.name))
  }

  lemma PositionOrder()
    ensures TotalPreorder(PositionLeq)
  {
    StringLeqOrder();
  }

  ghost predicate DistinctIdentities(out: seq<Symbol>) {
    forall i, j :: 0 <= i < j < |out| ==> Identity(out[i]) != Identity(out[j])
  }

  /** raw[j] is the earliest of the symbols of its identity whose kind priority is maximal. */
  ghost predicate Winner(raw: seq<Symbol>, j: int)
    requires 0 <= j < |raw|
  {
    forall k :: 0 <= k < |raw| && Identity(raw[k]) == Identity(raw[j]) ==>
      && KindPriority(raw[k].kind) <= KindPriority(raw[j].kind)
      && (k < j ==> KindPriority(raw[k].kind) < KindPriority(raw[j].kind))
  }

  ghost predicate IsWinner(raw: seq<Symbol>, s: Symbol) {
    exists j :: 0 <= j < |raw| && raw[j] == s && Winner(raw, j)
  }

  ghost predicate Represented(out: seq<Symbol>, key: string) {
    exists i :: 0 <= i < |out| && Identity(out[i]) == key
  }

  /** out is the collapsed form of raw: exactly the winners, one per identity. */
  ghost predicate Collapsed(raw: seq<Symbol>, out: seq<Symbol>) {
    && DistinctIdentities(out)
    && (forall w :: w in out ==> IsWinner(raw, w))
    && (forall s :: s in raw ==> Represented(out, Identity(s)))
  }

  function Find(out: seq<Symbol>, key: string): (i: int)
    ensures -1 <= i < |out|
    ensures i >= 0 ==> Identity(out[i]) == key
    ensures i < 0 ==> forall k :: 0 <= k < |out| ==> Identity(out[k]) != key
  {
    if out == [] then -1
    else if Identity(out[|out| - 1]) == key then |out| - 1
    else Find(out[..|out| - 1], key)
  }

  function Step(out: seq<Symbol>, s: Symbol): seq<Symbol> {
    var i := Find(out, Identity(s));
    if i < 0 then out + [s]
    else if KindPriority(s.kind) > KindPriority(out[i].kind) then out[i := s]
    else out
  }

  function Collapse(raw: seq<Symbol>): seq<Symbol> {
    if raw == [] then [] else Step(Collapse(raw[..|raw| - 1]), raw[|raw| - 1])
  }

  /** The extracted symbols of a file, in the order they are written to the store. */
  function Dedupe(raw: seq<Symbol>): seq<Symbol> {
    Sort(Collapse(raw), PositionLeq)
  }

  /** Reading one more match keeps an old winner unless the new match beats it. */
  lemma WinnerSnoc(raw: seq<Symbol>, s: Symbol, w: Symbol)
    requires IsWinner(raw, w)
    requires Identity(w) == Identity(s) ==> KindPriority(s.kind) <= KindPriority(w.kind)
    ensures IsWinner(raw + [s], w)
  {
    hide Identity, KindPriority;
    var j :| 0 <= j < |raw| && raw[j] == w && Winner(raw, j);
    assert (raw + [s])[j] == w && Winner(raw + [s], j);
  }

  lemma NewWinner(raw: seq<Symbol>, s: Symbol)
    requires forall k :: 0 <= k < |raw| && Identity(raw[k]) == Identity(s) ==> KindPriority(raw[k].kind) < KindPriority(s.kind)
    ensures IsWinner(raw + [s], s)
  {
    hide Identity, KindPriority;
    assert (raw + [s])[|raw|] == s && Winner(raw + [s], |raw|);
  }

  lemma RepresentedPrefix(out: seq<Symbol>, s: Symbol, key: string)
    requires Represented(out, key) || Identity(s) == key
    ensures Represented(out + [s], key)
  {
    hide Identity;
    if Represented(out, key) {
      var i :| 0 <= i < |out| && Identity(out[i]) == key;
      assert Identity((out + [s])[i]) == key;
    } else {
      assert Identity((out + [s])[|out|]) == key;
    }
  }

  lemma CollapsedAppend(raw: seq<Symbol>, out: seq<Symbol>, s: Symbol)
    requires Collapsed(raw, out)
    requires !Represented(out, Identity(s))
    ensures Collapsed(raw + [s], out + [s])
  {
    hide Identity, KindPriority, IsWinner;
    forall k | 0 <= k < |raw| ensures Identity(raw[k]) != Identity(s) {
      assert raw[k] in raw;
    }
    NewWinner(raw, s);
    forall w | w in out + [s] ensures IsWinner(raw + [s], w) {
      if w in out {
        assert Represented(out, Identity(w));
        WinnerSnoc(raw, s, w);
      }
    }
    forall x | x in raw + [s] ensures Represented(out + [s], Identity(x)) {
      RepresentedPrefix(out, s, Identity(x));
    }
    assert DistinctIdentities(out + [s]);
  }

  lemma CollapsedReplace(raw: seq<Symbol>, out: seq<Symbol>, s: Symbol, i: int, w: Symbol)
    requires Collapsed(raw, out)
    requires 0 <= i < |out| && Identity(out[i]) == Identity(s) == Identity(w)
    requires IsWinner(raw + [s], w)
    ensures Collapsed(raw + [s], out[i := w])
  {
    hide Identity, KindPriority, IsWinner, Represented;
    var out' := out[i := w];
    forall m | 0 <= m < |out'| ensures Identity(out'[m]) == Identity(out[m]) {}
    assert DistinctIdentities(out');
    forall m | 0 <= m < |out'| ensures IsWinner(raw + [s], out'[m]) {
      if m != i {
        assert Identity(out[m]) != Identity(out[i]);
        assert out[m] in out;
        WinnerSnoc(raw, s, out[m]);
      }
    }
    forall x | x in raw + [s] ensures Represented(out', Identity(x)) {
      assert Represented(out, Identity(out[i])) by { RepresentedAt(out, i); }
      RepresentedSame(out, out', Identity(x));
    }
  }

  lemma RepresentedAt(out: seq<Symbol>, i: int)
    requires 0 <= i < |out|
    ensures Represented(out, Identity(out[i]))
  {
    hide Identity;
  }

  lemma RepresentedSame(out: seq<Symbol>, out': seq<Symbol>, key: string)
    requires |out| == |out'| && forall m :: 0 <= m < |out| ==> Identity(out'[m]) == Identity(out[m])
    requires Represented(out, key)
    ensures Represented(out', key)
  {
    hide Identity;
    var i :| 0 <= i < |out| && Identity(out[i]) == key;
    assert Identity(out'[i]) == key;
  }

  lemma StrictWinner(raw: seq<Symbol>, s: Symbol, w: Symbol)
    requires IsWinner(raw, w) && Identity(w) == Identity(s)
    requires KindPriority(s.kind) > KindPriority(w.kind)
    ensures IsWinner(raw + [s], s)
  {
    hide Identity, KindPriority;
    var j :| 0 <= j < |raw| && raw[j] == w && Winner(raw, j);
    assert (raw + [s])[|raw|] == s && Winner(raw + [s], |raw|);
  }

  lemma {:induction false} CollapseCorrect(raw: seq<Symbol>)
    ensures Collapsed(raw, Collapse(raw))
  {
    if raw != [] {
      var init, s := raw[..|raw| - 1], raw[|raw| - 1];
      CollapseCorrect(init);
      assert raw == init + [s];
      CollapsedStep(init, Collapse(init), s);
    }
  }

  lemma CollapsedStep(raw: seq<Symbol>, out: seq<Symbol>, s: Symbol)
    requires Collapsed(raw, out)
    ensures Collapsed(raw + [s], Step(out, s))
  {
    hide Identity, KindPriority, IsWinner;
    var i := Find(out, Identity(s));
    if i < 0 {
      CollapsedAppend(raw, out, s);
    } else {
      assert out[i] in out;
      if KindPriority(s.kind) > KindPriority(out[i].kind) {
        StrictWinner(raw, s, out[i]);
        CollapsedReplace(raw, out, s, i, s);
      } else {
        WinnerSnoc(raw, s, out[i]);
        CollapsedReplace(raw, out, s, i, out[i]);
        assert out == out[i := out[i]];
      }
    }
  }

  /** Two collapsed forms of the same matches hold the same symbols: the winners determine the result. */
  lemma WinnersDetermined(raw: seq<Symbol>, a: seq<Symbol>, b: seq<Symbol>, s: Symbol)
    requires Collapsed(raw, a) && Collapsed(raw, b) && s in a
    ensures s in b
  {
    hide Identity, KindPriority;
    assert IsWinner(raw, s);
    var j :| 0 <= j < |raw| && raw[j] == s && Winner(raw, j);
    assert Represented(b, Identity(s));
    var m :| 0 <= m < |b| && Identity(b[m]) == Identity(s);
    assert b[m] in b;
    var j' :| 0 <= j' < |raw| && raw[j'] == b[m] && Winner(raw, j');
    assert j == j';
  }

  lemma DistinctPermutation(a: seq<Symbol>, b: seq<Symbol>)
    requires DistinctIdentities(a) && multiset(a) == multiset(b)
    ensures DistinctIdentities(b)
  {
    forall i, j | 0 <= i < j < |b| ensures Identity(b[i]) != Identity(b[j]) {
      if Identity(b[i]) == Identity(b[j]) {
        PermutationMembers(a, b);
        assert b[i] in a && b[j] in a;
        assert b[i] == b[j];
        assert b == b[..i] + [b[i]] + b[i + 1..j] + [b[j]] + b[j + 1..];
        assert multiset(b)[b[i]] >= 2;
        CountOne(a, b[i]);
        assert false;
      }
    }
  }

  lemma {:induction false} CountOne(a: seq<Symbol>, x: Symbol)
    requires DistinctIdentities(a)
    ensures multiset(a)[x] <= 1
  {
    if a != [] {
      CountOne(a[..|a| - 1], x);
      RemoveLast(a);
      if a[|a| - 1] == x {
        assert x !in a[..|a| - 1];
        assert x !in multiset(a[..|a| - 1]);
      }
    }
  }

  /** The extractor's promise: one symbol per identity, the earliest of the best kind, ordered by (line, name). */
  lemma DedupeCorrect(raw: seq<Symbol>)
    ensures Collapsed(raw, Dedupe(raw))
    ensures Sorted(Dedupe(raw), PositionLeq)
  {
    var c, d := Collapse(raw), Dedupe(raw);
    CollapseCorrect(raw);
    hide Identity, KindPriority, IsWinner;
    PositionOrder();
    SortSorted(c, PositionLeq);
    SortPermutes(c, PositionLeq);
    PermutationMembers(c, d);
    DistinctPermutation(c, d);
    forall s | s in raw ensures Represented(d, Identity(s)) {
      assert Represented(c, Identity(s));
      var m :| 0 <= m < |c| && Identity(c[m]) == Identity(s);
      assert c[m] in d;
      var n :| 0 <= n < |d| && d[n] == c[m];
      assert Identity(d[n]) == Identity(s);
    }
  }

  /** best maps each identity to its position in out. */
  ghost predicate Indexes(best: map<string, int>, out: seq<Symbol>) {
    && (forall i :: 0 <= i < |out| ==> Identity(out[i]) in best && best[Identity(out[i])] == i)
    && (forall key :: key in best ==> 0 <= best[key] < |out| && Identity(out[best[key]]) == key)
  }

  lemma IndexFinds(best: map<string, int>, out: seq<Symbol>, key: string)
    requires Indexes(best, out)
    ensures Find(out, key) == if key in best then best[key] else -1
    ensures key in best ==> 0 <= best[key] < |out|
  {
    hide Identity;
  }

  lemma EmptyIndex()
    ensures Indexes(map[], [])
  {
  }

  lemma IndexStep(best: map<string, int>, out: seq<Symbol>, s: Symbol)
    requires Indexes(best, out)
    ensures Identity(s) in best ==> forall w :: Identity(w) == Identity(s) ==> Indexes(best, out[best[Identity(s)] := w])
    ensures Identity(s) !in best ==> Indexes(best[Identity(s) := |out|], out + [s])
  {
    hide Identity;
  }

  /** The loop with its identity index. The result is the collapsed, sorted list. */
  method DedupeSymbols(raw: seq<Symbol>) returns (symbols: seq<Symbol>)
    ensures symbols == Dedupe(raw)
  {
    hide Identity, KindPriority, Indexes;
    EmptyIndex();
    var best: map<string, int> := map[];
    var out: seq<Symbol> := [];
    var n := 0;
    while n < |raw|
      invariant 0 <= n <= |raw|
      invariant out == Collapse(raw[..n])
      invariant Indexes(best, out)
    {
      var s := raw[n];
      var key := Identity(s);
      assert raw[..n + 1][..n] == raw[..n];
      IndexFinds(best, out, key);
      IndexStep(best, out, s);
      if key in best {
        var idx := best[key];
        if KindPriority(s.kind) > KindPriority(out[idx].kind) {
          out := out[idx := s];
        }
      } else {
        best := best[key := |out|];
        out := out + [s];
      }
      n := n + 1;
    }
    assert raw[..n] == raw;
    symbols := Sort(out, PositionLeq);
  }
}
