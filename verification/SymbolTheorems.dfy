/** Which symbols of a parse are kept, over containers and names themselves. */
module SymbolTheorems {
  import opened Sorting
  import opened Text
  import opened StringOrder
  import opened Digests
  import opened Extraction

  /** The kinds from the least to the most specific; every other kind is less specific than all of them. */
  const KIND_ORDER: seq<set<string>> :=
    [{"var"}, {"const"}, {"type"}, {"heading"}, {"function", "method"}, {"class", "interface", "enum"}]

  /** b stands above a in that order. */
  ghost predicate LessSpecific(a: string, b: string) {
    exists j :: 0 <= j < |KIND_ORDER| && b in KIND_ORDER[j] && forall i :: j <= i < |KIND_ORDER| ==> a !in KIND_ORDER[i]
  }

  lemma KindRank(kind: string, j: int)
    requires 0 <= j < |KIND_ORDER|
    ensures kind in KIND_ORDER[j] <==> KindPriority(kind) == j + 1
  {
  }

  /** The priorities of the program order the kinds like that. */
  lemma KindOrder(a: string, b: string)
    ensures KindPriority(a) < KindPriority(b) <==> LessSpecific(a, b)
  {
    forall j | 0 <= j < |KIND_ORDER| ensures (a in KIND_ORDER[j] <==> KindPriority(a) == j + 1) && (b in KIND_ORDER[j] <==> KindPriority(b) == j + 1) {
      KindRank(a, j);
      KindRank(b, j);
    }
    assert 0 <= KindPriority(a) <= |KIND_ORDER| && 0 <= KindPriority(b) <= |KIND_ORDER|;
    hide KindPriority;
    if KindPriority(a) < KindPriority(b) {
      assert b in KIND_ORDER[KindPriority(b) - 1];
    }
    if LessSpecific(a, b) && KindPriority(a) > 0 {
      assert a in KIND_ORDER[KindPriority(a) - 1];
    }
  }

  /** No NUL in the containers and names. */
  ghost predicate Clean(raw: seq<Symbol>) {
    forall i :: 0 <= i < |raw| ==> NUL !in raw[i].container && NUL !in raw[i].name
  }

  ghost predicate SameSymbol(a: Symbol, b: Symbol) {
    a.container == b.container && a.name == b.name
  }

  lemma IdentityIs(a: Symbol, b: Symbol)
    requires NUL !in a.container && NUL !in b.container
    ensures Identity(a) == Identity(b) <==> SameSymbol(a, b)
  {
    if Identity(a) == Identity(b) {
      CutUnique(a.container, a.name, b.container, b.name, NUL);
    }
  }

  /** Of the matches with the same container and name: none is more specific than the j-th, and no earlier one is as
      specific. */
  ghost predicate Chosen(raw: seq<Symbol>, j: int) {
    0 <= j < |raw| && forall k :: 0 <= k < |raw| && SameSymbol(raw[k], raw[j]) ==>
      !LessSpecific(raw[j].kind, raw[k].kind) && (k < j ==> LessSpecific(raw[k].kind, raw[j].kind))
  }

  lemma WinnerIsChosen(raw: seq<Symbol>, j: int)
    requires Clean(raw) && 0 <= j < |raw| && Winner(raw, j)
    ensures Chosen(raw, j)
  {
    hide Identity, KindPriority, LessSpecific;
    forall k | 0 <= k < |raw| && SameSymbol(raw[k], raw[j])
      ensures !LessSpecific(raw[j].kind, raw[k].kind) && (k < j ==> LessSpecific(raw[k].kind, raw[j].kind))
    {
      IdentityIs(raw[k], raw[j]);
      KindOrder(raw[j].kind, raw[k].kind);
      KindOrder(raw[k].kind, raw[j].kind);
    }
  }

  /** Every container and name of the matches is kept once, by the most specific match and among those the first. */
  lemma KeptOnce(raw: seq<Symbol>, k: int)
    requires Clean(raw) && 0 <= k < |raw|
    ensures exists i, j :: 0 <= i < |Dedupe(raw)| && Chosen(raw, j) && Dedupe(raw)[i] == raw[j] && SameSymbol(raw[j], raw[k])
    ensures forall i, j :: 0 <= i < j < |Dedupe(raw)| && SameSymbol(Dedupe(raw)[i], raw[k]) ==> !SameSymbol(Dedupe(raw)[j], raw[k])
  {
    var d := Dedupe(raw);
    DedupeCorrect(raw);
    hide Identity, KindPriority, Dedupe, Winner, Chosen;
    assert raw[k] in raw;
    var i :| 0 <= i < |d| && Identity(d[i]) == Identity(raw[k]);
    assert d[i] in d;
    var j :| 0 <= j < |raw| && raw[j] == d[i] && Winner(raw, j);
    WinnerIsChosen(raw, j);
    IdentityIs(raw[j], raw[k]);
    forall a, b | 0 <= a < b < |d| && SameSymbol(d[a], raw[k]) ensures !SameSymbol(d[b], raw[k]) {
      KeptIsMatch(raw, d[a]);
      KeptIsMatch(raw, d[b]);
      IdentityIs(d[a], d[b]);
    }
  }

  lemma KeptIsMatch(raw: seq<Symbol>, s: Symbol)
    requires Clean(raw)
    ensures s in Dedupe(raw) ==> s in raw && NUL !in s.container && NUL !in s.name
  {
    DedupeCorrect(raw);
    hide Identity, KindPriority, Dedupe, Winner;
    if s in Dedupe(raw) {
      var j :| 0 <= j < |raw| && raw[j] == s && Winner(raw, j);
    }
  }

  /** What is kept is one of the matches, and stands in the order of the lines, names breaking ties. */
  lemma KeptInOrder(raw: seq<Symbol>)
    ensures forall s :: s in Dedupe(raw) ==> s in raw
    ensures forall i, j :: 0 <= i < j < |Dedupe(raw)| ==>
      var a, b := Dedupe(raw)[i], Dedupe(raw)[j];
      a.startLine < b.startLine || (a.startLine == b.startLine && StringLeq(a.name, b.name))
  {
    DedupeCorrect(raw);
    hide Identity, KindPriority, Dedupe, Winner, StringLeq;
    forall s | s in Dedupe(raw) ensures s in raw {
      var j :| 0 <= j < |raw| && raw[j] == s && Winner(raw, j);
    }
  }
}
