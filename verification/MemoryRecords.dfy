/** Export records and the content hash that import deduplicates by. */
module MemoryRecords {
  import opened Base
  import opened Sorting
  import opened Text
  import opened StringOrder
  import opened Digests
  import opened Decimal
  import opened MemoryText
  import opened Lists
  import opened TagOrder
  import opened MemoryTables

  /** One memory of an export document: its formatted id and what was read back. */
  datatype Record = Record(id: string, m: Memory)

  datatype Doc = Doc(schemaVersion: int, memories: seq<Record>)

  function EvidenceKey(e: Evidence): string {
    e.path + ":" + RangeText(e.start, e.end)
  }

  function LinkKey(l: Link): string {
    l.kind + ":" + l.ref
  }

  function Parts(m: Memory): seq<string> {
    [m.row.kind, m.row.title, m.row.body,
     Join(SortStrings(m.tags), ","),
     Join(SortStrings(Map(m.evidence, EvidenceKey)), ","),
     Join(SortStrings(Map(m.links, LinkKey)), ",")]
  }

  /** The canonical string leaves out the id, the timestamps and the evidence's blob ids. */
  function Canonical(m: Memory): string {
    Join(Parts(m), [NUL])
  }

  function RecordHash(m: Memory): Digest {
    Sha256(Canonical(m))
  }

  /** recordHash as it runs: copies, formatted keys, three sorts, one join. */
  method HashRecord(r: Record) returns (h: Digest)
    ensures h == RecordHash(r.m)
  {
    hide RangeText, Sort, Join;
    var tags := SortStrings(r.m.tags);
    var evid: seq<string> := [];
    var i := 0;
    while i < |r.m.evidence|
      invariant 0 <= i <= |r.m.evidence|
      invariant evid == Map(r.m.evidence[..i], EvidenceKey)
    {
      evid := evid + [EvidenceKey(r.m.evidence[i])];
      i := i + 1;
    }
    assert r.m.evidence[..i] == r.m.evidence;
    var links: seq<string> := [];
    i := 0;
    while i < |r.m.links|
      invariant 0 <= i <= |r.m.links|
      invariant links == Map(r.m.links[..i], LinkKey)
    {
      links := links + [LinkKey(r.m.links[i])];
      i := i + 1;
    }
    assert r.m.links[..i] == r.m.links;
    h := Sha256(Join([r.m.row.kind, r.m.row.title, r.m.row.body,
      Join(tags, ","), Join(SortStrings(evid), ","), Join(SortStrings(links), ",")], [NUL]));
  }

  // ---- what equal hashes mean ----

  ghost predicate Without2(s: string, c: char, d: char) {
    c !in s && d !in s
  }

  ghost predicate TagFree(tag: string) {
    tag != "" && Without2(tag, ',', NUL)
  }

  ghost predicate LinkFree(l: Link) {
    ':' !in l.kind && Without2(l.kind, ',', NUL) && Without2(l.ref, ',', NUL)
  }

  /** No field holds the separators that the canonical string puts around it, and no tag is empty. */
  ghost predicate DelimiterFree(m: Memory) {
    && NUL !in m.row.kind && NUL !in m.row.title && NUL !in m.row.body
    && (forall i :: 0 <= i < |m.tags| ==> TagFree(m.tags[i]))
    && (forall i :: 0 <= i < |m.evidence| ==> Without2(m.evidence[i].path, ',', NUL))
    && (forall i :: 0 <= i < |m.links| ==> LinkFree(m.links[i]))
  }

  function Anchor(e: Evidence): (string, int, int) {
    (e.path, e.start, e.end)
  }

  /** Equal up to the order of tags, evidence and links. */
  ghost predicate SameContent(a: Memory, b: Memory) {
    && a.row.kind == b.row.kind && a.row.title == b.row.title && a.row.body == b.row.body
    && multiset(a.tags) == multiset(b.tags)
    && multiset(Map(a.evidence, Anchor)) == multiset(Map(b.evidence, Anchor))
    && multiset(a.links) == multiset(b.links)
  }

  lemma LinkKeyInjective(a: Link, b: Link)
    requires LinkFree(a) && LinkFree(b) && LinkKey(a) == LinkKey(b)
    ensures a == b
  {
    CutUnique(a.kind, a.ref, b.kind, b.ref, ':');
  }

  lemma DigitsRange(m: nat, e: int, n: nat, e': int)
    requires Digits(m) + "-" + FormatInt(e) == Digits(n) + "-" + FormatInt(e')
    ensures m == n && e == e'
  {
    DigitsFree(m, '-');
    DigitsFree(n, '-');
    DigitsValue(m);
    DigitsValue(n);
    hide Digits, FormatInt, ValueOf;
    CutUnique(Digits(m), FormatInt(e), Digits(n), FormatInt(e'), '-');
    FormatIntInjective(e, e');
  }

  lemma RangeTextSign(s: int, e: int)
    ensures RangeText(s, e) != "" && (RangeText(s, e)[0] == '-' <==> s < 0)
    ensures s < 0 ==> RangeText(s, e)[1..] == Digits(-s) + "-" + FormatInt(e)
    ensures s >= 0 ==> RangeText(s, e) == Digits(s) + "-" + FormatInt(e)
  {
    FormatIntSign(s);
    hide Digits;
  }

  lemma RangeTextInjective(s: int, e: int, s': int, e': int)
    requires RangeText(s, e) == RangeText(s', e')
    ensures s == s' && e == e'
  {
    hide *;
    RangeTextSign(s, e);
    RangeTextSign(s', e');
    if s < 0 {
      DigitsRange(-s, e, -s', e');
    } else {
      DigitsRange(s, e, s', e');
    }
  }

  /** The key names the anchor, whatever colons the path has. */
  lemma EvidenceKeyInjective(a: Evidence, b: Evidence)
    requires EvidenceKey(a) == EvidenceKey(b)
    ensures Anchor(a) == Anchor(b)
  {
    RangeTextFree(a.start, a.end, ':');
    RangeTextFree(b.start, b.end, ':');
    LastCutUnique(a.path, RangeText(a.start, a.end), b.path, RangeText(b.start, b.end), ':');
    RangeTextInjective(a.start, a.end, b.start, b.end);
  }

  ghost predicate Separates<T(!new), U(!new), V(!new)>(f: T -> U, g: T -> V, a: seq<T>, b: seq<T>) {
    forall x, y :: x in a && y in b && f(x) == f(y) ==> g(x) == g(y)
  }

  /** A map that tells the elements apart as finely as another tells multisets apart as finely. */
  lemma {:induction false} SeparateMultisets<T(!new), U(!new), V(!new)>(a: seq<T>, b: seq<T>, f: T -> U, g: T -> V)
    requires Separates(f, g, a, b) && multiset(Map(a, f)) == multiset(Map(b, f))
    ensures multiset(Map(a, g)) == multiset(Map(b, g))
    decreases |a|
  {
    PermutationMembers(Map(a, f), Map(b, f));
    if a != [] {
      assert Map(a, f)[0] in Map(a, f);
      var i :| 0 <= i < |b| && Map(b, f)[i] == f(a[0]);
      assert a[0] in a && b[i] in b;
      var a', b' := a[..0] + a[1..], b[..i] + b[i + 1..];
      MapRemoveAt(a, 0, f);
      MapRemoveAt(b, i, f);
      assert multiset(Map(a', f)) == multiset(Map(a, f)) - multiset{f(a[0])};
      assert multiset(Map(b', f)) == multiset(Map(b, f)) - multiset{f(a[0])};
      SeparateMultisets(a', b', f, g);
      MapRemoveAt(a, 0, g);
      MapRemoveAt(b, i, g);
    }
  }

  lemma LinksDetermined(a: seq<Link>, b: seq<Link>)
    requires forall i :: 0 <= i < |a| ==> LinkFree(a[i])
    requires forall i :: 0 <= i < |b| ==> LinkFree(b[i])
    requires multiset(Map(a, LinkKey)) == multiset(Map(b, LinkKey))
    ensures multiset(a) == multiset(b)
  {
    var same := (l: Link) => l;
    forall x, y | x in a && y in b && LinkKey(x) == LinkKey(y) ensures same(x) == same(y) {
      LinkKeyInjective(x, y);
    }
    SeparateMultisets(a, b, LinkKey, same);
    assert Map(a, same) == a && Map(b, same) == b;
  }

  lemma EvidenceDetermined(a: seq<Evidence>, b: seq<Evidence>)
    ensures multiset(Map(a, EvidenceKey)) == multiset(Map(b, EvidenceKey)) <==> multiset(Map(a, Anchor)) == multiset(Map(b, Anchor))
  {
    hide EvidenceKey;
    forall x, y | x in a && y in b && EvidenceKey(x) == EvidenceKey(y) ensures Anchor(x) == Anchor(y) {
      EvidenceKeyInjective(x, y);
    }
    forall x, y | x in a && y in b && Anchor(x) == Anchor(y) ensures EvidenceKey(x) == EvidenceKey(y) {
      AnchorGivesKey(x, y);
    }
    if multiset(Map(a, EvidenceKey)) == multiset(Map(b, EvidenceKey)) {
      SeparateMultisets(a, b, EvidenceKey, Anchor);
    }
    if multiset(Map(a, Anchor)) == multiset(Map(b, Anchor)) {
      SeparateMultisets(a, b, Anchor, EvidenceKey);
    }
  }

  lemma AnchorGivesKey(x: Evidence, y: Evidence)
    requires Anchor(x) == Anchor(y)
    ensures EvidenceKey(x) == EvidenceKey(y)
  {
  }

  ghost predicate Proper(parts: seq<string>) {
    forall i :: 0 <= i < |parts| ==> parts[i] != "" && Without2(parts[i], ',', NUL)
  }

  lemma JoinEmpty(parts: seq<string>)
    requires Proper(parts) && Join(parts, ",") == ""
    ensures parts == []
  {
  }

  /** Comma lists of non-empty, comma-free parts, the empty list included. */
  lemma ListInjective(a: seq<string>, b: seq<string>)
    requires Proper(a) && Proper(b) && Join(a, ",") == Join(b, ",")
    ensures a == b
  {
    if a == [] || b == [] {
      JoinEmpty(a + b);
      assert a + b == (if a == [] then b else a);
    } else {
      JoinInjective(a, b, ',');
    }
  }

  lemma SortedProper(s: seq<string>)
    requires Proper(s)
    ensures Proper(SortStrings(s))
  {
    SortPermutes(s, StringLeq);
    PermutationMembers(SortStrings(s), s);
    forall i | 0 <= i < |SortStrings(s)| ensures SortStrings(s)[i] != "" && Without2(SortStrings(s)[i], ',', NUL) {
      assert SortStrings(s)[i] in SortStrings(s);
      var j :| 0 <= j < |s| && s[j] == SortStrings(s)[i];
    }
  }

  /** The sorted comma list of proper strings determines their multiset, and mentions no NUL. */
  lemma SortedListDetermined(a: seq<string>, b: seq<string>)
    requires Proper(a) && Proper(b)
    ensures Join(SortStrings(a), ",") == Join(SortStrings(b), ",") <==> multiset(a) == multiset(b)
    ensures NUL !in Join(SortStrings(a), ",")
  {
    SortedProper(a);
    SortedProper(b);
    SortStringsCanonical(a, b);
    JoinMentions(SortStrings(a), ",", NUL);
    if Join(SortStrings(a), ",") == Join(SortStrings(b), ",") {
      ListInjective(SortStrings(a), SortStrings(b));
    }
  }

  lemma EvidenceProper(s: seq<Evidence>)
    requires forall i :: 0 <= i < |s| ==> Without2(s[i].path, ',', NUL)
    ensures Proper(Map(s, EvidenceKey))
  {
    forall i | 0 <= i < |s| ensures EvidenceKey(s[i]) != "" && Without2(EvidenceKey(s[i]), ',', NUL) {
      RangeTextFree(s[i].start, s[i].end, ',');
      RangeTextFree(s[i].start, s[i].end, NUL);
      hide RangeText;
    }
  }

  lemma LinksProper(s: seq<Link>)
    requires forall i :: 0 <= i < |s| ==> LinkFree(s[i])
    ensures Proper(Map(s, LinkKey))
  {
  }

  ghost predicate EqualParts(a: Memory, b: Memory) {
    && a.row.kind == b.row.kind && a.row.title == b.row.title && a.row.body == b.row.body
    && Join(SortStrings(a.tags), ",") == Join(SortStrings(b.tags), ",")
    && Join(SortStrings(Map(a.evidence, EvidenceKey)), ",") == Join(SortStrings(Map(b.evidence, EvidenceKey)), ",")
    && Join(SortStrings(Map(a.links, LinkKey)), ",") == Join(SortStrings(Map(b.links, LinkKey)), ",")
  }

  lemma PartsFree(m: Memory)
    requires DelimiterFree(m)
    ensures Free(Parts(m), NUL)
  {
    EvidenceProper(m.evidence);
    LinksProper(m.links);
    assert Proper(m.tags);
    hide EvidenceKey, LinkKey, SortStrings, Join;
    SortedListDetermined(m.tags, m.tags);
    SortedListDetermined(Map(m.evidence, EvidenceKey), Map(m.evidence, EvidenceKey));
    SortedListDetermined(Map(m.links, LinkKey), Map(m.links, LinkKey));
  }

  lemma CanonicalParts(a: Memory, b: Memory)
    requires DelimiterFree(a) && DelimiterFree(b)
    ensures Canonical(a) == Canonical(b) <==> EqualParts(a, b)
  {
    PartsFree(a);
    PartsFree(b);
    hide EvidenceKey, LinkKey, SortStrings, Join, DelimiterFree, Free;
    if Canonical(a) == Canonical(b) {
      JoinInjective(Parts(a), Parts(b), NUL);
      assert forall i :: 0 <= i < 6 ==> Parts(a)[i] == Parts(b)[i];
    }
    if EqualParts(a, b) {
      assert Parts(a) == Parts(b);
    }
  }

  /** Between delimiter-free memories, equal hashes mean equal content and nothing less. */
  lemma HashDecidesContent(a: Memory, b: Memory)
    requires DelimiterFree(a) && DelimiterFree(b)
    ensures RecordHash(a) == RecordHash(b) <==> SameContent(a, b)
  {
    hide *;
    CanonicalParts(a, b);
    FreeParts(a);
    FreeParts(b);
    SortedListDetermined(a.tags, b.tags);
    SortedListDetermined(Map(a.evidence, EvidenceKey), Map(b.evidence, EvidenceKey));
    SortedListDetermined(Map(a.links, LinkKey), Map(b.links, LinkKey));
    EvidenceDetermined(a.evidence, b.evidence);
    LinkKeysDetermine(a.links, b.links);
    ContentIs(a, b);
  }

  lemma FreeParts(m: Memory)
    requires DelimiterFree(m)
    ensures Proper(m.tags) && Proper(Map(m.evidence, EvidenceKey)) && Proper(Map(m.links, LinkKey))
    ensures forall i :: 0 <= i < |m.links| ==> LinkFree(m.links[i])
  {
    EvidenceProper(m.evidence);
    LinksProper(m.links);
    hide EvidenceKey, LinkKey;
  }

  /** Equal hashes and equal content, spelt out. */
  lemma ContentIs(a: Memory, b: Memory)
    ensures RecordHash(a) == RecordHash(b) <==> Canonical(a) == Canonical(b)
    ensures SameContent(a, b) <==>
      && a.row.kind == b.row.kind && a.row.title == b.row.title && a.row.body == b.row.body
      && multiset(a.tags) == multiset(b.tags)
      && multiset(Map(a.evidence, Anchor)) == multiset(Map(b.evidence, Anchor))
      && multiset(a.links) == multiset(b.links)
    ensures EqualParts(a, b) <==>
      && a.row.kind == b.row.kind && a.row.title == b.row.title && a.row.body == b.row.body
      && Join(SortStrings(a.tags), ",") == Join(SortStrings(b.tags), ",")
      && Join(SortStrings(Map(a.evidence, EvidenceKey)), ",") == Join(SortStrings(Map(b.evidence, EvidenceKey)), ",")
      && Join(SortStrings(Map(a.links, LinkKey)), ",") == Join(SortStrings(Map(b.links, LinkKey)), ",")
  {
    hide Canonical, Join, SortStrings, Anchor, EvidenceKey, LinkKey;
  }

  lemma LinkKeysDetermine(a: seq<Link>, b: seq<Link>)
    requires (forall i :: 0 <= i < |a| ==> LinkFree(a[i])) && (forall i :: 0 <= i < |b| ==> LinkFree(b[i]))
    ensures multiset(Map(a, LinkKey)) == multiset(Map(b, LinkKey)) <==> multiset(a) == multiset(b)
  {
    hide *;
    if multiset(Map(a, LinkKey)) == multiset(Map(b, LinkKey)) {
      LinksDetermined(a, b);
    }
    if multiset(a) == multiset(b) {
      MapPermutes(a, b, LinkKey);
    }
  }

  /** With the separator inside a tag the hash no longer tells contents apart. */
  lemma CommaInTagCollides() returns (a: Memory, b: Memory)
    ensures RecordHash(a) == RecordHash(b) && !SameContent(a, b)
  {
    var row := Row("adr", "t", "", "", "");
    a := Memory(row, ["a,b"], [], []);
    b := Memory(row, ["a", "b"], [], []);
    assert SortStrings(["a,b"]) == ["a,b"] by { assert Sort([], StringLeq) == []; assert ["a,b"][..0] == []; }
    assert SortStrings(["a", "b"]) == ["a", "b"] by {
      assert ["a", "b"][..1] == ["a"] && ["a"][..0] == [];
      assert Sort(["a"], StringLeq) == ["a"];
      assert Insert(["a"], "b", StringLeq) == ["a", "b"];
    }
    assert Join(["a", "b"], ",") == "a,b";
    assert Map([], EvidenceKey) == [] && Map([], LinkKey) == [];
    assert Parts(a) == Parts(b);
    assert "a" in multiset(["a", "b"]) && "a" !in multiset(["a,b"]);
  }

  // ---- stored memories ----

  ghost predicate DistinctLists(m: Memory) {
    Distinct(m.tags) && Distinct(m.links)
  }

  /** A memory written to the store and read back keeps its content exactly when its tags and links do not repeat. */
  lemma ReadBackContent(m: Memory)
    ensures SameContent(ReadBack(m), m) <==> DistinctLists(m)
  {
    StoredTags(m.tags);
    DedupeMultiset(m.links);
  }

  /** ... and then it keeps its hash, separators or not. */
  lemma ReadBackHash(m: Memory)
    requires DistinctLists(m)
    ensures RecordHash(ReadBack(m)) == RecordHash(m)
  {
    StoredTags(m.tags);
    DedupeIs(m.links);
    hide SortedTags, Members, Dedupe, Map, SortStrings;
    assert multiset(ReadBack(m).tags) == multiset(m.tags);
    SortStringsCanonical(ReadBack(m).tags, m.tags);
  }

  lemma ReadBackFree(m: Memory)
    requires DelimiterFree(m)
    ensures DelimiterFree(ReadBack(m))
  {
    var r := ReadBack(m);
    SortedTagsIs(Members(m.tags));
    DedupeIs(m.links);
    hide SortedTags, Dedupe;
    forall i | 0 <= i < |r.tags| ensures TagFree(r.tags[i]) {
      assert r.tags[i] in r.tags;
      assert r.tags[i] in m.tags;
      var j :| 0 <= j < |m.tags| && m.tags[j] == r.tags[i];
    }
    forall i | 0 <= i < |r.links| ensures LinkFree(r.links[i]) {
      assert r.links[i] in r.links;
      assert r.links[i] in m.links;
      var j :| 0 <= j < |m.links| && m.links[j] == r.links[i];
    }
  }
}
