/** What an edit of a source file sends to the embedder, line by line. */
module EditTheorems {
  import opened Base
  import opened Text
  import opened Digests
  import opened VectorStore
  import opened Extraction
  import opened CodeTables
  import opened CodeView
  import opened CodeStore
  import opened Scanning
  import opened Indexing
  import opened MetadataTheorems
  import opened Embedder
  import opened EmbedSpec
  import opened Embedding
  import opened Running
  import opened VectorTheorems
  import opened CarryTheorems
  import opened ChunkTexts

  predicate SameSignature(s: Symbol, s': Symbol) {
    s.name == s'.name && s.container == s'.container && s.signature == s'.signature
  }

  lemma EntriesApart(e: Model, text: string, text': string)
    ensures EntryFor(e, text) == EntryFor(e, text') <==> text == text'
  {
    if EntryFor(e, text) == EntryFor(e, text') {
      ChunkShaInjective(e.name, text, text');
    }
  }

  /** The file's last symbol of this identity with a stored vector has the vector of its old text. */
  ghost predicate HeldFor(t: Tables, m: Vectors, e: Model, p: Path, s: Symbol, text: string, i: nat)
    requires Linked(t)
  {
    && HasPath(t, p)
    && LastStored(e, m, t.symbols, SymbolIds(t, IdAt(t, p)), SymbolIdentity(s.name, s.container, s.signature), i)
    && m[SymKey(e, SymbolIds(t, IdAt(t, p))[i])] == EntryFor(e, text)
  }

  lemma HeldIsOnly(t: Tables, m: Vectors, e: Model, p: Path, s: Symbol, text: string, i: nat, text': string)
    requires Linked(t) && HeldFor(t, m, e, p, s, text, i)
    ensures HoldsVector(t, m, e, p, s, text') <==> text == text'
  {
    EntriesApart(e, text, text');
    hide Linked, EntryFor, SymbolIds, SymbolIdentity, StoredAs;
  }

  /** The vector of a symbol with unchanged name, container and signature is kept exactly when none of its lines changed. */
  lemma KeptExactlyWhenUnedited(t: Tables, m: Vectors, e: Model, p: Path, s: Symbol, a: seq<string>, i: nat, s': Symbol, b: seq<string>)
    requires Linked(t) && CacheSound(e.encode, m) && Dimensioned(e)
    requires SameSignature(s, s') && IsSource(a) && IsSource(b) && Spans(s, a) && Spans(s', b)
    requires HeldFor(t, m, e, p, s', ChunkText(s, SourceOf(a)), i)
    ensures HoldsVector(t, m, e, p, s', ChunkText(s', SourceOf(b))) <==> SpanOf(s, a) == SpanOf(s', b)
    ensures Carries(e, CaptureOf(t, m, e, p), s', ChunkText(s', SourceOf(b))) <==> SpanOf(s, a) == SpanOf(s', b)
  {
    hide *;
    SameParts(s, s');
    TextFollowsSpan(s, s', a, b);
    HeldIsOnly(t, m, e, p, s', ChunkText(s, SourceOf(a)), i, ChunkText(s', SourceOf(b)));
    CarriesExactly(t, m, e, p, s', ChunkText(s', SourceOf(b)));
  }

  lemma SameParts(s: Symbol, s': Symbol)
    requires SameSignature(s, s')
    ensures s.name == s'.name && s.container == s'.container && s.signature == s'.signature
  {
  }

  /** Identities tell symbols apart by name, container and signature. */
  lemma IdentityApart(s: Symbol, s': Symbol)
    requires Free([s.container, s.name, s.signature], NUL) && Free([s'.container, s'.name, s'.signature], NUL)
    ensures SymbolIdentity(s.name, s.container, s.signature) == SymbolIdentity(s'.name, s'.container, s'.signature) <==> SameSignature(s, s')
  {
    var a, b := [s.container, s.name, s.signature], [s'.container, s'.name, s'.signature];
    assert Join(a, [NUL]) == SymbolIdentity(s.name, s.container, s.signature) by { JoinThree(s.container, s.name, s.signature); }
    assert Join(b, [NUL]) == SymbolIdentity(s'.name, s'.container, s'.signature) by { JoinThree(s'.container, s'.name, s'.signature); }
    hide Join, SymbolIdentity;
    if Join(a, [NUL]) == Join(b, [NUL]) {
      JoinInjective(a, b, NUL);
      assert a[0] == b[0] && a[1] == b[1] && a[2] == b[2];
    }
  }

  lemma JoinThree(x: string, y: string, z: string)
    ensures Join([x, y, z], [NUL]) == x + [NUL] + y + [NUL] + z
  {
    assert [x, y, z][1..] == [y, z] && [y, z][1..] == [z];
    assert Join([y, z], [NUL]) == y + [NUL] + z;
    assert x + [NUL] + (y + [NUL] + z) == x + [NUL] + y + [NUL] + z;
  }

  // ---- a whole run over an edited file ----

  /** What a registered extractor reads off a source. */
  function SymbolsIn(reg: Registry, p: Path, content: string): seq<Symbol> {
    match ParseResult(reg, p, content)
    case Some(ir) => Dedupe(ir.symbols)
    case None => []
  }

  /** The j-th symbol is the only one with its name, container and signature. */
  ghost predicate OnlyOne(syms: seq<Symbol>, j: nat) {
    && j < |syms|
    && forall k :: 0 <= k < |syms| && IdentityIn(syms, k) == IdentityIn(syms, j) ==> k == j
  }

  function IdentityIn(syms: seq<Symbol>, k: int): string
    requires 0 <= k < |syms|
  {
    SymbolIdentity(syms[k].name, syms[k].container, syms[k].signature)
  }

  lemma ParsedSymbols(reg: Registry, p: Path, content: string, tracked: bool, pkg: string)
    ensures var q := Parse(reg, p, content, tracked, pkg, true);
            && q.symbols == ToRecords(SymbolsIn(reg, p, content)) && q.exsyms == SymbolsIn(reg, p, content)
            && (SymbolsIn(reg, p, content) != [] ==> q.content == content)
  {
    hide Dedupe, DeriveRole;
  }

  /** The old file's vectors are those of this content, so its symbol's vector is the vector of its old text. */
  lemma RightIsHeld(t: Tables, m: Vectors, e: Model, reg: Registry, p: Path, content: string, tracked: bool, pkg: string, j: nat)
    requires Linked(t) && Dimensioned(e) && HasPath(t, p)
    requires RightWith(e, reg, t, m, IdAt(t, p), content, tracked, pkg) && OnlyOne(SymbolsIn(reg, p, content), j)
    ensures var s := SymbolsIn(reg, p, content)[j]; HeldFor(t, m, e, p, s, ChunkText(s, content), j)
  {
    var id := IdAt(t, p);
    var ids, syms := SymbolIds(t, id), SymbolsIn(reg, p, content);
    var q := Parse(reg, p, content, tracked, pkg, true);
    ParsedSymbols(reg, p, content, tracked, pkg);
    RightRows(t, m, e, reg, p, content, tracked, pkg);
    hide Parse, SymbolsIn, RightWith, Linked, SymbolIds, ChunkText, SymbolIdentity, FileEntry;
    var key := IdentityIn(syms, j);
    forall k ensures StoredAs(e, m, t.symbols, ids, key, k) <==> k == j {
      if 0 <= k < |ids| {
        assert t.symbols[ids[k]].rec == ToRecord(syms[k]);
        assert IdentityOf(t.symbols[ids[k]].rec) == IdentityIn(syms, k);
      }
    }
    assert TextAt(Work(ids, q), j) == ChunkText(syms[j], content);
  }

  /** A symbol that the old file did not have under this name, container and signature has no vector to keep. */
  lemma NewIdentityUnheld(t: Tables, m: Vectors, e: Model, reg: Registry, p: Path, content: string, tracked: bool, pkg: string, s: Symbol, text: string)
    requires Linked(t) && Dimensioned(e) && HasPath(t, p)
    requires RightWith(e, reg, t, m, IdAt(t, p), content, tracked, pkg)
    requires forall k :: 0 <= k < |SymbolsIn(reg, p, content)| ==>
      IdentityIn(SymbolsIn(reg, p, content), k) != SymbolIdentity(s.name, s.container, s.signature)
    ensures !HoldsVector(t, m, e, p, s, text)
  {
    var ids, syms := SymbolIds(t, IdAt(t, p)), SymbolsIn(reg, p, content);
    RightRows(t, m, e, reg, p, content, tracked, pkg);
    hide SymbolsIn, RightWith, Linked, SymbolIds, SymbolIdentity, EntryFor;
    forall k ensures !StoredAs(e, m, t.symbols, ids, SymbolIdentity(s.name, s.container, s.signature), k) {
      if 0 <= k < |ids| {
        assert IdentityOf(t.symbols[ids[k]].rec) == IdentityIn(syms, k);
      }
    }
  }

  lemma RightRows(t: Tables, m: Vectors, e: Model, reg: Registry, p: Path, content: string, tracked: bool, pkg: string)
    requires Linked(t) && Dimensioned(e) && HasPath(t, p)
    requires RightWith(e, reg, t, m, IdAt(t, p), content, tracked, pkg)
    ensures var ids, syms, q := SymbolIds(t, IdAt(t, p)), SymbolsIn(reg, p, content), Parse(reg, p, content, tracked, pkg, true);
            && |ids| == |syms| && Count(Work(ids, q)) == |ids|
            && (forall k :: 0 <= k < |ids| ==> ids[k] in t.symbols && t.symbols[ids[k]].rec == ToRecord(syms[k]))
            && forall k :: 0 <= k < |ids| ==> SymKey(e, ids[k]) in m && m[SymKey(e, ids[k])] == EntryFor(e, TextAt(Work(ids, q), k))
  {
    hide *;
    var id := IdAt(t, p);
    var ids, syms, q := SymbolIds(t, id), SymbolsIn(reg, p, content), Parse(reg, p, content, tracked, pkg, true);
    ParsedSymbols(reg, p, content, tracked, pkg);
    RightParts(t, m, e, reg, p, content, tracked, pkg);
    RowsOfGroup(t, id, q, syms);
    VectorsHeld(e, m, id, Work(ids, q), syms);
  }

  lemma RightParts(t: Tables, m: Vectors, e: Model, reg: Registry, p: Path, content: string, tracked: bool, pkg: string)
    requires Linked(t) && Dimensioned(e) && HasPath(t, p)
    requires RightWith(e, reg, t, m, IdAt(t, p), content, tracked, pkg)
    ensures var q := Parse(reg, p, content, tracked, pkg, true);
            GroupAt(t, IdAt(t, p)) == GroupOf(q) && HoldsVectors(e, m, IdAt(t, p), Work(SymbolIds(t, IdAt(t, p)), q))
  {
    hide Parse, HoldsVectors, SymbolIds, GroupAt, GroupOf;
    assert t.files[IdAt(t, p)].path == p;
  }

  lemma RowsOfGroup(t: Tables, id: Id, q: Parsed, syms: seq<Symbol>)
    requires Linked(t) && id in t.files && GroupAt(t, id) == GroupOf(q) && q.symbols == ToRecords(syms)
    ensures var ids := SymbolIds(t, id);
            |ids| == |syms| && forall k :: 0 <= k < |ids| ==> ids[k] in t.symbols && t.symbols[ids[k]].rec == ToRecord(syms[k])
  {
    var ids := SymbolIds(t, id);
    hide SymbolIds, Linked, ToRecord;
    assert RecordsOf(t.symbols, ids) == q.symbols;
    forall k | 0 <= k < |ids| ensures ids[k] in t.symbols && t.symbols[ids[k]].rec == ToRecord(syms[k]) {
      assert ids[k] in ids;
      assert RecordsOf(t.symbols, ids)[k] == q.symbols[k];
    }
  }

  lemma VectorsHeld(e: Model, m: Vectors, id: Id, w: Work, syms: seq<Symbol>)
    requires Dimensioned(e) && HoldsVectors(e, m, id, w) && |w.ids| == |syms| && w.p.symbols == ToRecords(syms) && w.p.exsyms == syms
    ensures Count(w) == |w.ids|
    ensures forall k :: 0 <= k < |w.ids| ==> SymKey(e, w.ids[k]) in m && m[SymKey(e, w.ids[k])] == EntryFor(e, TextAt(w, k))
  {
    hide FileEntry, EntryFor, TextAt, ToRecords;
  }

  /** The edited file c has the rows and vectors of its old source a, and the run finds the source b. */
  ghost predicate Edited(t: Tables, m: Vectors, w: World, e: Model, cands: seq<Candidate>, c: Candidate, a: seq<string>, tracked: bool, pkg: string, b: seq<string>)
    requires Linked(t)
  {
    && DistinctRels(cands) && c in cands && w.embedding && Dimensioned(e)
    && IsSource(a) && IsSource(b) && c.rel in w.tree && w.tree[c.rel] == SourceOf(b)
    && HasPath(t, c.rel) && RightWith(e, w.registry, t, m, IdAt(t, c.rel), SourceOf(a), tracked, pkg)
  }

  /** The work of the rewritten file in the batch. */
  ghost function WorkFor(t': Tables, w: World, c: Candidate, b: seq<string>): Work
    requires Linked(t') && HasPath(t', c.rel)
  {
    Work(SymbolIds(t', IdAt(t', c.rel)), Parse(w.registry, c.rel, SourceOf(b), c.tracked, w.pkgOf(c.rel), true))
  }

  lemma RewrittenRows(t: Tables, w: World, mode: Mode, cands: seq<Candidate>, s: Stamp, c: Candidate)
    requires Consistent(t) && DistinctRels(cands) && c in cands && Rescanned(w, c, HashesOf(t), mode == Full)
    ensures var t' := AfterRun(t, w, mode, cands, s);
            && Linked(t') && HasPath(t', c.rel) && c.rel in w.tree
            && GroupAt(t', IdAt(t', c.rel)) == GroupNow(w, c)
  {
    RunView(t, w, mode, cands, s);
    ParsedViewOfScan(w, cands, HashesOf(t), mode == Full);
    var t' := AfterRun(t, w, mode, cands, s);
    hide AfterRun, ParsedView, ScanAll, HashesOf, GroupNow, Rescanned, ViewOf, FtsAgrees;
    assert ScanEntry(w, c, HashesOf(t), mode == Full, ScanView(t, w, mode, cands));
    ViewEntries(t');
  }

  lemma WorkRows(t: Tables, w: World, mode: Mode, cands: seq<Candidate>, st: Stamp, c: Candidate, b: seq<string>)
    requires Consistent(t) && DistinctRels(cands) && c in cands && Rescanned(w, c, HashesOf(t), mode == Full)
    requires c.rel in w.tree && w.tree[c.rel] == SourceOf(b)
    ensures var t', new' := AfterRun(t, w, mode, cands, st), SymbolsIn(w.registry, c.rel, SourceOf(b));
            && Linked(t') && HasPath(t', c.rel)
            && var wk := WorkFor(t', w, c, b);
               && Count(wk) == |new'| && |wk.p.symbols| == |new'|
               && forall i: nat :: i < |new'| ==> wk.p.exsyms[i] == new'[i] && TextAt(wk, i) == ChunkText(new'[i], SourceOf(b))
  {
    hide *;
    ConsistentLinked(t);
    RewrittenRows(t, w, mode, cands, st, c);
    var t' := AfterRun(t, w, mode, cands, st);
    var new' := SymbolsIn(w.registry, c.rel, SourceOf(b));
    var q := Parse(w.registry, c.rel, SourceOf(b), c.tracked, w.pkgOf(c.rel), true);
    ParsedSymbols(w.registry, c.rel, SourceOf(b), c.tracked, w.pkgOf(c.rel));
    RescannedReadable(w, c, HashesOf(t), mode == Full);
    NowIsParsed(w, c, q);
    IdAtLive(t', c.rel);
    RowsOfGroup(t', IdAt(t', c.rel), q, new');
    WorkTexts(SymbolIds(t', IdAt(t', c.rel)), q, new', SourceOf(b));
    WorkForIs(t', w, c, b);
  }

  lemma IdAtLive(t: Tables, p: Path)
    requires Linked(t) && HasPath(t, p)
    ensures IdAt(t, p) in t.files
  {
  }

  lemma NowIsParsed(w: World, c: Candidate, q: Parsed)
    requires SkipOf(w, c.rel) == NotSkipped && c.rel in w.tree
    requires q == Parse(w.registry, c.rel, w.tree[c.rel], c.tracked, w.pkgOf(c.rel), true)
    ensures GroupNow(w, c) == GroupOf(q)
  {
    ParseGroup(w.registry, c.rel, w.tree[c.rel], c.tracked, w.pkgOf(c.rel));
    hide Parse, GroupFor, GroupOf, SkipOf;
  }

  lemma WorkForIs(t': Tables, w: World, c: Candidate, b: seq<string>)
    requires Linked(t') && HasPath(t', c.rel)
    ensures WorkFor(t', w, c, b) ==
            Work(SymbolIds(t', IdAt(t', c.rel)), Parse(w.registry, c.rel, SourceOf(b), c.tracked, w.pkgOf(c.rel), true))
  {
  }

  lemma WorkTexts(ids: seq<Id>, q: Parsed, syms: seq<Symbol>, content: string)
    requires |ids| == |syms| && q.symbols == ToRecords(syms) && q.exsyms == syms && (syms != [] ==> q.content == content)
    ensures Count(Work(ids, q)) == |syms| && |q.symbols| == |syms|
    ensures forall i: nat :: i < |syms| ==> TextAt(Work(ids, q), i) == ChunkText(syms[i], content)
  {
    hide ChunkText, ToRecords;
  }

  /** The old file held the vector of the old text, so the new one is sent exactly when its lines changed. */
  lemma UnkeptWhenEdited(t: Tables, m: Vectors, w: World, e: Model, mode: Mode, cands: seq<Candidate>, c: Candidate,
                         a: seq<string>, tracked: bool, pkg: string, b: seq<string>, j: nat, wk: Work, i: nat)
    requires Linked(t) && CacheSound(e.encode, m) && Edited(t, m, w, e, cands, c, a, tracked, pkg, b)
    requires OnlyOne(SymbolsIn(w.registry, c.rel, SourceOf(a)), j)
    requires i < Count(wk) && TextAt(wk, i) == ChunkText(wk.p.exsyms[i], SourceOf(b))
    requires var s := SymbolsIn(w.registry, c.rel, SourceOf(a))[j];
             SameSignature(s, wk.p.exsyms[i]) && Spans(s, a) && Spans(wk.p.exsyms[i], b)
    ensures var s := SymbolsIn(w.registry, c.rel, SourceOf(a))[j];
            Unkept(t, m, e, mode, wk, c.rel, i) <==> mode == Full || SpanOf(s, a) != SpanOf(wk.p.exsyms[i], b)
  {
    var s, s' := SymbolsIn(w.registry, c.rel, SourceOf(a))[j], wk.p.exsyms[i];
    assert Dimensioned(e) && HasPath(t, c.rel) && IsSource(a) && IsSource(b);
    assert RightWith(e, w.registry, t, m, IdAt(t, c.rel), SourceOf(a), tracked, pkg);
    assert SymbolIdentity(s.name, s.container, s.signature) == SymbolIdentity(s'.name, s'.container, s'.signature);
    assert Unkept(t, m, e, mode, wk, c.rel, i) <==> mode == Full || !HoldsVector(t, m, e, c.rel, s', TextAt(wk, i));
    assert HeldFor(t, m, e, c.rel, s, ChunkText(s, SourceOf(a)), j) ==> HeldFor(t, m, e, c.rel, s', ChunkText(s, SourceOf(a)), j) by {
      hide LastStored, EntryFor, ChunkText, SymbolIds, Linked;
    }
    hide *;
    RightIsHeld(t, m, e, w.registry, c.rel, SourceOf(a), tracked, pkg, j);
    KeptExactlyWhenUnedited(t, m, e, c.rel, s, a, j, s', b);
  }

  /** A symbol that keeps its name, container and signature, in a file whose old vectors were right, is sent to the
      embedder by a run that rewrites the file if and only if one of its lines changed, or the run is a full one. */
  lemma EditedSymbolSent(t: Tables, m: Vectors, w: World, e: Model, mode: Mode, cands: seq<Candidate>, st: Stamp, c: Candidate,
                         a: seq<string>, tracked: bool, pkg: string, b: seq<string>, j: nat, i: nat)
    requires Consistent(t) && Linked(t) && CacheSound(e.encode, m) && Edited(t, m, w, e, cands, c, a, tracked, pkg, b)
    requires Rescanned(w, c, HashesOf(t), mode == Full)
    requires OnlyOne(SymbolsIn(w.registry, c.rel, SourceOf(a)), j) && i < |SymbolsIn(w.registry, c.rel, SourceOf(b))|
    requires var s, s' := SymbolsIn(w.registry, c.rel, SourceOf(a))[j], SymbolsIn(w.registry, c.rel, SourceOf(b))[i];
             SameSignature(s, s') && Spans(s, a) && Spans(s', b)
    ensures var t' := AfterRun(t, w, mode, cands, st);
            Linked(t') && HasPath(t', c.rel) && i < Count(WorkFor(t', w, c, b))
    ensures var s, s' := SymbolsIn(w.registry, c.rel, SourceOf(a))[j], SymbolsIn(w.registry, c.rel, SourceOf(b))[i];
            var edited := mode == Full || SpanOf(s, a) != SpanOf(s', b);
            && (Unkept(t, m, e, mode, WorkFor(AfterRun(t, w, mode, cands, st), w, c, b), c.rel, i) <==> edited)
            && (edited ==> ChunkText(s', SourceOf(b)) in RunSent(m, t, w, e, mode, cands, st))
  {
    var s, s' := SymbolsIn(w.registry, c.rel, SourceOf(a))[j], SymbolsIn(w.registry, c.rel, SourceOf(b))[i];
    assert DistinctRels(cands) && c in cands && w.embedding && Dimensioned(e) && c.rel in w.tree && w.tree[c.rel] == SourceOf(b);
    hide *;
    WorkRows(t, w, mode, cands, st, c, b);
    var t' := AfterRun(t, w, mode, cands, st);
    var wk := WorkFor(t', w, c, b);
    UnkeptWhenEdited(t, m, w, e, mode, cands, c, a, tracked, pkg, b, j, wk, i);
    if Unkept(t, m, e, mode, wk, c.rel, i) {
      UnkeptIsSent(t, m, w, e, mode, cands, st, c, b, i);
    }
  }

  lemma UnkeptIsSent(t: Tables, m: Vectors, w: World, e: Model, mode: Mode, cands: seq<Candidate>, st: Stamp, c: Candidate, b: seq<string>, i: nat)
    requires Consistent(t) && Linked(t) && CacheSound(e.encode, m) && Dimensioned(e) && DistinctRels(cands) && c in cands && w.embedding
    requires Rescanned(w, c, HashesOf(t), mode == Full) && c.rel in w.tree && w.tree[c.rel] == SourceOf(b)
    requires Linked(AfterRun(t, w, mode, cands, st)) && HasPath(AfterRun(t, w, mode, cands, st), c.rel)
    requires var wk := WorkFor(AfterRun(t, w, mode, cands, st), w, c, b);
             i < Count(wk) && |wk.p.symbols| > 0 && Unkept(t, m, e, mode, wk, c.rel, i)
    ensures TextAt(WorkFor(AfterRun(t, w, mode, cands, st), w, c, b), i) in RunSent(m, t, w, e, mode, cands, st)
  {
    var t' := AfterRun(t, w, mode, cands, st);
    var wk := WorkFor(t', w, c, b);
    var outs := ScanAll(w, cands, HashesOf(t), mode == Full, true);
    var k :| 0 <= k < |cands| && cands[k] == c;
    ScannedParse(w, c, HashesOf(t), mode == Full);
    assert outs[k] == ScanOne(w, c, HashesOf(t), mode == Full, true);
    WorkForIs(t', w, c, b);
    hide AfterRun, ScanAll, HashesOf, Linked, Rescanned, CacheSound, Dimensioned, ScanOne, Parse, WorkFor, Unkept, TextAt, SymbolIds;
    hide RunSent;
    assert UnkeptText(t, m, e, mode, wk, c.rel, TextAt(wk, i));
    assert RunSends(t, t', m, e, mode, outs[k], TextAt(wk, i));
    SentExactly(m, t, w, e, mode, cands, st, TextAt(wk, i));
    assert SendsSome(t, t', m, e, mode, outs, TextAt(wk, i));
  }

  lemma ScannedParse(w: World, c: Candidate, existing: map<Path, Digest>, full: bool)
    requires Rescanned(w, c, existing, full) && w.embedding && c.rel in w.tree
    ensures var o := ScanOne(w, c, existing, full, true);
            && o.rel == c.rel
            && o.parsed == Some(Parse(w.registry, c.rel, w.tree[c.rel], c.tracked, w.pkgOf(c.rel), true))
  {
    hide Parse;
  }
}
