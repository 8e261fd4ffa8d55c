/** The vectors a run leaves for the files it writes, entry by entry. */
module RunVectors {
  import opened Base
  import opened Text
  import opened Digests
  import opened FloatCodec
  import opened VectorStore
  import opened Extraction
  import opened CodeTables
  import opened CodeView
  import opened CodeStore
  import opened Scanning
  import opened Indexing
  import opened MetadataTheorems
  import opened SelectionTheorems
  import opened Embedder
  import opened EmbedSpec
  import opened Embedding
  import opened Running
  import opened VectorTheorems
  import opened EditTheorems

  /** The entry is the vector of this text under the model, with the digest of the two. */
  ghost predicate IsVectorOf(e: Model, x: Entry, text: string) {
    x.sha == ChunkSha(e.name, text) && x.vec == e.encode(e.name, text)
  }

  /** The i-th symbol row of the file holds the vector of the i-th symbol's text. */
  ghost predicate SymbolsEmbedded(e: Model, m: Vectors, ids: seq<Id>, syms: seq<Symbol>, content: string) {
    && |ids| == |syms|
    && forall i :: 0 <= i < |ids| ==>
         var k := VecKey(SymbolOwner, ids[i], e.name); k in m && IsVectorOf(e, m[k], ChunkText(syms[i], content))
  }

  ghost function Texts(e: Model, syms: seq<Symbol>, content: string): (r: seq<Vec>)
    ensures |r| == |syms|
    ensures forall i :: 0 <= i < |r| ==> r[i] == e.encode(e.name, ChunkText(syms[i], content))
  {
    seq(|syms|, i requires 0 <= i < |syms| => e.encode(e.name, ChunkText(syms[i], content)))
  }

  /** The file row holds the vector of the fallback text when it has no symbols, and otherwise the mean of theirs. */
  ghost predicate FileEmbedded(e: Model, m: Vectors, id: Id, syms: seq<Symbol>, q: Parsed, content: string)
    requires Dimensioned(e)
  {
    var k := VecKey(FileOwner, id, e.name);
    if syms == [] then k in m && IsVectorOf(e, m[k], FileFallbackText(q))
    else
      assert forall v :: v in Texts(e, syms, content) ==> |v| == e.dim;
      var mean := MeanOf(e.arith, Texts(e, syms, content), e.dim);
      mean.Some? && k in m && m[k].vec == mean.value && m[k].sha == VecSha(e.name, mean.value)
  }

  lemma HeldSymbols(e: Model, m: Vectors, id: Id, ids: seq<Id>, q: Parsed, syms: seq<Symbol>, content: string)
    requires Dimensioned(e) && HoldsVectors(e, m, id, Work(ids, q)) && |ids| == |syms| && q.symbols == ToRecords(syms) && q.exsyms == syms
    requires syms != [] ==> q.content == content
    ensures SymbolsEmbedded(e, m, ids, syms, content)
  {
    var wk := Work(ids, q);
    VectorsHeld(e, m, id, wk, syms);
    WorkTexts(ids, q, syms, content);
    forall i | 0 <= i < |ids| ensures var k := VecKey(SymbolOwner, ids[i], e.name); k in m && IsVectorOf(e, m[k], ChunkText(syms[i], content)) {
      assert SymKey(e, ids[i]) == VecKey(SymbolOwner, ids[i], e.name);
      assert m[SymKey(e, ids[i])] == EntryFor(e, TextAt(wk, i));
    }
  }

  lemma HeldFile(e: Model, m: Vectors, id: Id, ids: seq<Id>, q: Parsed, syms: seq<Symbol>, content: string)
    requires Dimensioned(e) && HoldsVectors(e, m, id, Work(ids, q)) && |ids| == |syms| && q.symbols == ToRecords(syms) && q.exsyms == syms
    requires syms != [] ==> q.content == content
    ensures FileEmbedded(e, m, id, syms, q, content)
  {
    var wk := Work(ids, q);
    WorkTexts(ids, q, syms, content);
    assert VectorsOf(e, wk) == Texts(e, syms, content);
    hide TextAt, ChunkText, FileFallbackText, Normalized, Averages, ToRecords;
    assert FileEntry(e, wk).Some?;
  }

  /** After a run with an embedder every file it wrote has these vectors, whatever was stored or carried. */
  lemma RunEmbeds(t: Tables, w: World, e: Model, mode: Mode, cands: seq<Candidate>, s: Stamp, mems: Memories, m: Vectors, c: Candidate)
    requires Consistent(t) && DistinctRels(cands) && Dimensioned(e) && w.embedding && c in cands
    requires Rescanned(w, c, HashesOf(t), mode == Full) && c.rel in w.tree
    ensures var t', m' := AfterRun(t, w, mode, cands, s), VectorsAfter(m, t, w, e, mode, cands, s, mems);
            && Linked(t') && HasPath(t', c.rel)
            && var id, syms := IdAt(t', c.rel), SymbolsIn(w.registry, c.rel, w.tree[c.rel]);
               && SymbolsEmbedded(e, m', SymbolIds(t', id), syms, w.tree[c.rel])
               && FileEmbedded(e, m', id, syms, Parse(w.registry, c.rel, w.tree[c.rel], c.tracked, w.pkgOf(c.rel), true), w.tree[c.rel])
  {
    hide *;
    ConsistentLinked(t);
    RewrittenRows(t, w, mode, cands, s, c);
    var t', m' := AfterRun(t, w, mode, cands, s), VectorsAfter(m, t, w, e, mode, cands, s, mems);
    var id, syms := IdAt(t', c.rel), SymbolsIn(w.registry, c.rel, w.tree[c.rel]);
    var q := Parse(w.registry, c.rel, w.tree[c.rel], c.tracked, w.pkgOf(c.rel), true);
    IdAtLive(t', c.rel);
    IdAtPath(t', c.rel);
    ParsedHere(w, cands, HashesOf(t), mode == Full, c);
    RewrittenRightWith(t, w, e, mode, cands, s, mems, m, id, c);
    ParsedSymbols(w.registry, c.rel, w.tree[c.rel], c.tracked, w.pkgOf(c.rel));
    RightIs(e, w.registry, t', m', id, w.tree[c.rel], c.tracked, w.pkgOf(c.rel));
    RowsOfGroup(t', id, q, syms);
    HeldSymbols(e, m', id, SymbolIds(t', id), q, syms, w.tree[c.rel]);
    HeldFile(e, m', id, SymbolIds(t', id), q, syms, w.tree[c.rel]);
  }

  lemma IdAtPath(t: Tables, p: Path)
    requires HasPath(t, p)
    ensures IdAt(t, p) in t.files && t.files[IdAt(t, p)].path == p
  {
  }

  lemma RightIs(e: Model, reg: Registry, t: Tables, m: Vectors, id: Id, content: string, tracked: bool, pkg: string)
    requires Dimensioned(e) && Linked(t) && id in t.files && RightWith(e, reg, t, m, id, content, tracked, pkg)
    ensures var q := Parse(reg, t.files[id].path, content, tracked, pkg, true);
            GroupAt(t, id) == GroupOf(q) && HoldsVectors(e, m, id, Work(SymbolIds(t, id), q))
  {
    hide Parse, HoldsVectors, SymbolIds, GroupAt, GroupOf, Linked, Dimensioned;
  }

  lemma ParsedHere(w: World, cands: seq<Candidate>, existing: map<Path, Digest>, full: bool, c: Candidate)
    requires DistinctRels(cands) && w.embedding && c in cands && Rescanned(w, c, existing, full) && c.rel in w.tree
    ensures c.rel in ParsedPaths(ScanAll(w, cands, existing, full, true))
    ensures ParsedAt(ScanAll(w, cands, existing, full, true), c.rel) ==
            Parse(w.registry, c.rel, w.tree[c.rel], c.tracked, w.pkgOf(c.rel), true)
  {
    var outs := ScanAll(w, cands, existing, full, true);
    var i :| 0 <= i < |cands| && cands[i] == c;
    ScannedParse(w, c, existing, full);
    assert outs[i] == ScanOne(w, c, existing, full, true);
    hide Parse, Rescanned, ScanOne;
    assert outs[i] in outs;
    var d := ParsedSource(w, cands, existing, full, c.rel);
    var j :| 0 <= j < |cands| && cands[j] == d;
    assert i == j;
  }

  /** In particular a full run leaves them for every selected file that can be indexed. */
  lemma FullRunEmbeds(t: Tables, w: World, e: Model, cands: seq<Candidate>, s: Stamp, mems: Memories, m: Vectors, c: Candidate)
    requires Consistent(t) && DistinctRels(cands) && Dimensioned(e) && w.embedding && c in cands && Indexable(w, c.rel)
    ensures var t', m' := AfterRun(t, w, Full, cands, s), VectorsAfter(m, t, w, e, Full, cands, s, mems);
            && Linked(t') && HasPath(t', c.rel)
            && var id, syms := IdAt(t', c.rel), SymbolsIn(w.registry, c.rel, w.tree[c.rel]);
               && SymbolsEmbedded(e, m', SymbolIds(t', id), syms, w.tree[c.rel])
               && FileEmbedded(e, m', id, syms, Parse(w.registry, c.rel, w.tree[c.rel], c.tracked, w.pkgOf(c.rel), true), w.tree[c.rel])
  {
    hide *;
    ConsistentLinked(t);
    IndexableReadable(w, c.rel);
    SkippedIs(w, c.rel);
    RescannedIs(w, c, HashesOf(t), true);
    RunEmbeds(t, w, e, Full, cands, s, mems, m, c);
  }

  /** A run with an embedder leaves for each memory the vector of its text; where that is blank, and for ids without a memory,
      it leaves what was there. */
  lemma RunEmbedsMemories(t: Tables, w: World, e: Model, mode: Mode, cands: seq<Candidate>, s: Stamp, mems: Memories, m: Vectors, id: Id)
    requires Consistent(t) && DistinctRels(cands) && Dimensioned(e)
    ensures var m', k := VectorsAfter(m, t, w, e, mode, cands, s, mems), VecKey(MemoryOwner, id, e.name);
            && (Embeds(mems, id) ==> k in m' && IsVectorOf(e, m'[k], MemoryText(mems[id])))
            && (!Embeds(mems, id) ==> (k in m' <==> k in m) && (k in m ==> m'[k] == m[k]))
  {
    hide *;
    ConsistentLinked(t);
    RunView(t, w, mode, cands, s);
    ConsistentLinked(AfterRun(t, w, mode, cands, s));
    var outs, gone := ScanAll(w, cands, HashesOf(t), mode == Full, true), HashesOf(t).Keys - RelSet(cands);
    var W := WorkOf(AfterRun(t, w, mode, cands, s), outs);
    VectorsAfterIs(m, t, w, e, mode, cands, s, mems, HashesOf(t), outs, gone);
    WorkDistinct(AfterRun(t, w, mode, cands, s), outs);
    FreshIs(e, W);
    MemoriesLast(e, Dropped(m, t, DropSet(mode, outs, gone)), W, mems, id);
    DroppedSameMemories(m, t, DropSet(mode, outs, gone));
    SameMemoriesAt(m, Dropped(m, t, DropSet(mode, outs, gone)), VecKey(MemoryOwner, id, e.name));
  }

  lemma SameMemoriesAt(a: Vectors, b: Vectors, k: VecKey)
    requires SameMemories(a, b) && k.owner == MemoryOwner
    ensures (k in a <==> k in b) && (k in a ==> a[k] == b[k])
  {
  }

  lemma MemoriesLast(e: Model, a: Vectors, W: WorkMap, mems: Memories, id: Id)
    requires Dimensioned(e) && IsFresh(e, W, Fresh(e, W))
    ensures var m', k := a + Fresh(e, W) + MemoryVectors(e, mems), VecKey(MemoryOwner, id, e.name);
            && (Embeds(mems, id) ==> k in m' && IsVectorOf(e, m'[k], MemoryText(mems[id])))
            && (!Embeds(mems, id) ==> (k in m' <==> k in a) && (k in a ==> m'[k] == a[k]))
  {
    hide Fresh, MemoryText, Blank, FileEntry;
    var k := VecKey(MemoryOwner, id, e.name);
    assert !IsWorkKey(e, W, k);
    assert k !in Fresh(e, W);
    assert k == MemKey(e, id);
  }
}
