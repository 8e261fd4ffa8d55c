/** What completed runs guarantee about vectors: right values, right owners, and agreement with a rebuild. */
module VectorTheorems {
  import opened Base
  import opened Ids
  import opened Digests
  import opened FloatCodec
  import opened VectorStore
  import opened Extraction
  import opened CodeTables
  import opened CodeView
  import opened CodeStore
  import opened Scanning
  import opened Indexing
  import opened GraphRefresh
  import opened MetadataTheorems
  import opened Embedder
  import opened EmbedSpec
  import opened Embedding
  import opened Running

  // ---- which rows a run keeps ----

  function PutPaths(outs: seq<Outcome>): set<Path> {
    set o | o in outs && o.parsed.Some? :: o.parsed.value.record.path
  }

  /** Outside these paths, u has the row of id exactly when t has it, with the same symbol rows. */
  ghost predicate RowKept(t: Tables, u: Tables, paths: set<Path>, id: Id) {
    && (id in u.files && u.files[id].path !in paths ==> id in t.files && SameFile(t, u, id))
    && (id in t.files && t.files[id].path !in paths ==> id in u.files && u.files[id] == t.files[id])
  }

  lemma PutRow(t: Tables, u: Tables, p: Parsed, paths: set<Path>, id: Id)
    requires Consistent(u) && RowKept(t, u, paths, id)
    ensures RowKept(t, Put(u, p), paths + {p.record.path}, id)
  {
    PutFileWritten(u, p.record, p.symbols, p.derived);
    if id in u.files && u.files[id].path != p.record.path {
      PutFileKeeps(u, p.record, p.symbols, p.derived, id);
    }
    hide PutFile, Linked, FtsAgrees, DeletePath, GroupAt, PutId;
  }

  lemma PutPathsSnoc(outs: seq<Outcome>)
    requires outs != []
    ensures var init, last := outs[..|outs| - 1], outs[|outs| - 1];
            PutPaths(outs) == PutPaths(init) + if last.parsed.Some? then {last.parsed.value.record.path} else {}
  {
    assert outs == outs[..|outs| - 1] + [outs[|outs| - 1]];
  }

  lemma {:induction false} PutAllRows(t: Tables, outs: seq<Outcome>, id: Id)
    requires Consistent(t)
    ensures RowKept(t, PutAll(t, outs), PutPaths(outs), id)
  {
    if outs != [] {
      var init, last := outs[..|outs| - 1], outs[|outs| - 1];
      hide Consistent, PutPaths, RowKept, Put, ViewOf;
      PutAllRows(t, init, id);
      PutAllView(t, init);
      PutPathsSnoc(outs);
      match last.parsed
      case Some(p) => PutRow(t, PutAll(t, init), p, PutPaths(init), id);
      case None => assert PutPaths(outs) == PutPaths(init);
    }
  }

  lemma PreparedRow(t: Tables, mode: Mode, gone: set<Path>, id: Id)
    requires Linked(t)
    ensures var u := Prepared(t, mode, gone);
            && (id in u.files ==> mode != Full && id in t.files && SameFile(t, u, id) && (mode == Incremental ==> t.files[id].path !in gone))
            && (mode != Full && id in t.files && (mode == Incremental ==> t.files[id].path !in gone) ==> id in u.files && u.files[id] == t.files[id])
  {
  }

  lemma PutPathsAreParsed(w: World, cands: seq<Candidate>, existing: map<Path, Digest>, full: bool)
    ensures PutPaths(ScanAll(w, cands, existing, full, true)) == ParsedPaths(ScanAll(w, cands, existing, full, true))
  {
    var outs := ScanAll(w, cands, existing, full, true);
    forall o | o in outs && o.parsed.Some? ensures o.parsed.value.record.path == o.rel {
      var i :| 0 <= i < |outs| && outs[i] == o;
      ScanOneParses(w, cands[i], existing, full);
    }
    hide ScanAll;
  }

  /** Only the files of these paths change rows in a run; every other file keeps its row ids. */
  ghost predicate Kept(t: Tables, w: World, mode: Mode, cands: seq<Candidate>, id: Id)
    requires Linked(t)
  {
    var outs := ScanAll(w, cands, HashesOf(t), mode == Full, true);
    && mode != Full
    && id in t.files && t.files[id].path !in ParsedPaths(outs)
    && (mode == Incremental ==> t.files[id].path in RelSet(cands))
  }

  lemma GraphKeepsRows(t: Tables, s: Stamp, id: Id)
    requires id in t.files && id in t.derived
    ensures SameFile(t, WithGraph(Stamped(t, s)), id)
  {
  }

  lemma SameFileTransitive(t: Tables, u: Tables, v: Tables, id: Id)
    requires SameFile(t, u, id) && SameFile(u, v, id)
    ensures SameFile(t, v, id)
  {
  }

  /** After a run a file row is either that of a parsed path, or a kept row of the old state. */
  lemma RunRows(t: Tables, w: World, mode: Mode, cands: seq<Candidate>, s: Stamp, id: Id)
    requires Consistent(t) && DistinctRels(cands)
    ensures var t' := AfterRun(t, w, mode, cands, s);
            var parsed := ParsedPaths(ScanAll(w, cands, HashesOf(t), mode == Full, true));
            && Linked(t')
            && (id in t'.files && t'.files[id].path !in parsed ==> Kept(t, w, mode, cands, id))
            && (Kept(t, w, mode, cands, id) ==> id in t'.files && SameFile(t, t', id))
  {
    var existing := HashesOf(t);
    assert existing.Keys == ViewOf(t).Keys;
    var outs := ScanAll(w, cands, existing, mode == Full, true);
    var gone := existing.Keys - RelSet(cands);
    var u := Prepared(t, mode, gone);
    var v := PutAll(u, outs);
    RunView(t, w, mode, cands, s);
    AfterRunIs(t, w, mode, cands, s, existing, outs, gone);
    if id in t.files {
      ViewAt(t, id);
    }
    PreparedRow(t, mode, gone, id);
    PreparedView(t, mode, gone);
    PutAllRows(u, outs, id);
    PutPathsAreParsed(w, cands, existing, mode == Full);
    PutAllView(u, outs);
    assert v.derived.Keys == v.files.Keys;
    hide Linked, FtsAgrees, Prepared, PutAll, ScanAll, HashesOf, AfterRun, ViewOf, PutPaths, SameFile;
    var t' := AfterRun(t, w, mode, cands, s);
    assert t' == WithGraph(Stamped(v, s)) && t'.files == v.files;
    RunRowsGlue(t, u, v, t', s, PutPaths(outs), id);
  }

  lemma RunRowsGlue(t: Tables, u: Tables, v: Tables, t': Tables, s: Stamp, paths: set<Path>, id: Id)
    requires t' == WithGraph(Stamped(v, s)) && RowKept(u, v, paths, id) && v.derived.Keys == v.files.Keys
    requires id in u.files ==> id in t.files && SameFile(t, u, id)
    ensures id in t'.files && t'.files[id].path !in paths ==> id in u.files
    ensures id in u.files && u.files[id].path !in paths ==> id in t'.files && SameFile(t, t', id)
  {
    if id in u.files && u.files[id].path !in paths {
      GraphKeepsRows(v, s, id);
      SameFileTransitive(t, u, v, id);
      SameFileTransitive(t, v, t', id);
    }
  }

  // ---- right vectors ----

  /** The layer holds this file's symbol vectors and file vector, as embedding its texts gives them. */
  ghost predicate HoldsVectors(e: Model, m: Vectors, id: Id, w: Work)
    requires Dimensioned(e)
  {
    && (|w.p.symbols| > 0 ==> forall i :: 0 <= i < Count(w) ==>
          SymKey(e, w.ids[i]) in m && m[SymKey(e, w.ids[i])] == EntryFor(e, TextAt(w, i)))
    && (FileEntry(e, w).Some? ==> FileKey(e, id) in m && m[FileKey(e, id)] == FileEntry(e, w).value)
  }

  /** The rows of id are the parse of some content, and its vectors are those of that content. */
  ghost predicate RightWith(e: Model, reg: Registry, t: Tables, m: Vectors, id: Id, content: string, tracked: bool, pkg: string)
    requires Dimensioned(e) && Linked(t) && id in t.files
  {
    var p := Parse(reg, t.files[id].path, content, tracked, pkg, true);
    GroupAt(t, id) == GroupOf(p) && HoldsVectors(e, m, id, Work(SymbolIds(t, id), p))
  }

  ghost predicate RightAt(e: Model, reg: Registry, t: Tables, m: Vectors, id: Id)
    requires Dimensioned(e) && Linked(t) && id in t.files
  {
    exists content, tracked, pkg :: RightWith(e, reg, t, m, id, content, tracked, pkg)
  }

  /** Every symbol and file has its right vector under the model. */
  ghost predicate Right(e: Model, reg: Registry, t: Tables, m: Vectors)
    requires Dimensioned(e) && Linked(t)
  {
    forall id :: id in t.files ==> RightAt(e, reg, t, m, id)
  }

  /** The keys of one file's vectors under the model. */
  ghost predicate KeyOf(e: Model, t: Tables, id: Id, k: VecKey) {
    k == FileKey(e, id) || (k.owner == SymbolOwner && k.model == e.name && k.id in SymbolIds(t, id))
  }

  lemma HoldsSame(e: Model, t: Tables, m: Vectors, m': Vectors, id: Id, p: Parsed)
    requires Dimensioned(e)
    requires forall k :: KeyOf(e, t, id, k) ==> (k in m <==> k in m') && (k in m ==> m[k] == m'[k])
    ensures HoldsVectors(e, m, id, Work(SymbolIds(t, id), p)) <==> HoldsVectors(e, m', id, Work(SymbolIds(t, id), p))
  {
    var w := Work(SymbolIds(t, id), p);
    forall i | 0 <= i < Count(w) ensures KeyOf(e, t, id, SymKey(e, w.ids[i])) {
      assert w.ids[i] in SymbolIds(t, id);
    }
    hide FileEntry, EntryFor, TextAt, SymbolIds;
  }

  /** A kept file's vectors are neither dropped nor overwritten: no key of it belongs to a dropped or rewritten file. */
  lemma KeptVectors(t: Tables, w: World, e: Model, mode: Mode, cands: seq<Candidate>, s: Stamp, mems: Memories, m: Vectors, id: Id, k: VecKey)
    requires Consistent(t) && DistinctRels(cands) && Dimensioned(e) && Kept(t, w, mode, cands, id) && KeyOf(e, t, id, k)
    ensures var m' := VectorsAfter(m, t, w, e, mode, cands, s, mems);
            (k in m' <==> k in m) && (k in m ==> m'[k] == m[k])
  {
    var t' := AfterRun(t, w, mode, cands, s);
    var existing := HashesOf(t);
    var outs := ScanAll(w, cands, existing, mode == Full, true);
    var gone := existing.Keys - RelSet(cands);
    RunRows(t, w, mode, cands, s, id);
    RunView(t, w, mode, cands, s);
    WorkDistinct(t', outs);
    FreshIs(e, WorkOf(t', outs));
    NotDropped(t, mode, outs, gone, e, id, k);
    SameGroup(t, t', id);
    NotFresh(t', outs, e, id, k);
    hide Linked, FtsAgrees, AfterRun, ScanAll, HashesOf, Dimensioned, Kept, SameFile, SymbolIds, WorkOf, Fresh, DistinctIds, ViewOf;
    assert k.owner != MemoryOwner;
    assert k !in MemoryVectors(e, mems);
  }

  lemma NotDropped(t: Tables, mode: Mode, outs: seq<Outcome>, gone: set<Path>, e: Model, id: Id, k: VecKey)
    requires Linked(t) && id in t.files && KeyOf(e, t, id, k)
    requires t.files[id].path !in DropSet(mode, outs, gone)
    ensures !OwnedBy(t, DropSet(mode, outs, gone), k)
  {
  }

  lemma NotFresh(t: Tables, outs: seq<Outcome>, e: Model, id: Id, k: VecKey)
    requires Dimensioned(e) && IsFresh(e, WorkOf(t, outs), Fresh(e, WorkOf(t, outs)))
    requires id in t.files && t.files[id].path !in ParsedPaths(outs) && KeyOf(e, t, id, k)
    ensures k !in Fresh(e, WorkOf(t, outs))
  {
    var W := WorkOf(t, outs);
    forall f, i | HasSymbol(W, f, i) ensures k.owner == SymbolOwner ==> W[f].ids[i] != k.id {
      assert W[f].ids[i] in SymbolIds(t, f);
    }
    assert !IsWorkKey(e, W, k);
  }

  /** A kept file's vectors are right after the run exactly when they were right before it. */
  lemma KeptRight(t: Tables, w: World, e: Model, mode: Mode, cands: seq<Candidate>, s: Stamp, mems: Memories, m: Vectors, id: Id)
    requires Consistent(t) && DistinctRels(cands) && Dimensioned(e) && Kept(t, w, mode, cands, id)
    ensures var t', m' := AfterRun(t, w, mode, cands, s), VectorsAfter(m, t, w, e, mode, cands, s, mems);
            && Linked(t') && id in t'.files
            && (RightAt(e, w.registry, t', m', id) <==> RightAt(e, w.registry, t, m, id))
  {
    var t', m' := AfterRun(t, w, mode, cands, s), VectorsAfter(m, t, w, e, mode, cands, s, mems);
    RunRows(t, w, mode, cands, s, id);
    SameGroup(t, t', id);
    assert t.files[id] == t'.files[id];
    forall k | KeyOf(e, t, id, k) ensures (k in m <==> k in m') && (k in m ==> m[k] == m'[k]) {
      KeptVectors(t, w, e, mode, cands, s, mems, m, id, k);
    }
    hide Linked, FtsAgrees, AfterRun, VectorsAfter, Kept, SameFile, HoldsVectors, SymbolIds, Parse, KeyOf;
    forall content, tracked, pkg
      ensures RightWith(e, w.registry, t', m', id, content, tracked, pkg) <==> RightWith(e, w.registry, t, m, id, content, tracked, pkg)
    {
      HoldsSame(e, t, m, m', id, Parse(w.registry, t.files[id].path, content, tracked, pkg, true));
    }
    hide RightWith;
  }

  /** A rewritten file's vectors are those of the content the run found, whatever was stored or carried before. */
  lemma RewrittenRightWith(t: Tables, w: World, e: Model, mode: Mode, cands: seq<Candidate>, s: Stamp, mems: Memories, m: Vectors, id: Id, c: Candidate)
    requires Consistent(t) && DistinctRels(cands) && Dimensioned(e) && w.embedding
    requires Linked(AfterRun(t, w, mode, cands, s)) && id in AfterRun(t, w, mode, cands, s).files
    requires c in cands && c.rel == AfterRun(t, w, mode, cands, s).files[id].path && c.rel in w.tree && Rescanned(w, c, HashesOf(t), mode == Full)
    requires c.rel in ParsedPaths(ScanAll(w, cands, HashesOf(t), mode == Full, true))
    requires ParsedAt(ScanAll(w, cands, HashesOf(t), mode == Full, true), c.rel) ==
             Parse(w.registry, c.rel, w.tree[c.rel], c.tracked, w.pkgOf(c.rel), true)
    ensures RightWith(e, w.registry, AfterRun(t, w, mode, cands, s), VectorsAfter(m, t, w, e, mode, cands, s, mems), id,
                      w.tree[c.rel], c.tracked, w.pkgOf(c.rel))
  {
    var t', m' := AfterRun(t, w, mode, cands, s), VectorsAfter(m, t, w, e, mode, cands, s, mems);
    var outs := ScanAll(w, cands, HashesOf(t), mode == Full, true);
    var W := WorkOf(t', outs);
    var path := t'.files[id].path;
    WorkDistinct(t', outs);
    FreshIs(e, W);
    var p := Parse(w.registry, path, w.tree[path], c.tracked, w.pkgOf(path), true);
    assert W[id] == Work(SymbolIds(t', id), p);
    RunView(t, w, mode, cands, s);
    ParsedViewOfScan(w, cands, HashesOf(t), mode == Full);
    assert ScanEntry(w, c, HashesOf(t), mode == Full, ParsedView(outs));
    ViewAt(t', id);
    ParseGroup(w.registry, path, w.tree[path], c.tracked, w.pkgOf(path));
    assert GroupAt(t', id) == GroupOf(p) by {
      hide AfterRun, ScanAll, HashesOf, ViewOf, GroupAt, GroupOf, ParsedView, FtsAgrees, Linked;
    }
    FreshHolds(e, W, Fresh(e, W), id);
    OverlayHolds(e, Dropped(m, t, DropSet(mode, outs, HashesOf(t).Keys - RelSet(cands))), Fresh(e, W), mems, id, W[id]);
    assert RightWith(e, w.registry, t', m', id, w.tree[path], c.tracked, w.pkgOf(path));
  }

  /** So they are right. */
  lemma RewrittenRight(t: Tables, w: World, e: Model, mode: Mode, cands: seq<Candidate>, s: Stamp, mems: Memories, m: Vectors, id: Id)
    requires Consistent(t) && DistinctRels(cands) && Dimensioned(e) && w.embedding
    requires Linked(AfterRun(t, w, mode, cands, s)) && id in AfterRun(t, w, mode, cands, s).files
    requires AfterRun(t, w, mode, cands, s).files[id].path in ParsedPaths(ScanAll(w, cands, HashesOf(t), mode == Full, true))
    ensures RightAt(e, w.registry, AfterRun(t, w, mode, cands, s), VectorsAfter(m, t, w, e, mode, cands, s, mems), id)
  {
    hide AfterRun, VectorsAfter, ScanAll, HashesOf, RightWith, FtsAgrees, Linked, ParsedPaths, ParsedAt, Parse, Dimensioned, Rescanned;
    var c := ParsedSource(w, cands, HashesOf(t), mode == Full, AfterRun(t, w, mode, cands, s).files[id].path);
    RewrittenRightWith(t, w, e, mode, cands, s, mems, m, id, c);
  }

  /** The candidate a parsed path came from, and its parse. */
  lemma ParsedSource(w: World, cands: seq<Candidate>, existing: map<Path, Digest>, full: bool, path: Path) returns (c: Candidate)
    requires DistinctRels(cands) && w.embedding && path in ParsedPaths(ScanAll(w, cands, existing, full, true))
    ensures c in cands && c.rel == path && Rescanned(w, c, existing, full) && path in w.tree
    ensures ParsedAt(ScanAll(w, cands, existing, full, true), path) == Parse(w.registry, path, w.tree[path], c.tracked, w.pkgOf(path), true)
  {
    var outs := ScanAll(w, cands, existing, full, true);
    var o :| o in outs && o.rel == path && o.parsed.Some? && ParsedAt(outs, path) == o.parsed.value;
    var i :| 0 <= i < |outs| && outs[i] == o;
    c := cands[i];
    ScanOneParses(w, c, existing, full);
    hide Parse;
  }

  lemma ParseGroup(reg: Registry, p: Path, content: string, tracked: bool, pkg: string)
    ensures GroupOf(Parse(reg, p, content, tracked, pkg, true)) == GroupFor(reg, p, content, tracked, pkg)
  {
  }

  lemma FreshHolds(e: Model, W: WorkMap, F: Vectors, id: Id)
    requires Dimensioned(e) && IsFresh(e, W, F) && id in W
    ensures HoldsVectors(e, F, id, W[id])
  {
    forall i | 0 <= i < Count(W[id]) && |W[id].p.symbols| > 0
      ensures SymKey(e, W[id].ids[i]) in F && F[SymKey(e, W[id].ids[i])] == EntryFor(e, TextAt(W[id], i)) {
      assert HasSymbol(W, id, i);
    }
    hide FileEntry, EntryFor, TextAt;
  }

  lemma OverlayHolds(e: Model, a: Vectors, F: Vectors, mems: Memories, id: Id, w: Work)
    requires Dimensioned(e) && HoldsVectors(e, F, id, w)
    ensures HoldsVectors(e, a + F + MemoryVectors(e, mems), id, w)
  {
    hide FileEntry, EntryFor, TextAt;
  }

  /** Main result on vectors. After a run with an embedder, every symbol and file has exactly its right vector,
      if and only if the files the run kept had theirs before. The run may carry vectors over, reuse row ids
      and skip the embedder; none of it shows. */
  lemma RunVectorsRight(t: Tables, w: World, e: Model, mode: Mode, cands: seq<Candidate>, s: Stamp, mems: Memories, m: Vectors)
    requires Consistent(t) && DistinctRels(cands) && Dimensioned(e) && w.embedding
    ensures var t', m' := AfterRun(t, w, mode, cands, s), VectorsAfter(m, t, w, e, mode, cands, s, mems);
            && Linked(t')
            && (Right(e, w.registry, t', m') <==> forall id :: id in t.files && Kept(t, w, mode, cands, id) ==> RightAt(e, w.registry, t, m, id))
  {
    var t', m' := AfterRun(t, w, mode, cands, s), VectorsAfter(m, t, w, e, mode, cands, s, mems);
    RunView(t, w, mode, cands, s);
    assert Linked(t');
    forall id | id in t.files && Kept(t, w, mode, cands, id)
      ensures id in t'.files && (RightAt(e, w.registry, t', m', id) <==> RightAt(e, w.registry, t, m, id)) {
      KeptRight(t, w, e, mode, cands, s, mems, m, id);
    }
    forall id | id in t'.files ensures RightAt(e, w.registry, t', m', id) || (id in t.files && Kept(t, w, mode, cands, id)) {
      RunRows(t, w, mode, cands, s, id);
      if t'.files[id].path in ParsedPaths(ScanAll(w, cands, HashesOf(t), mode == Full, true)) {
        RewrittenRight(t, w, e, mode, cands, s, mems, m, id);
      } else {
        KeptExists(t, w, mode, cands, id);
      }
    }
    hide Consistent, AfterRun, VectorsAfter, RightAt, Kept;
  }

  lemma KeptExists(t: Tables, w: World, mode: Mode, cands: seq<Candidate>, id: Id)
    requires Linked(t) && Kept(t, w, mode, cands, id)
    ensures id in t.files && mode != Full
  {
  }

  /** A full run makes every vector right from any state, sound or not. */
  lemma FullRunRight(t: Tables, w: World, e: Model, cands: seq<Candidate>, s: Stamp, mems: Memories, m: Vectors)
    requires Consistent(t) && DistinctRels(cands) && Dimensioned(e) && w.embedding
    ensures Linked(AfterRun(t, w, Full, cands, s))
    ensures Right(e, w.registry, AfterRun(t, w, Full, cands, s), VectorsAfter(m, t, w, e, Full, cands, s, mems))
  {
    RunVectorsRight(t, w, e, Full, cands, s, mems, m);
    hide AfterRun, VectorsAfter, Right, RightAt;
  }

  // ---- agreement with a rebuild ----

  /** The two stores hold the same vectors for a file, position by position, whatever their row ids are. */
  ghost predicate SameVectors(e: Model, t: Tables, m: Vectors, id: Id, t': Tables, m': Vectors, id': Id) {
    && |SymbolIds(t, id)| == |SymbolIds(t', id')|
    && (forall i :: 0 <= i < |SymbolIds(t, id)| ==>
          && SymKey(e, SymbolIds(t, id)[i]) in m && SymKey(e, SymbolIds(t', id')[i]) in m'
          && m[SymKey(e, SymbolIds(t, id)[i])] == m'[SymKey(e, SymbolIds(t', id')[i])])
    && FileKey(e, id) in m && FileKey(e, id') in m' && m[FileKey(e, id)] == m'[FileKey(e, id')]
  }

  /** A file with rows always gets a file vector. */
  lemma FileEntryExists(e: Model, reg: Registry, p: Path, content: string, tracked: bool, pkg: string, ids: seq<Id>)
    requires Dimensioned(e)
    requires |ids| == |Parse(reg, p, content, tracked, pkg, true).symbols|
    ensures var w := Work(ids, Parse(reg, p, content, tracked, pkg, true));
            FileEntry(e, w).Some? && (|w.p.symbols| > 0 ==> Count(w) == |ids|)
  {
  }

  /** The file vector depends on the parse, not on the row ids. */
  lemma FileEntryIdFree(e: Model, p: Parsed, ids: seq<Id>, ids': seq<Id>)
    requires Dimensioned(e) && |ids| == |ids'|
    ensures FileEntry(e, Work(ids, p)) == FileEntry(e, Work(ids', p))
  {
    assert VectorsOf(e, Work(ids, p)) == VectorsOf(e, Work(ids', p));
    hide VectorsOf;
  }

  lemma SameParse(reg: Registry, p: Path, c: string, k: bool, g: string, c': string, k': bool, g': string)
    requires GroupFor(reg, p, c, k, g) == GroupFor(reg, p, c', k', g')
    ensures c == c' && k == k' && g == g'
  {
  }

  /** Right vectors are determined: two stores that show the same rows for a path, both right, hold the same vectors for it. */
  lemma RightAgrees(e: Model, reg: Registry, t: Tables, m: Vectors, id: Id, t': Tables, m': Vectors, id': Id)
    requires Dimensioned(e) && Linked(t) && Linked(t') && id in t.files && id' in t'.files
    requires RightAt(e, reg, t, m, id) && RightAt(e, reg, t', m', id') && GroupAt(t, id) == GroupAt(t', id')
    ensures SameVectors(e, t, m, id, t', m', id')
  {
    hide *;
    var path, ids, ids' := t.files[id].path, SymbolIds(t, id), SymbolIds(t', id');
    GroupPath(t, id);
    GroupPath(t', id');
    var content, tracked, pkg := RightParse(e, reg, t, m, id);
    var content', tracked', pkg' := RightParse(e, reg, t', m', id');
    ParseGroup(reg, path, content, tracked, pkg);
    ParseGroup(reg, path, content', tracked', pkg');
    SameParse(reg, path, content, tracked, pkg, content', tracked', pkg');
    var p := Parse(reg, path, content, tracked, pkg, true);
    FileEntryExists(e, reg, path, content, tracked, pkg, ids);
    FileEntryExists(e, reg, path, content, tracked, pkg, ids');
    FileEntryIdFree(e, p, ids, ids');
    HoldsAgree(e, m, id, m', id', p, ids, ids');
    SameVectorsBy(e, t, m, id, t', m', id');
  }

  lemma GroupPath(t: Tables, id: Id)
    requires Linked(t) && id in t.files
    ensures GroupAt(t, id).file.path == t.files[id].path
  {
  }

  lemma RightParse(e: Model, reg: Registry, t: Tables, m: Vectors, id: Id) returns (content: string, tracked: bool, pkg: string)
    requires Dimensioned(e) && Linked(t) && id in t.files && RightAt(e, reg, t, m, id)
    ensures var p := Parse(reg, t.files[id].path, content, tracked, pkg, true);
            && GroupAt(t, id) == GroupOf(p) && HoldsVectors(e, m, id, Work(SymbolIds(t, id), p))
            && |SymbolIds(t, id)| == |p.symbols|
  {
    content, tracked, pkg :| RightWith(e, reg, t, m, id, content, tracked, pkg);
    hide Parse, HoldsVectors, SymbolIds;
  }

  lemma SameVectorsBy(e: Model, t: Tables, m: Vectors, id: Id, t': Tables, m': Vectors, id': Id)
    requires |SymbolIds(t, id)| == |SymbolIds(t', id')|
    requires forall i :: 0 <= i < |SymbolIds(t, id)| ==>
      && SymKey(e, SymbolIds(t, id)[i]) in m && SymKey(e, SymbolIds(t', id')[i]) in m'
      && m[SymKey(e, SymbolIds(t, id)[i])] == m'[SymKey(e, SymbolIds(t', id')[i])]
    requires FileKey(e, id) in m && FileKey(e, id') in m' && m[FileKey(e, id)] == m'[FileKey(e, id')]
    ensures SameVectors(e, t, m, id, t', m', id')
  {
    hide SymbolIds, SymKey, FileKey;
  }

  lemma TextIdFree(p: Parsed, ids: seq<Id>, ids': seq<Id>, i: int)
    requires 0 <= i < Count(Work(ids, p)) && i < Count(Work(ids', p))
    ensures TextAt(Work(ids, p), i) == TextAt(Work(ids', p), i)
  {
  }

  lemma HoldsAgree(e: Model, m: Vectors, id: Id, m': Vectors, id': Id, p: Parsed, ids: seq<Id>, ids': seq<Id>)
    requires Dimensioned(e) && |ids| == |ids'| == |p.symbols|
    requires HoldsVectors(e, m, id, Work(ids, p)) && HoldsVectors(e, m', id', Work(ids', p))
    requires FileEntry(e, Work(ids, p)) == FileEntry(e, Work(ids', p)) && FileEntry(e, Work(ids, p)).Some?
    requires |p.symbols| > 0 ==> Count(Work(ids, p)) == |ids| && Count(Work(ids', p)) == |ids'|
    ensures forall i :: 0 <= i < |ids| ==> SymKey(e, ids[i]) in m && SymKey(e, ids'[i]) in m' && m[SymKey(e, ids[i])] == m'[SymKey(e, ids'[i])]
    ensures FileKey(e, id) in m && FileKey(e, id') in m' && m[FileKey(e, id)] == m'[FileKey(e, id')]
  {
    hide FileEntry, EntryFor, TextAt, Count;
    forall i | 0 <= i < |ids|
      ensures SymKey(e, ids[i]) in m && SymKey(e, ids'[i]) in m' && m[SymKey(e, ids[i])] == m'[SymKey(e, ids'[i])] {
      TextIdFree(p, ids, ids', i);
    }
  }

  /** From right vectors, an incremental run and a full rebuild of the same tree leave the same view, and for
      every path the same vectors: the incremental run is the rebuild up to the names of row ids. */
  lemma IncrementalEqualsRebuild(t: Tables, w: World, e: Model, cands: seq<Candidate>, s: Stamp, mems: Memories, m: Vectors, path: Path)
    requires Consistent(t) && Sound(w.registry, ViewOf(t)) && DistinctRels(cands) && Dimensioned(e) && w.embedding
    requires Right(e, w.registry, t, m)
    requires forall c :: c in cands ==> UpToDate(t, w, c)
    ensures var inc, full := AfterRun(t, w, Incremental, cands, s), AfterRun(t, w, Full, cands, s);
            && Linked(inc) && Linked(full) && ViewOf(inc) == ViewOf(full)
            && (HasPath(inc, path) ==>
                  && HasPath(full, path)
                  && SameVectors(e, inc, VectorsAfter(m, t, w, e, Incremental, cands, s, mems), IdAt(inc, path),
                                 full, VectorsAfter(m, t, w, e, Full, cands, s, mems), IdAt(full, path)))
  {
    var inc, full := AfterRun(t, w, Incremental, cands, s), AfterRun(t, w, Full, cands, s);
    IncrementalRefinesFull(t, w, cands, s);
    RunVectorsRight(t, w, e, Incremental, cands, s, mems, m);
    FullRunRight(t, w, e, cands, s, mems, m);
    hide Consistent, AfterRun, VectorsAfter, RightAt, Kept, UpToDate, Linked, ViewOf, SameVectors, GroupAt, Sound;
    ViewEntries(inc);
    ViewEntries(full);
    if HasPath(inc, path) {
      assert path in ViewOf(full);
      RightAgrees(e, w.registry, inc, VectorsAfter(m, t, w, e, Incremental, cands, s, mems), IdAt(inc, path),
                  full, VectorsAfter(m, t, w, e, Full, cands, s, mems), IdAt(full, path));
    }
  }

  // ---- ownership ----

  ghost predicate Owns(m: Vectors, owner: OwnerType, id: Id) {
    exists k :: k in m && k.owner == owner && k.id == id
  }

  /** The owners of symbol and file vectors are exactly the live rows. */
  ghost predicate OwnersExact(t: Tables, m: Vectors) {
    && (forall k :: k in m && k.owner == SymbolOwner ==> k.id in t.symbols)
    && (forall k :: k in m && k.owner == FileOwner ==> k.id in t.files)
    && OwnersCovered(t, m)
  }

  ghost predicate OwnersCovered(t: Tables, m: Vectors) {
    && (forall id :: id in t.symbols ==> Owns(m, SymbolOwner, id))
    && (forall id :: id in t.files ==> Owns(m, FileOwner, id))
  }

  /** A right file owns its file vector and each of its symbols' vectors. */
  lemma RightOwns(e: Model, reg: Registry, t: Tables, m: Vectors, id: Id)
    requires Dimensioned(e) && Linked(t) && id in t.files && RightAt(e, reg, t, m, id)
    ensures Owns(m, FileOwner, id)
    ensures forall x :: x in SymbolIds(t, id) ==> Owns(m, SymbolOwner, x)
  {
    var content, tracked, pkg :| RightWith(e, reg, t, m, id, content, tracked, pkg);
    var path, ids := t.files[id].path, SymbolIds(t, id);
    assert |ids| == |Parse(reg, path, content, tracked, pkg, true).symbols|;
    FileEntryExists(e, reg, path, content, tracked, pkg, ids);
    assert FileKey(e, id) in m;
    hide Parse, Linked, SymbolIds, FileEntry, EntryFor, TextAt;
    forall x | x in ids ensures Owns(m, SymbolOwner, x) {
      var i :| 0 <= i < |ids| && ids[i] == x;
      assert SymKey(e, ids[i]) in m;
    }
  }

  /** After a full run every live row is an owner. */
  lemma FullRunCovers(t: Tables, w: World, e: Model, cands: seq<Candidate>, s: Stamp, mems: Memories, m: Vectors)
    requires Consistent(t) && DistinctRels(cands) && Dimensioned(e) && w.embedding
    ensures OwnersCovered(AfterRun(t, w, Full, cands, s), VectorsAfter(m, t, w, e, Full, cands, s, mems))
  {
    var t', m' := AfterRun(t, w, Full, cands, s), VectorsAfter(m, t, w, e, Full, cands, s, mems);
    FullRunRight(t, w, e, cands, s, mems, m);
    forall id | id in t'.files ensures Owns(m', FileOwner, id) {
      RightOwns(e, w.registry, t', m', id);
    }
    forall id | id in t'.symbols ensures Owns(m', SymbolOwner, id) {
      assert t'.symbols[id].fileId in t'.files;
      RightOwns(e, w.registry, t', m', t'.symbols[id].fileId);
    }
  }

  /** The stored keys of a run come from kept owners or from the rewritten files. */
  lemma RunOwnersLive(t: Tables, w: World, e: Model, mode: Mode, cands: seq<Candidate>, s: Stamp, mems: Memories, m: Vectors, k: VecKey)
    requires Consistent(t) && DistinctRels(cands) && Dimensioned(e) && mode != Full && OwnersExact(t, m)
    requires k in VectorsAfter(m, t, w, e, mode, cands, s, mems)
    ensures k.owner == SymbolOwner ==> k.id in AfterRun(t, w, mode, cands, s).symbols
    ensures k.owner == FileOwner ==> k.id in AfterRun(t, w, mode, cands, s).files
  {
    var t' := AfterRun(t, w, mode, cands, s);
    var existing := HashesOf(t);
    var outs := ScanAll(w, cands, existing, mode == Full, true);
    var gone := existing.Keys - RelSet(cands);
    RunView(t, w, mode, cands, s);
    WorkDistinct(t', outs);
    FreshIs(e, WorkOf(t', outs));
    hide Linked, FtsAgrees, AfterRun, ScanAll, HashesOf, WorkOf, Fresh, Dropped, ViewOf, DropSet, IsFresh, DistinctIds, OwnersExact;
    if k in Fresh(e, WorkOf(t', outs)) {
      FreshOwners(t', outs, e, k);
    } else if k in Dropped(m, t, DropSet(mode, outs, gone)) && k.owner != MemoryOwner {
      DroppedOwnersLive(t, w, mode, cands, s, m, outs, gone, k);
    } else {
      assert k in MemoryVectors(e, mems) || k.owner == MemoryOwner;
      assert k.owner == MemoryOwner;
    }
  }

  lemma DroppedOwnersLive(t: Tables, w: World, mode: Mode, cands: seq<Candidate>, s: Stamp, m: Vectors, outs: seq<Outcome>, gone: set<Path>, k: VecKey)
    requires Consistent(t) && DistinctRels(cands) && mode != Full && OwnersExact(t, m)
    requires outs == ScanAll(w, cands, HashesOf(t), mode == Full, true) && gone == HashesOf(t).Keys - RelSet(cands)
    requires k in Dropped(m, t, DropSet(mode, outs, gone)) && k.owner != MemoryOwner
    ensures k.owner == SymbolOwner ==> k.id in AfterRun(t, w, mode, cands, s).symbols
    ensures k.owner == FileOwner ==> k.id in AfterRun(t, w, mode, cands, s).files
  {
    var id := if k.owner == FileOwner then k.id else t.symbols[k.id].fileId;
    assert id in t.files;
    ViewAt(t, id);
    assert t.files[id].path !in DropSet(mode, outs, gone);
    hide ScanAll, DropSet, FtsAgrees, Linked, SymbolIds, RecordsOf, GroupAt;
    SurvivesKept(t, w, mode, cands, outs, gone, id);
    RunRows(t, w, mode, cands, s, id);
    KeptSymbol(t, AfterRun(t, w, mode, cands, s), id, k);
  }

  lemma SurvivesKept(t: Tables, w: World, mode: Mode, cands: seq<Candidate>, outs: seq<Outcome>, gone: set<Path>, id: Id)
    requires Linked(t) && mode != Full && outs == ScanAll(w, cands, HashesOf(t), mode == Full, true)
    requires gone == HashesOf(t).Keys - RelSet(cands) && id in t.files && t.files[id].path in HashesOf(t)
    requires t.files[id].path !in DropSet(mode, outs, gone)
    ensures Kept(t, w, mode, cands, id)
  {
    hide HashesOf, ScanAll;
  }

  lemma KeptSymbol(t: Tables, t': Tables, id: Id, k: VecKey)
    requires SameFile(t, t', id)
    ensures k.owner == SymbolOwner && k.id in t.symbols && t.symbols[k.id].fileId == id ==> k.id in t'.symbols
  {
    if k.owner == SymbolOwner && k.id in t.symbols && t.symbols[k.id].fileId == id {
      assert k.id in SymbolIdSet(t.symbols, id);
      assert k.id in SymbolIdSet(t'.symbols, id);
    }
  }

  lemma FreshOwners(t: Tables, outs: seq<Outcome>, e: Model, k: VecKey)
    requires Dimensioned(e) && IsFresh(e, WorkOf(t, outs), Fresh(e, WorkOf(t, outs))) && k in Fresh(e, WorkOf(t, outs))
    ensures k.owner == SymbolOwner ==> k.id in t.symbols
    ensures k.owner == FileOwner ==> k.id in t.files
  {
    var W := WorkOf(t, outs);
    hide FileEntry, EntryFor, TextAt, Fresh, SymbolIds;
    assert IsWorkKey(e, W, k);
    if k.owner == SymbolOwner {
      var f, i :| HasSymbol(W, f, i) && W[f].ids[i] == k.id;
      assert W[f].ids[i] in SymbolIds(t, f);
    }
  }

  /** A kept row still owns a vector: the old key is untouched, whatever model it is under. */
  lemma KeptOwns(t: Tables, w: World, e: Model, mode: Mode, cands: seq<Candidate>, s: Stamp, mems: Memories, m: Vectors, id: Id, k: VecKey)
    requires Consistent(t) && DistinctRels(cands) && Dimensioned(e) && Kept(t, w, mode, cands, id) && k in m
    requires (k.owner == FileOwner && k.id == id) || (k.owner == SymbolOwner && k.id in SymbolIdSet(t.symbols, id))
    ensures k in VectorsAfter(m, t, w, e, mode, cands, s, mems)
  {
    var existing := HashesOf(t);
    assert existing.Keys == ViewOf(t).Keys;
    var outs := ScanAll(w, cands, existing, mode == Full, true);
    assert !OwnedBy(t, DropSet(mode, outs, existing.Keys - RelSet(cands)), k);
    hide ScanAll, HashesOf, AfterRun, Linked, FtsAgrees, OwnedBy, DropSet;
  }

  /** Owners stay exact under id reuse: an incremental or changed run drops every captured old id before it stores a vector. */
  lemma RunOwnersExact(t: Tables, w: World, e: Model, mode: Mode, cands: seq<Candidate>, s: Stamp, mems: Memories, m: Vectors)
    requires Consistent(t) && DistinctRels(cands) && Dimensioned(e) && w.embedding && mode != Full
    requires OwnersExact(t, m)
    ensures OwnersExact(AfterRun(t, w, mode, cands, s), VectorsAfter(m, t, w, e, mode, cands, s, mems))
  {
    var t', m' := AfterRun(t, w, mode, cands, s), VectorsAfter(m, t, w, e, mode, cands, s, mems);
    RunView(t, w, mode, cands, s);
    hide *;
    forall k | k in m'
      ensures (k.owner == SymbolOwner ==> k.id in t'.symbols) && (k.owner == FileOwner ==> k.id in t'.files) {
      RunOwnersLive(t, w, e, mode, cands, s, mems, m, k);
    }
    forall id | id in t'.files ensures FileOwns(t', m', id) {
      FileOwnsAfter(t, w, e, mode, cands, s, mems, m, id);
    }
    OwnersGlue(t', m');
  }

  lemma OwnersGlue(t: Tables, m: Vectors)
    requires Consistent(t)
    requires forall k :: k in m ==> (k.owner == SymbolOwner ==> k.id in t.symbols) && (k.owner == FileOwner ==> k.id in t.files)
    requires forall id :: id in t.files ==> FileOwns(t, m, id)
    ensures OwnersExact(t, m)
  {
    forall x | x in t.symbols ensures Owns(m, SymbolOwner, x) {
      assert FileOwns(t, m, t.symbols[x].fileId);
      assert x in SymbolIdSet(t.symbols, t.symbols[x].fileId);
    }
  }

  /** The file and all its symbols own vectors. */
  ghost predicate FileOwns(t: Tables, m: Vectors, id: Id) {
    Owns(m, FileOwner, id) && forall x :: x in SymbolIdSet(t.symbols, id) ==> Owns(m, SymbolOwner, x)
  }

  lemma OwnerKey(m: Vectors, owner: OwnerType, id: Id) returns (k: VecKey)
    requires Owns(m, owner, id)
    ensures k in m && k.owner == owner && k.id == id
  {
    k :| k in m && k.owner == owner && k.id == id;
  }

  lemma KeyOwns(m: Vectors, k: VecKey)
    requires k in m
    ensures Owns(m, k.owner, k.id)
  {
  }

  lemma ExactOwners(t: Tables, m: Vectors, id: Id)
    requires OwnersExact(t, m) && id in t.files
    ensures Owns(m, FileOwner, id) && forall x :: x in SymbolIdSet(t.symbols, id) ==> Owns(m, SymbolOwner, x)
  {
    hide Owns;
  }

  lemma KeptFileOwns(t: Tables, w: World, e: Model, mode: Mode, cands: seq<Candidate>, s: Stamp, mems: Memories, m: Vectors, id: Id)
    requires Consistent(t) && DistinctRels(cands) && Dimensioned(e) && OwnersExact(t, m) && Kept(t, w, mode, cands, id)
    ensures FileOwns(t, VectorsAfter(m, t, w, e, mode, cands, s, mems), id)
  {
    var m' := VectorsAfter(m, t, w, e, mode, cands, s, mems);
    KeptExists(t, w, mode, cands, id);
    ExactOwners(t, m, id);
    hide VectorsAfter, Kept, Linked, FtsAgrees, Owns, OwnersExact, SymbolIdSet, Dimensioned;
    var k := OwnerKey(m, FileOwner, id);
    KeptOwns(t, w, e, mode, cands, s, mems, m, id, k);
    KeyOwns(m', k);
    forall x | x in SymbolIdSet(t.symbols, id) ensures Owns(m', SymbolOwner, x) {
      var j := OwnerKey(m, SymbolOwner, x);
      KeptOwns(t, w, e, mode, cands, s, mems, m, id, j);
      KeyOwns(m', j);
    }
  }

  lemma FileOwnsAfter(t: Tables, w: World, e: Model, mode: Mode, cands: seq<Candidate>, s: Stamp, mems: Memories, m: Vectors, id: Id)
    requires Consistent(t) && DistinctRels(cands) && Dimensioned(e) && w.embedding && OwnersExact(t, m)
    requires id in AfterRun(t, w, mode, cands, s).files
    ensures FileOwns(AfterRun(t, w, mode, cands, s), VectorsAfter(m, t, w, e, mode, cands, s, mems), id)
  {
    var t', m' := AfterRun(t, w, mode, cands, s), VectorsAfter(m, t, w, e, mode, cands, s, mems);
    RunView(t, w, mode, cands, s);
    RunRows(t, w, mode, cands, s, id);
    hide VectorsAfter, Linked, FtsAgrees, Owns, OwnersExact, AfterRun, Kept, RightAt;
    if t'.files[id].path in ParsedPaths(ScanAll(w, cands, HashesOf(t), mode == Full, true)) {
      RewrittenRight(t, w, e, mode, cands, s, mems, m, id);
      RightOwns(e, w.registry, t', m', id);
      hide SymbolIdSet;
    } else {
      KeptFileOwns(t, w, e, mode, cands, s, mems, m, id);
      hide SymbolIdSet;
    }
  }

  // ---- the fixpoint ----

  lemma MemoriesSettled(e: Model, mems: Memories, m: Vectors)
    ensures forall id :: id in mems ==> Settled(e, mems, m + MemoryVectors(e, mems), [], id)
  {
    forall id | id in mems ensures Settled(e, mems, m + MemoryVectors(e, mems), [], id) {
      if Embeds(mems, id) {
        MemoryEntry(e, mems, id);
      }
      hide MemoryVectors, MemoryText, EntryFor;
    }
  }

  /** After a completed incremental run, a second one on the same tree has nothing to drop, parse or embed. */
  lemma SecondRunEmbedsNothing(t: Tables, w: World, e: Model, cands: seq<Candidate>, s: Stamp, mems: Memories, m: Vectors)
    requires Consistent(t) && DistinctRels(cands) && Dimensioned(e)
    ensures Linked(AfterRun(t, w, Incremental, cands, s))
    ensures Idle(AfterRun(t, w, Incremental, cands, s), w, e, Incremental, cands, mems,
                 VectorsAfter(m, t, w, e, Incremental, cands, s, mems))
  {
    var t', m' := AfterRun(t, w, Incremental, cands, s), VectorsAfter(m, t, w, e, Incremental, cands, s, mems);
    SecondScan(t, w, cands, s);
    hide *;
    NoParsedPaths(ScanAll(w, cands, HashesOf(t'), false, true));
    VectorsAfterSettled(t, w, e, cands, s, mems, m);
    IdleWhen(t', w, e, cands, mems, m');
  }

  lemma NoParsedPaths(outs: seq<Outcome>)
    requires forall i :: 0 <= i < |outs| ==> outs[i].parsed.None?
    ensures ParsedPaths(outs) == {}
  {
  }

  lemma VectorsAfterSettled(t: Tables, w: World, e: Model, cands: seq<Candidate>, s: Stamp, mems: Memories, m: Vectors)
    requires Linked(t) && Dimensioned(e)
    ensures forall id :: id in mems ==> Settled(e, mems, VectorsAfter(m, t, w, e, Incremental, cands, s, mems), [], id)
  {
    var existing := HashesOf(t);
    var outs := ScanAll(w, cands, existing, false, true);
    MemoriesSettled(e, mems, Dropped(m, t, DropSet(Incremental, outs, existing.Keys - RelSet(cands)))
                             + Fresh(e, WorkOf(AfterRun(t, w, Incremental, cands, s), outs)));
    hide AfterRun, ScanAll, HashesOf, Settled, Fresh, Dropped, Linked, FtsAgrees, WorkOf;
  }

  lemma IdleWhen(t: Tables, w: World, e: Model, cands: seq<Candidate>, mems: Memories, m: Vectors)
    requires Linked(t) && ParsedPaths(ScanAll(w, cands, HashesOf(t), false, true)) == {}
    requires HashesOf(t).Keys - RelSet(cands) == {}
    requires forall id :: id in mems ==> Settled(e, mems, m, [], id)
    ensures Idle(t, w, e, Incremental, cands, mems, m)
  {
    hide ScanAll, HashesOf, ParsedPaths;
  }
}
