/** Which vectors a full run leaves without an owner. Full runs restart the row ids but keep the semantic layer. */
module OwnerTheorems {
  import opened Base
  import opened Ids
  import opened Digests
  import opened VectorStore
  import opened CodeTables
  import opened CodeView
  import opened CodeStore
  import opened Scanning
  import opened Indexing
  import opened GraphRefresh
  import opened MetadataTheorems
  import opened Embedder
  import opened EmbedSpec
  import opened Embedding
  import opened Running
  import opened VectorTheorems

  // ---- after a clear, row ids count up from 1 ----

  ghost predicate UpTo(s: set<Id>, n: nat) {
    forall x :: x in s <==> 1 <= x <= n
  }

  lemma NextUpTo(s: set<Id>, n: nat)
    requires UpTo(s, n)
    ensures NextId(s) == n + 1 && UpTo(s + {n + 1}, n + 1)
  {
    if n > 0 {
      assert n in s;
    }
  }

  ghost predicate Dense(t: Tables, files: nat, symbols: nat) {
    UpTo(t.files.Keys, files) && UpTo(t.symbols.Keys, symbols)
  }

  lemma {:induction false} AddSymbolsDense(t: Tables, id: Id, f: FileRecord, syms: seq<SymbolRecord>, a: nat, b: nat)
    requires Dense(t, a, b)
    ensures Dense(AddSymbols(t, id, f, syms), a, b + |syms|)
  {
    hide UpTo, NextId;
    if syms != [] {
      var n := |syms| - 1;
      var u := AddSymbols(t, id, f, syms[..n]);
      AddSymbolsDense(t, id, f, syms[..n], a, b);
      NextUpTo(u.symbols.Keys, b + n);
      assert AddSymbol(u, id, f, syms[n]).symbols.Keys == u.symbols.Keys + {b + n + 1};
    }
  }

  lemma PutDense(t: Tables, p: Parsed, a: nat, b: nat)
    requires Dense(t, a, b) && !HasPath(t, p.record.path)
    ensures Dense(Put(t, p), a + 1, b + |p.symbols|)
  {
    hide UpTo, AddSymbols, AddFile, DeletePath;
    NothingDeleted(t, p.record.path);
    NextUpTo(t.files.Keys, a);
    var c := DeletePath(t, p.record.path);
    AddFileDense(c, p.record, p.derived, a, b);
    AddSymbolsDense(AddFile(c, p.record, p.derived), a + 1, p.record, p.symbols, a + 1, b);
  }

  lemma NothingDeleted(t: Tables, path: Path)
    requires !HasPath(t, path)
    ensures DeletePath(t, path).files == t.files && DeletePath(t, path).symbols == t.symbols
  {
    assert IdsAt(t.files, path) == {};
  }

  lemma AddFileDense(t: Tables, f: FileRecord, d: Derived, a: nat, b: nat)
    requires Dense(t, a, b)
    ensures Dense(AddFile(t, f, d), a + 1, b)
  {
    hide UpTo, NextId;
    NextUpTo(t.files.Keys, a);
    assert AddFile(t, f, d).files.Keys == t.files.Keys + {a + 1};
  }

  /** What a scan yields: distinct paths, and only read files are parsed. */
  ghost predicate Scanned(outs: seq<Outcome>) {
    && DistinctOutcomes(outs)
    && forall o :: o in outs && o.parsed.Some? ==> o.skip == NotSkipped && o.parsed.value.record.path == o.rel
  }

  lemma {:induction false} ParsedViewPaths(outs: seq<Outcome>, p: Path)
    requires Scanned(outs) && p in ParsedView(outs)
    ensures exists o :: o in outs && o.rel == p
  {
    if outs != [] {
      var init, last := outs[..|outs| - 1], outs[|outs| - 1];
      assert outs == init + [last];
      if p in ParsedView(init) {
        ParsedViewPaths(init, p);
        var o :| o in init && o.rel == p;
        assert o in outs;
      } else {
        assert last in outs && last.rel == p;
      }
    }
  }

  lemma InitScanned(outs: seq<Outcome>)
    requires outs != [] && Scanned(outs)
    ensures Scanned(outs[..|outs| - 1]) && outs[|outs| - 1] in outs
    ensures forall o :: o in outs[..|outs| - 1] ==> o.rel != outs[|outs| - 1].rel
    ensures outs[|outs| - 1].parsed.Some? ==>
      outs[|outs| - 1].skip == NotSkipped && outs[|outs| - 1].parsed.value.record.path == outs[|outs| - 1].rel
  {
    var init, last := outs[..|outs| - 1], outs[|outs| - 1];
    assert forall o :: o in init ==> o in outs;
    forall o | o in init ensures o.rel != last.rel {
      var i :| 0 <= i < |init| && init[i] == o;
      assert outs[i].rel != outs[|outs| - 1].rel;
    }
  }

  lemma LastIsNew(t: Tables, outs: seq<Outcome>)
    requires outs != [] && Scanned(outs) && outs[|outs| - 1].parsed.Some?
    ensures !HasPath(PutAll(Clear(t), outs[..|outs| - 1]), outs[|outs| - 1].rel)
  {
    var init, p := outs[..|outs| - 1], outs[|outs| - 1].rel;
    var u := PutAll(Clear(t), init);
    hide *;
    InitScanned(outs);
    ClearConsistent(t);
    ClearedPaths(t);
    PutAllView(Clear(t), init);
    if p in ParsedView(init) {
      ParsedViewPaths(init, p);
    }
    NotInView(u, p);
    NothingMerged(ParsedView(init));
  }

  lemma NothingMerged(v: View)
    ensures map[] + v == v
  {
  }

  lemma NotInView(u: Tables, p: Path)
    requires Consistent(u)
    ensures Linked(u) && (HasPath(u, p) <==> p in ViewOf(u))
  {
    ViewEntries(u);
  }

  lemma ClearedPaths(t: Tables)
    ensures Linked(Clear(t)) && ViewOf(Clear(t)) == map[]
  {
    ViewEntries(Clear(t));
  }

  /** After a clear the written rows are numbered as they are counted. */
  lemma {:induction false} PutAllDense(t: Tables, outs: seq<Outcome>)
    requires Scanned(outs)
    ensures var c := CountAll(NO_COUNTS, outs); Dense(PutAll(Clear(t), outs), c.indexed, c.symbols)
  {
    hide Scanned, Dense, Put, Clear, HasPath;
    if outs == [] {
      NothingDense(t);
    } else {
      var init, last := outs[..|outs| - 1], outs[|outs| - 1];
      InitScanned(outs);
      PutAllDense(t, init);
      var c := CountAll(NO_COUNTS, init);
      if last.parsed.Some? {
        LastIsNew(t, outs);
        PutDense(PutAll(Clear(t), init), last.parsed.value, c.indexed, c.symbols);
      }
    }
  }

  lemma NothingDense(t: Tables)
    ensures Dense(Clear(t), 0, 0)
  {
  }

  lemma ScanIsScanned(w: World, cands: seq<Candidate>, existing: map<Path, Digest>, full: bool)
    requires DistinctRels(cands)
    ensures Scanned(ScanAll(w, cands, existing, full, true))
  {
    var outs := ScanAll(w, cands, existing, full, true);
    OutcomesDistinct(w, cands, existing, full);
    forall o | o in outs && o.parsed.Some? ensures o.skip == NotSkipped && o.parsed.value.record.path == o.rel {
      var i :| 0 <= i < |outs| && outs[i] == o;
      assert o == ScanOne(w, cands[i], existing, full, true);
    }
  }

  // ---- the owners after a full run ----

  /** What a full run writes, known when the scan is done. */
  function FullCounts(w: World, cands: seq<Candidate>): Counts {
    CountAll(NO_COUNTS, ScanAll(w, cands, map[], true, true))
  }

  lemma FullRunDense(t: Tables, w: World, cands: seq<Candidate>, s: Stamp)
    requires Linked(t) && DistinctRels(cands)
    ensures var c := FullCounts(w, cands); Dense(AfterRun(t, w, Full, cands, s), c.indexed, c.symbols)
  {
    var outs := ScanAll(w, cands, HashesOf(t), true, true);
    assert outs == ScanAll(w, cands, map[], true, true) by {
      hide SkipOf, IsChanged;
    }
    ScanIsScanned(w, cands, HashesOf(t), true);
    PutAllDense(t, outs);
    hide ScanAll, HashesOf, Dense, Scanned, PutAll, CountAll, Linked;
    var gone := HashesOf(t).Keys - RelSet(cands);
    FullRowsAre(t, outs, gone, s);
    SameRows(PutAll(Clear(t), outs), AfterRun(t, w, Full, cands, s), CountAll(NO_COUNTS, outs));
  }

  lemma FullRowsAre(t: Tables, outs: seq<Outcome>, gone: set<Path>, s: Stamp)
    ensures var t' := WithGraph(WriteTables(t, Full, gone, outs, s));
            t'.files == PutAll(Clear(t), outs).files && t'.symbols == PutAll(Clear(t), outs).symbols
  {
  }

  lemma SameRows(t: Tables, u: Tables, c: Counts)
    requires t.files == u.files && t.symbols == u.symbols && Dense(t, c.indexed, c.symbols)
    ensures Dense(u, c.indexed, c.symbols)
  {
  }

  /** No code vector has an owner beyond these counts. */
  ghost predicate OwnersWithin(m: Vectors, c: Counts) {
    && (forall k :: k in m && k.owner == FileOwner ==> 1 <= k.id <= c.indexed)
    && (forall k :: k in m && k.owner == SymbolOwner ==> 1 <= k.id <= c.symbols)
  }

  lemma FullVectorsAre(t: Tables, w: World, e: Model, cands: seq<Candidate>, s: Stamp, mems: Memories, m: Vectors, k: VecKey)
    requires Consistent(t) && DistinctRels(cands) && Dimensioned(e) && k.owner != MemoryOwner
    ensures Linked(t)
    ensures k in m ==> k in VectorsAfter(m, t, w, e, Full, cands, s, mems)
    ensures k in VectorsAfter(m, t, w, e, Full, cands, s, mems) && k !in m ==>
      && (k.owner == SymbolOwner ==> k.id in AfterRun(t, w, Full, cands, s).symbols)
      && (k.owner == FileOwner ==> k.id in AfterRun(t, w, Full, cands, s).files)
  {
    var existing := HashesOf(t);
    var outs, gone := ScanAll(w, cands, existing, true, true), existing.Keys - RelSet(cands);
    var t' := AfterRun(t, w, Full, cands, s);
    RunView(t, w, Full, cands, s);
    assert Linked(t');
    hide *;
    WorkDistinct(t', outs);
    FreshIs(e, WorkOf(t', outs));
    VectorsAfterIs(m, t, w, e, Full, cands, s, mems, existing, outs, gone);
    DropSetFull(outs, gone);
    DropNothing(m, t);
    if k in Fresh(e, WorkOf(t', outs)) {
      VectorTheorems.FreshOwners(t', outs, e, k);
    }
    NoMemoryKey(e, mems, k);
  }

  lemma DropSetFull(outs: seq<Outcome>, gone: set<Path>)
    ensures DropSet(Full, outs, gone) == {}
  {
  }

  lemma NoMemoryKey(e: Model, mems: Memories, k: VecKey)
    ensures k in MemoryVectors(e, mems) ==> k.owner == MemoryOwner
  {
  }

  /** The key is kept if it was there, and belongs to a live row if it is new. */
  ghost predicate KeptOrLive(t: Tables, m: Vectors, m': Vectors, k: VecKey) {
    && (k in m ==> k in m')
    && (k in m' && k !in m ==> (k.owner == SymbolOwner ==> k.id in t.symbols) && (k.owner == FileOwner ==> k.id in t.files))
  }

  lemma OwnersExactly(t: Tables, m: Vectors, m': Vectors, c: Counts)
    requires Dense(t, c.indexed, c.symbols) && OwnersCovered(t, m')
    requires forall k: VecKey :: k.owner != MemoryOwner ==> KeptOrLive(t, m, m', k)
    ensures OwnersExact(t, m') <==> OwnersWithin(m, c)
  {
    hide OwnersCovered;
    if OwnersExact(t, m') {
      forall k | k in m && k.owner != MemoryOwner ensures if k.owner == FileOwner then k.id in t.files else k.id in t.symbols {
        assert KeptOrLive(t, m, m', k);
      }
    }
    if OwnersWithin(m, c) {
      forall k | k in m' && k.owner != MemoryOwner ensures if k.owner == FileOwner then k.id in t.files else k.id in t.symbols {
        assert KeptOrLive(t, m, m', k);
      }
    }
  }

  /** A full run leaves exact owners if and only if no code vector was stored for an id beyond the numbers of files
      and symbols it writes: it hands those ids out again, and keeps every vector it finds. */
  lemma FullRunOwnersExactly(t: Tables, w: World, e: Model, cands: seq<Candidate>, s: Stamp, mems: Memories, m: Vectors)
    requires Consistent(t) && DistinctRels(cands) && Dimensioned(e) && w.embedding
    ensures Linked(t)
    ensures OwnersExact(AfterRun(t, w, Full, cands, s), VectorsAfter(m, t, w, e, Full, cands, s, mems))
            <==> OwnersWithin(m, FullCounts(w, cands))
  {
    assert Linked(t);
    hide *;
    var t', m' := AfterRun(t, w, Full, cands, s), VectorsAfter(m, t, w, e, Full, cands, s, mems);
    FullRunDense(t, w, cands, s);
    FullRunCovers(t, w, e, cands, s, mems, m);
    forall k: VecKey | k.owner != MemoryOwner ensures KeptOrLive(t', m, m', k) {
      FullVectorsAre(t, w, e, cands, s, mems, m, k);
      KeptOrLiveIs(t', m, m', k);
    }
    OwnersExactly(t', m, m', FullCounts(w, cands));
  }

  lemma KeptOrLiveIs(t: Tables, m: Vectors, m': Vectors, k: VecKey)
    requires k in m ==> k in m'
    requires k in m' && k !in m ==> (k.owner == SymbolOwner ==> k.id in t.symbols) && (k.owner == FileOwner ==> k.id in t.files)
    ensures KeptOrLive(t, m, m', k)
  {
  }

  lemma NothingWithin(m: Vectors)
    ensures OwnersWithin(m, NO_COUNTS) <==> forall k: VecKey :: k in m ==> k.owner == MemoryOwner
  {
  }

  /** So a full run over a tree from which every file is gone keeps all code vectors, though no row is left. */
  lemma FullRunOverNothing(t: Tables, w: World, e: Model, s: Stamp, mems: Memories, m: Vectors)
    requires Consistent(t) && Dimensioned(e) && w.embedding
    ensures Linked(t)
    ensures OwnersExact(AfterRun(t, w, Full, [], s), VectorsAfter(m, t, w, e, Full, [], s, mems))
            <==> forall k: VecKey :: k in m ==> k.owner == MemoryOwner
  {
    assert FullCounts(w, []) == NO_COUNTS && DistinctRels([]);
    hide *;
    FullRunOwnersExactly(t, w, e, [], s, mems, m);
    NothingWithin(m);
  }
}
