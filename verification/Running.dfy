/** A whole run: scan, capture, metadata transaction, graph transaction, embed phase. */
module Running {
  import opened Base
  import opened Ids
  import opened Digests
  import opened VectorStore
  import opened CodeTables
  import opened CodeView
  import opened CodeStore
  import opened Scanning
  import opened Indexing
  import opened GraphRefresh
  import opened MetadataTheorems
  import opened Embedder
  import opened EmbedSpec
  import opened Embedding

  // ---- what the embed phase may rely on ----

  lemma OutcomesDistinct(w: World, cands: seq<Candidate>, existing: map<Path, Digest>, full: bool)
    requires DistinctRels(cands)
    ensures DistinctOutcomes(ScanAll(w, cands, existing, full, true))
  {
    hide ScanOne;
  }

  /** The parsed paths are the paths the scan writes into the view. */
  lemma ParsedPathsViewed(w: World, cands: seq<Candidate>, existing: map<Path, Digest>, full: bool)
    requires DistinctRels(cands)
    ensures ParsedPaths(ScanAll(w, cands, existing, full, true)) == ParsedView(ScanAll(w, cands, existing, full, true)).Keys
  {
    var outs := ScanAll(w, cands, existing, full, true);
    var v := ParsedView(outs);
    ParsedViewOfScan(w, cands, existing, full);
    hide ParsedView, ScanOne, Rescanned, GroupNow;
    forall p | p in ParsedPaths(outs) ensures p in v {
      var o :| o in outs && o.parsed.Some? && o.rel == p;
      var i :| 0 <= i < |outs| && outs[i] == o;
      ScanOneParses(w, cands[i], existing, full);
      assert ScanEntry(w, cands[i], existing, full, v);
    }
    forall p | p in v ensures p in ParsedPaths(outs) {
      assert p in RelSet(cands);
      var c :| c in cands && c.rel == p;
      var i :| 0 <= i < |cands| && cands[i] == c;
      assert ScanEntry(w, c, existing, full, v);
      ScanOneParses(w, c, existing, full);
      assert outs[i] in outs;
    }
  }

  /** Symbol rows belong to one file each, and a file's ids do not repeat. */
  lemma WorkDistinct(t: Tables, outs: seq<Outcome>)
    requires Linked(t)
    ensures DistinctIds(WorkOf(t, outs))
  {
    var W := WorkOf(t, outs);
    forall f, i, g, j | HasSymbol(W, f, i) && HasSymbol(W, g, j) && W[f].ids[i] == W[g].ids[j] ensures f == g && i == j {
      assert W[f].ids[i] in SymbolIds(t, f) && W[g].ids[j] in SymbolIds(t, g);
      AscendingSorted(SymbolIdSet(t.symbols, f));
    }
  }

  /** Every parsed file has its row after the run. */
  lemma ParsedFilesExist(t: Tables, w: World, mode: Mode, cands: seq<Candidate>, s: Stamp)
    requires Consistent(t) && DistinctRels(cands)
    ensures var outs := ScanAll(w, cands, HashesOf(t), mode == Full, true);
            forall p :: p in ParsedPaths(outs) ==> HasPath(AfterRun(t, w, mode, cands, s), p)
  {
    RunView(t, w, mode, cands, s);
    ParsedPathsViewed(w, cands, HashesOf(t), mode == Full);
    hide AfterRun, ScanAll, ParsedView, HashesOf;
    ViewEntries(AfterRun(t, w, mode, cands, s));
  }

  // ---- the run ----

  /** A failed store transaction is not among the outcomes: Commit shows the store never refuses scanned rows. */
  datatype RunResult = EmbedFailed | Completed(counts: Counts, embedded: nat, embedSkipped: nat)

  /** The layer a completed run leaves: orphans gone, rewritten files and memories embedded anew. */
  ghost function VectorsAfter(m: Vectors, t: Tables, w: World, e: Model, mode: Mode, cands: seq<Candidate>, s: Stamp, mems: Memories): Vectors
    requires Linked(t) && Dimensioned(e)
  {
    var existing := HashesOf(t);
    var outs := ScanAll(w, cands, existing, mode == Full, true);
    Dropped(m, t, DropSet(mode, outs, existing.Keys - RelSet(cands)))
    + Fresh(e, WorkOf(AfterRun(t, w, mode, cands, s), outs))
    + MemoryVectors(e, mems)
  }

  /** What is captured before the write: nothing in a full run. */
  ghost function CapsOf(t: Tables, m: Vectors, e: Model, mode: Mode, outs: seq<Outcome>, gone: set<Path>): Captures
    requires Linked(t)
  {
    if mode == Full then map[] else map p | p in ParsedPaths(outs) + gone :: CaptureOf(t, m, e, p)
  }

  /** The texts of code a run sends to the embedder, in one batch. */
  ghost function RunSent(m: Vectors, t: Tables, w: World, e: Model, mode: Mode, cands: seq<Candidate>, s: Stamp): seq<string>
    requires Linked(t)
  {
    var existing := HashesOf(t);
    var outs := ScanAll(w, cands, existing, mode == Full, true);
    var t' := AfterRun(t, w, mode, cands, s);
    if Linked(t') then Sent(t', e, outs, CapsOf(t, m, e, mode, outs, existing.Keys - RelSet(cands))) else []
  }

  /** The embedder rejects the batch of the files or that of the memories. */
  ghost predicate EmbedFails(m: Vectors, t: Tables, w: World, e: Model, mode: Mode, cands: seq<Candidate>, s: Stamp, mems: Memories)
    requires Linked(t)
  {
    Rejected(e, RunSent(m, t, w, e, mode, cands, s)) || Rejected(e, MemorySent(e, mems, m))
  }

  lemma EmbedFailsIs(m: Vectors, t: Tables, w: World, e: Model, mode: Mode, cands: seq<Candidate>, s: Stamp, mems: Memories)
    requires Linked(t)
    ensures EmbedFails(m, t, w, e, mode, cands, s, mems)
            <==> Rejected(e, RunSent(m, t, w, e, mode, cands, s)) || Rejected(e, MemorySent(e, mems, m))
  {
  }

  /** The run has nothing to drop, parse or embed. */
  ghost predicate Idle(t: Tables, w: World, e: Model, mode: Mode, cands: seq<Candidate>, mems: Memories, m: Vectors)
    requires Linked(t)
  {
    var outs := ScanAll(w, cands, HashesOf(t), mode == Full, true);
    && ParsedPaths(outs) == {} && DropSet(mode, outs, HashesOf(t).Keys - RelSet(cands)) == {}
    && forall id :: id in mems ==> Settled(e, mems, m, [], id)
  }

  lemma IdleIs(t: Tables, w: World, e: Model, mode: Mode, cands: seq<Candidate>, mems: Memories, m: Vectors,
               existing: map<Path, Digest>, outs: seq<Outcome>, gone: set<Path>)
    requires Linked(t) && existing == HashesOf(t) && outs == ScanAll(w, cands, existing, mode == Full, true)
    requires gone == existing.Keys - RelSet(cands)
    ensures Idle(t, w, e, mode, cands, mems, m) ==>
      DropSet(mode, outs, gone) == {} && ParsedPaths(outs) == {} && forall id :: id in mems ==> Settled(e, mems, m, [], id)
  {
  }

  /** A run in one of the three writing modes. The store never refuses the scanned rows; only the embedder can
      fail, and then the metadata is committed and the semantic layer is sound though incomplete. */
  method Run(db: CodeDb, vec: VecTables, w: World, embedder: Option<Model>, mode: Mode, cands: seq<Candidate>, s: Stamp, mems: Memories)
    returns (r: RunResult)
    requires Consistent(db.Snapshot()) && DistinctRels(cands)
    requires embedder.Some? ==> Dimensioned(embedder.value) && SoundThroughout(embedder.value.encode, vec)
    modifies db, vec
    ensures db.Snapshot() == AfterRun(old(db.Snapshot()), w, mode, cands, s) && Consistent(db.Snapshot())
    ensures embedder.None? ==> r.Completed? && unchanged(vec)
    ensures embedder.Some? ==> SoundThroughout(embedder.value.encode, vec) && old(vec.commits) <= vec.commits
    ensures embedder.Some? && r.Completed? ==>
      vec.contents == VectorsAfter(old(vec.contents), old(db.Snapshot()), w, embedder.value, mode, cands, s, mems)
    ensures embedder.Some? && Idle(old(db.Snapshot()), w, embedder.value, mode, cands, mems, old(vec.contents)) ==>
      r.Completed? && r.embedded == 0 && vec.contents == old(vec.contents)
    ensures r.EmbedFailed? ==> SameMemories(old(vec.contents), vec.contents)
    ensures embedder.Some? ==>
      (r.EmbedFailed? <==> EmbedFails(old(vec.contents), old(db.Snapshot()), w, embedder.value, mode, cands, s, mems))
    ensures embedder.Some? && r.Completed? ==>
      r.embedded == |RunSent(old(vec.contents), old(db.Snapshot()), w, embedder.value, mode, cands, s)|
                    + |MemorySent(embedder.value, mems, old(vec.contents))|
    ensures r.Completed? ==>
      var existing := HashesOf(old(db.Snapshot()));
      r.counts == WriteCounts(mode, existing.Keys - RelSet(cands), ScanAll(w, cands, existing, mode == Full, true))
  {
    ghost var t := db.Snapshot();
    assert Linked(t);
    hide *;
    var existing := db.FileHashes();
    var outs := ScanAll(w, cands, existing, mode == Full, true);
    var gone := existing.Keys - RelSet(cands);
    var caps: Captures := map[];
    if embedder.Some? && mode != Full {
      SoundNow(embedder.value.encode, vec);
      caps := CaptureChunks(db, vec, embedder.value, outs, gone);
    } else if embedder.Some? {
      NoCaptures(t, vec.contents, embedder.value);
    }
    var counts := Commit(db, w, mode, cands, existing, outs, s);
    if embedder.None? {
      return Completed(counts, 0, 0);
    }
    ParsedFilesExist(t, w, mode, cands, s);
    OutcomesDistinct(w, cands, existing, mode == Full);
    CapsAre(t, vec.contents, embedder.value, mode, outs, gone, caps);
    RunSentIs(vec.contents, t, w, embedder.value, mode, cands, s, existing, outs, gone);
    var report := EmbedRun(db, vec, embedder.value, mode, outs, caps, gone, mems, t);
    VectorsAfterIs(old(vec.contents), t, w, embedder.value, mode, cands, s, mems, existing, outs, gone);
    EmbedFailsIs(old(vec.contents), t, w, embedder.value, mode, cands, s, mems);
    IdleIs(t, w, embedder.value, mode, cands, mems, old(vec.contents), existing, outs, gone);
    match report
    case Failed => return EmbedFailed;
    case Done(embedded, skipped) => return Completed(counts, embedded, skipped);
  }

  /** The two metadata transactions. The scanned rows are never refused, so neither rolls back. */
  method Commit(db: CodeDb, w: World, mode: Mode, cands: seq<Candidate>, existing: map<Path, Digest>, outs: seq<Outcome>, s: Stamp)
    returns (counts: Counts)
    requires Consistent(db.Snapshot()) && DistinctRels(cands)
    requires existing == HashesOf(db.Snapshot()) && outs == ScanAll(w, cands, existing, mode == Full, true)
    modifies db
    ensures db.Snapshot() == AfterRun(old(db.Snapshot()), w, mode, cands, s)
    ensures Consistent(db.Snapshot()) && Linked(db.Snapshot())
    ensures counts == WriteCounts(mode, existing.Keys - RelSet(cands), outs)
  {
    ghost var t := db.Snapshot();
    assert Linked(t);
    hide *;
    var gone := existing.Keys - RelSet(cands);
    ScanWritable(w, cands, existing, mode == Full, true);
    RunView(t, w, mode, cands, s);
    WrittenLinked(t, mode, gone, outs, s);
    AfterRunIs(t, w, mode, cands, s, existing, outs, gone);
    var written := Write(db, mode, cands, existing, outs, s);
    ResolveGraphEdges(db);
    ConsistentLinked(db.Snapshot());
    counts := written.value;
  }

  /** The embed phase with the captures the run took: all of the rewritten and vanished files, or none in a full run. */
  method EmbedRun(db: CodeDb, vec: VecTables, e: Model, mode: Mode, outs: seq<Outcome>, caps: Captures,
                  gone: set<Path>, mems: Memories, ghost before: Tables) returns (r: Report)
    requires SoundThroughout(e.encode, vec) && Dimensioned(e)
    requires Linked(before) && Linked(db.Snapshot()) && DistinctOutcomes(outs)
    requires forall p :: p in ParsedPaths(outs) ==> HasPath(db.Snapshot(), p)
    requires CapturedAll(before, vec.contents, e, caps)
    requires if mode == Full then caps == map[] else ParsedPaths(outs) + gone <= caps.Keys
    modifies vec
    ensures SoundThroughout(e.encode, vec) && old(vec.commits) <= vec.commits
    ensures r.Done? ==>
      vec.contents == Dropped(old(vec.contents), before, DropSet(mode, outs, gone)) + Fresh(e, WorkOf(db.Snapshot(), outs)) + MemoryVectors(e, mems)
    ensures r.Failed? ==> SameMemories(old(vec.contents), vec.contents)
    ensures DropSet(mode, outs, gone) == {} && ParsedPaths(outs) == {} && (forall id :: id in mems ==> Settled(e, mems, old(vec.contents), [], id))
      ==> r.Done? && r.embedded == 0 && vec.contents == old(vec.contents)
    ensures r.Failed? <==> Rejected(e, Sent(db.Snapshot(), e, outs, caps)) || Rejected(e, MemorySent(e, mems, old(vec.contents)))
    ensures r.Done? ==> r.embedded == |Sent(db.Snapshot(), e, outs, caps)| + |MemorySent(e, mems, old(vec.contents))|
  {
    hide *;
    WorkDistinct(db.Snapshot(), outs);
    DropSetWithin(mode, outs, gone);
    SoundNow(e.encode, vec);
    CapturedFacts(before, vec.contents, e, caps, if mode == Full then {} else DropSet(mode, outs, gone));
    r := EmbedPhase(db, vec, e, mode, outs, caps, gone, mems, before);
  }

  lemma WrittenLinked(t: Tables, mode: Mode, gone: set<Path>, outs: seq<Outcome>, s: Stamp)
    requires Consistent(t)
    ensures Consistent(WriteTables(t, mode, gone, outs, s)) && Linked(WriteTables(t, mode, gone, outs, s))
  {
    WriteView(t, mode, gone, outs, s);
  }

  lemma AfterRunIs(t: Tables, w: World, mode: Mode, cands: seq<Candidate>, s: Stamp, existing: map<Path, Digest>, outs: seq<Outcome>, gone: set<Path>)
    requires Linked(t) && existing == HashesOf(t) && outs == ScanAll(w, cands, existing, mode == Full, true)
    requires gone == existing.Keys - RelSet(cands)
    ensures AfterRun(t, w, mode, cands, s) == WithGraph(WriteTables(t, mode, gone, outs, s))
  {
  }

  lemma SoundNow(enc: Encoder, vec: VecTables)
    requires SoundThroughout(enc, vec)
    ensures vec.Valid() && CacheSound(enc, vec.contents)
  {
  }

  lemma NoCaptures(t: Tables, m: Vectors, e: Model)
    requires Linked(t)
    ensures CapturedAll(t, m, e, map[])
  {
  }

  lemma CapsAre(t: Tables, m: Vectors, e: Model, mode: Mode, outs: seq<Outcome>, gone: set<Path>, caps: Captures)
    requires Linked(t) && CapturedAll(t, m, e, caps)
    requires caps.Keys == if mode == Full then {} else ParsedPaths(outs) + gone
    ensures caps == CapsOf(t, m, e, mode, outs, gone)
  {
    hide CaptureOf, Linked;
  }

  lemma RunSentIs(m: Vectors, t: Tables, w: World, e: Model, mode: Mode, cands: seq<Candidate>, s: Stamp,
                  existing: map<Path, Digest>, outs: seq<Outcome>, gone: set<Path>)
    requires Linked(t) && existing == HashesOf(t) && outs == ScanAll(w, cands, existing, mode == Full, true)
    requires gone == existing.Keys - RelSet(cands)
    ensures Linked(AfterRun(t, w, mode, cands, s)) ==>
      RunSent(m, t, w, e, mode, cands, s) == Sent(AfterRun(t, w, mode, cands, s), e, outs, CapsOf(t, m, e, mode, outs, gone))
  {
  }

  lemma DropSetWithin(mode: Mode, outs: seq<Outcome>, gone: set<Path>)
    ensures DropSet(mode, outs, gone) <= ParsedPaths(outs) + gone
  {
  }

  lemma VectorsAfterIs(m: Vectors, t: Tables, w: World, e: Model, mode: Mode, cands: seq<Candidate>, s: Stamp, mems: Memories,
                       existing: map<Path, Digest>, outs: seq<Outcome>, gone: set<Path>)
    requires Linked(t) && Dimensioned(e) && existing == HashesOf(t) && outs == ScanAll(w, cands, existing, mode == Full, true)
    requires gone == existing.Keys - RelSet(cands)
    ensures VectorsAfter(m, t, w, e, mode, cands, s, mems) ==
            Dropped(m, t, DropSet(mode, outs, gone)) + Fresh(e, WorkOf(AfterRun(t, w, mode, cands, s), outs)) + MemoryVectors(e, mems)
  {
  }

  /** Drops all index data. Without an embedder the semantic layer is left as it is. */
  method RunClean(db: CodeDb, vec: VecTables, embedder: Option<Model>, at: string) returns (deleted: nat)
    requires embedder.Some? ==> SoundThroughout(embedder.value.encode, vec)
    modifies db, vec
    ensures db.Snapshot() == AfterClean(old(db.Snapshot()), at)
    ensures deleted == |old(db.files)|
    ensures embedder.Some? ==>
      SoundThroughout(embedder.value.encode, vec) && vec.contents == map[] && vec.commits == old(vec.commits) + [map[]]
    ensures embedder.None? ==> unchanged(vec)
  {
    deleted := |db.files|;
    db.ClearIndex();
    db.SetIndexState("", false, 0, 0, at);
    if embedder.Some? {
      vec.ClearVectors();
    }
  }
}
