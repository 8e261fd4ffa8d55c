/** The embed phase: capture before the write, drop, carry, embed, derive, then memories. */
module Embedding {
  import opened Base
  import opened Text
  import opened Digests
  import opened FloatCodec
  import opened VectorStore
  import opened Extraction
  import opened CodeTables
  import opened CodeView
  import opened CodeStore
  import opened Scanning
  import opened Indexing
  import opened Embedder
  import opened EmbedSpec
  import Ids

  /** The snapshot of a file's stored symbol vectors, keyed by symbol identity. Row id 0 is "no file". */
  datatype FileCapture = FileCapture(oldFileId: Id, oldSymbolIds: seq<Id>, byIdentity: map<string, Entry>)

  const NO_CAPTURE := FileCapture(0, [], map[])

  type Captures = map<Path, FileCapture>

  function CaptureAt(caps: Captures, p: Path): FileCapture {
    if p in caps then caps[p] else NO_CAPTURE
  }

  function SymbolIdentity(name: string, container: string, signature: string): string {
    container + [NUL] + name + [NUL] + signature
  }

  function IdentityOf(r: SymbolRecord): string {
    SymbolIdentity(r.name, r.container, r.signature)
  }

  /** The stored entries of these symbols by identity. Two symbols of a file share one only if a name holds NUL. */
  function ByIdentity(e: Model, m: Vectors, symbols: map<Id, SymbolRow>, ids: seq<Id>): map<string, Entry> {
    if ids == [] then map[]
    else
      var rest, id := ByIdentity(e, m, symbols, ids[..|ids| - 1]), ids[|ids| - 1];
      if id in symbols && SymKey(e, id) in m then rest[IdentityOf(symbols[id].rec) := m[SymKey(e, id)]] else rest
  }

  /** The rows a path has in t, and what the layer m holds for them under the model. */
  ghost function CaptureOf(t: Tables, m: Vectors, e: Model, p: Path): FileCapture
    requires Linked(t)
  {
    if HasPath(t, p) then
      var ids := SymbolIds(t, IdAt(t, p));
      FileCapture(IdAt(t, p), ids, ByIdentity(e, m, t.symbols, ids))
    else NO_CAPTURE
  }

  /** Every captured chunk is some text's digest and vector. */
  ghost predicate CaptureSound(e: Model, cap: FileCapture) {
    forall key :: key in cap.byIdentity ==> IsChunk(e.encode, e.name, cap.byIdentity[key])
  }

  /** The capture names the rows path has in t. */
  ghost predicate CapturesRows(t: Tables, p: Path, cap: FileCapture)
    requires Linked(t)
  {
    if HasPath(t, p) then cap.oldFileId == IdAt(t, p) && cap.oldSymbolIds == SymbolIds(t, IdAt(t, p))
    else cap.oldFileId == 0 && cap.oldSymbolIds == []
  }

  // ---- writing towards a target ----

  /** The layer went from a to b by writing the target's value at exactly these keys. */
  ghost predicate Writes(F: Vectors, a: Vectors, b: Vectors, keys: set<VecKey>) {
    && keys <= F.Keys
    && b == a + Part(F, keys)
  }

  function Part(F: Vectors, keys: set<VecKey>): Vectors {
    map k | k in keys && k in F :: F[k]
  }

  lemma WritesNone(F: Vectors, a: Vectors)
    ensures Writes(F, a, a, {})
  {
    assert Part(F, {}) == map[];
  }

  lemma WritesOne(F: Vectors, a: Vectors, b: Vectors, keys: set<VecKey>, k: VecKey)
    requires Writes(F, a, b, keys) && k in F
    ensures Writes(F, a, b[k := F[k]], keys + {k})
  {
  }

  lemma WritesAll(F: Vectors, a: Vectors, b: Vectors)
    requires Writes(F, a, b, F.Keys)
    ensures b == a + F
  {
  }

  /** Storing a sound entry keeps the layer sound, now and in its history. */
  method Store(enc: Encoder, vec: VecTables, owner: OwnerType, id: Id, model: string, sha: Digest, v: Vec)
    requires SoundThroughout(enc, vec)
    requires SoundEntry(enc, VecKey(owner, id, model), Entry(sha, v))
    modifies vec
    ensures old(vec.commits) <= vec.commits
    ensures SoundThroughout(enc, vec)
    ensures vec.contents == old(vec.contents)[VecKey(owner, id, model) := Entry(sha, v)]
  {
    vec.UpsertVector(owner, id, model, sha, v);
  }

  method Drop(enc: Encoder, vec: VecTables, owner: OwnerType, ids: seq<Id>)
    requires SoundThroughout(enc, vec)
    modifies vec
    ensures old(vec.commits) <= vec.commits
    ensures SoundThroughout(enc, vec)
    ensures vec.contents == WithoutOwners(old(vec.contents), owner, ids)
  {
    vec.DeleteVectors(owner, ids);
  }

  /** Equal digests mean equal texts, so a carried vector is the vector the text would get. */
  lemma CarryIsFresh(e: Model, x: Entry, text: string)
    requires IsChunk(e.encode, e.name, x) && x.sha == ChunkSha(e.name, text)
    ensures x == EntryFor(e, text)
  {
    var u :| x == Entry(ChunkSha(e.name, u), e.encode(e.name, u));
    ChunkShaInjective(e.name, text, u);
  }

  lemma ChunkIsSound(e: Model, k: VecKey, text: string)
    requires k.model == e.name
    ensures SoundEntry(e.encode, k, EntryFor(e, text))
  {
    assert IsChunk(e.encode, k.model, EntryFor(e, text));
  }

  // ---- before the write: capturing ----

  lemma ChunkSound(e: Model, m: Vectors, id: Id)
    requires CacheSound(e.encode, m) && SymKey(e, id) in m
    ensures IsChunk(e.encode, e.name, m[SymKey(e, id)])
  {
    assert SoundEntry(e.encode, SymKey(e, id), m[SymKey(e, id)]);
  }

  lemma {:induction false} ByIdentitySound(e: Model, m: Vectors, symbols: map<Id, SymbolRow>, ids: seq<Id>)
    requires CacheSound(e.encode, m)
    ensures forall key :: key in ByIdentity(e, m, symbols, ids) ==> IsChunk(e.encode, e.name, ByIdentity(e, m, symbols, ids)[key])
  {
    hide CacheSound, IsChunk, IdentityOf;
    if ids != [] {
      ByIdentitySound(e, m, symbols, ids[..|ids| - 1]);
      if SymKey(e, ids[|ids| - 1]) in m {
        ChunkSound(e, m, ids[|ids| - 1]);
      }
    }
  }

  /** A capture of a sound layer names the path's rows and holds sound chunks. */
  lemma CaptureOfIs(t: Tables, m: Vectors, e: Model, p: Path)
    requires Linked(t) && CacheSound(e.encode, m)
    ensures CapturesRows(t, p, CaptureOf(t, m, e, p)) && CaptureSound(e, CaptureOf(t, m, e, p))
  {
    if HasPath(t, p) {
      ByIdentitySound(e, m, t.symbols, SymbolIds(t, IdAt(t, p)));
    }
    hide Linked, CacheSound, ByIdentity, IsChunk, SymbolIds;
  }

  /** One file's stored symbol vectors, keyed by identity. */
  method CaptureFile(db: CodeDb, vec: VecTables, e: Model, path: Path) returns (cap: FileCapture)
    requires vec.Valid() && Linked(db.Snapshot())
    ensures cap == CaptureOf(db.Snapshot(), vec.contents, e, path)
  {
    var found := db.FileByPath(path);
    if found.None? {
      return NO_CAPTURE;
    }
    var ids := SymbolIds(db.Snapshot(), found.value);
    var byIdentity := CaptureSymbols(vec, e, db.symbols, ids);
    cap := FileCapture(found.value, ids, byIdentity);
  }

  lemma ByIdentitySnoc(e: Model, m: Vectors, symbols: map<Id, SymbolRow>, ids: seq<Id>, i: nat)
    requires i < |ids|
    ensures var rest, key := ByIdentity(e, m, symbols, ids[..i]), VecKey(SymbolOwner, ids[i], e.name);
            ByIdentity(e, m, symbols, ids[..i + 1]) ==
            if ids[i] in symbols && key in m then rest[IdentityOf(symbols[ids[i]].rec) := m[key]] else rest
  {
    assert ids[..i + 1][..i] == ids[..i];
    hide IdentityOf;
  }

  lemma NothingByIdentity(e: Model, m: Vectors, symbols: map<Id, SymbolRow>)
    ensures ByIdentity(e, m, symbols, []) == map[]
  {
  }

  method CaptureSymbols(vec: VecTables, e: Model, symbols: map<Id, SymbolRow>, ids: seq<Id>) returns (byIdentity: map<string, Entry>)
    requires vec.Valid()
    ensures byIdentity == ByIdentity(e, vec.contents, symbols, ids)
  {
    hide *;
    NothingByIdentity(e, vec.contents, symbols);
    assert ids[..0] == [];
    byIdentity := map[];
    var i := 0;
    while i < |ids|
      invariant 0 <= i <= |ids|
      invariant byIdentity == ByIdentity(e, vec.contents, symbols, ids[..i])
    {
      ByIdentitySnoc(e, vec.contents, symbols, ids, i);
      var chunk := vec.Chunk(SymbolOwner, ids[i], e.name);
      if chunk.Some? && ids[i] in symbols {
        byIdentity := byIdentity[IdentityOf(symbols[ids[i]].rec) := chunk.value];
      }
      i := i + 1;
    }
    assert ids[..i] == ids;
  }

  ghost predicate CapturedAll(t: Tables, m: Vectors, e: Model, caps: Captures)
    requires Linked(t)
  {
    forall p :: p in caps ==> caps[p] == CaptureOf(t, m, e, p)
  }

  /** Snapshots the files about to be rewritten, and the vanished ones. */
  method CaptureChunks(db: CodeDb, vec: VecTables, e: Model, outs: seq<Outcome>, gone: set<Path>) returns (caps: Captures)
    requires vec.Valid() && Linked(db.Snapshot())
    ensures CapturedAll(db.Snapshot(), vec.contents, e, caps)
    ensures caps.Keys == ParsedPaths(outs) + gone
  {
    hide VecTables.Valid, CaptureOf, Linked;
    caps := map[];
    var i := 0;
    while i < |outs|
      invariant 0 <= i <= |outs|
      invariant CapturedAll(db.Snapshot(), vec.contents, e, caps)
      invariant ParsedPaths(outs[..i]) == caps.Keys
    {
      ParsedPathsSnoc(outs, i);
      if outs[i].parsed.Some? && outs[i].rel !in caps {
        var cap := CaptureFile(db, vec, e, outs[i].rel);
        caps := caps[outs[i].rel := cap];
      }
      i := i + 1;
    }
    assert outs[..i] == outs;
    var todo := gone;
    while todo != {}
      invariant todo <= gone
      invariant CapturedAll(db.Snapshot(), vec.contents, e, caps)
      invariant ParsedPaths(outs) + (gone - todo) == caps.Keys
      decreases todo
    {
      var p :| p in todo;
      todo := todo - {p};
      if p !in caps {
        var cap := CaptureFile(db, vec, e, p);
        caps := caps[p := cap];
      }
    }
    assert gone - todo == gone;
  }

  lemma CapturedFacts(t: Tables, m: Vectors, e: Model, caps: Captures, paths: set<Path>)
    requires Linked(t) && CapturedAll(t, m, e, caps) && CacheSound(e.encode, m) && paths <= caps.Keys
    ensures forall p :: p in paths ==> CapturesRows(t, p, CaptureAt(caps, p))
    ensures forall p :: CaptureSound(e, CaptureAt(caps, p))
  {
    hide CapturesRows, CaptureSound, CaptureOf, CacheSound, Linked;
    forall p | p in caps ensures CapturesRows(t, p, caps[p]) && CaptureSound(e, caps[p]) {
      CaptureOfIs(t, m, e, p);
    }
    assert CaptureSound(e, NO_CAPTURE) by { NothingCaptured(e); }
  }

  lemma NothingCaptured(e: Model)
    ensures CaptureSound(e, NO_CAPTURE)
  {
  }

  // ---- 1. dropping ----

  function WithoutCapture(m: Vectors, cap: FileCapture): Vectors {
    if cap.oldFileId == 0 then m
    else WithoutOwners(WithoutOwners(m, SymbolOwner, cap.oldSymbolIds), FileOwner, [cap.oldFileId])
  }

  lemma DropOneFile(m: Vectors, t: Tables, paths: set<Path>, p: Path, cap: FileCapture)
    requires Linked(t) && CapturesRows(t, p, cap)
    ensures Dropped(m, t, paths + {p}) == WithoutCapture(Dropped(m, t, paths), cap)
  {
    if HasPath(t, p) {
      var id := IdAt(t, p);
      assert id != 0;
      forall k ensures OwnedBy(t, {p}, k) <==>
          (k.owner == SymbolOwner && k.id in cap.oldSymbolIds) || (k.owner == FileOwner && k.id in [cap.oldFileId]) {
        assert k.owner == SymbolOwner ==> (k.id in SymbolIds(t, id) <==> k.id in t.symbols && t.symbols[k.id].fileId == id);
      }
    } else {
      forall k ensures !OwnedBy(t, {p}, k) {}
    }
    hide Linked, CapturesRows;
    assert forall k :: OwnedBy(t, paths + {p}, k) <==> OwnedBy(t, paths, k) || OwnedBy(t, {p}, k);
  }

  method DropCaptured(enc: Encoder, vec: VecTables, cap: FileCapture)
    requires SoundThroughout(enc, vec)
    modifies vec
    ensures old(vec.commits) <= vec.commits
    ensures SoundThroughout(enc, vec)
    ensures vec.contents == WithoutCapture(old(vec.contents), cap)
  {
    if cap.oldFileId == 0 {
      return;
    }
    if |cap.oldSymbolIds| > 0 {
      Drop(enc, vec, SymbolOwner, cap.oldSymbolIds);
    } else {
      assert vec.contents == WithoutOwners(vec.contents, SymbolOwner, []);
    }
    Drop(enc, vec, FileOwner, [cap.oldFileId]);
  }

  /** Drops the files of the given paths, in any order. */
  method DropPaths(enc: Encoder, vec: VecTables, caps: Captures, paths: set<Path>, ghost t: Tables, ghost before: Vectors, ghost done: set<Path>)
    requires SoundThroughout(enc, vec) && Linked(t)
    requires forall p :: p in paths ==> CapturesRows(t, p, CaptureAt(caps, p))
    requires vec.contents == Dropped(before, t, done)
    modifies vec
    ensures old(vec.commits) <= vec.commits
    ensures SoundThroughout(enc, vec)
    ensures vec.contents == Dropped(before, t, done + paths)
  {
    hide SoundThroughout, Linked, CapturesRows, Dropped, CaptureAt;
    var todo := paths;
    assert done + (paths - todo) == done;
    while todo != {}
      invariant todo <= paths
      invariant SoundThroughout(enc, vec)
      invariant old(vec.commits) <= vec.commits
      invariant vec.contents == Dropped(before, t, done + (paths - todo))
      decreases todo
    {
      var p :| p in todo;
      DropOneFile(before, t, done + (paths - todo), p, CaptureAt(caps, p));
      assert done + (paths - (todo - {p})) == done + (paths - todo) + {p};
      todo := todo - {p};
      DropCaptured(enc, vec, CaptureAt(caps, p));
    }
    assert done + (paths - todo) == done + paths;
  }

  /** Step 1: the vectors the write orphaned. A full run has no captures, and drops nothing. */
  method DropOrphans(enc: Encoder, vec: VecTables, mode: Mode, outs: seq<Outcome>, caps: Captures, gone: set<Path>, ghost t: Tables)
    requires SoundThroughout(enc, vec) && Linked(t)
    requires mode == Full ==> caps == map[]
    requires mode != Full ==> forall p :: p in DropSet(mode, outs, gone) ==> CapturesRows(t, p, CaptureAt(caps, p))
    modifies vec
    ensures old(vec.commits) <= vec.commits
    ensures SoundThroughout(enc, vec)
    ensures vec.contents == Dropped(old(vec.contents), t, DropSet(mode, outs, gone))
  {
    ghost var before := vec.contents;
    hide SoundThroughout, Linked, CapturesRows, Dropped, CaptureAt;
    DropParsed(enc, vec, mode, outs, caps, t);
    if mode == Incremental {
      DropPaths(enc, vec, caps, gone, t, before, ParsedPaths(outs));
    }
  }

  method DropParsed(enc: Encoder, vec: VecTables, mode: Mode, outs: seq<Outcome>, caps: Captures, ghost t: Tables)
    requires SoundThroughout(enc, vec) && Linked(t)
    requires mode == Full ==> caps == map[]
    requires mode != Full ==> forall p :: p in ParsedPaths(outs) ==> CapturesRows(t, p, CaptureAt(caps, p))
    modifies vec
    ensures old(vec.commits) <= vec.commits
    ensures SoundThroughout(enc, vec)
    ensures vec.contents == Dropped(old(vec.contents), t, OrphanPaths(mode, outs))
  {
    hide SoundThroughout, Linked, CapturesRows, Dropped, CaptureAt, ParsedPaths, WithoutCapture, OrphanPaths;
    ghost var before := vec.contents;
    NoOrphans(before, t, mode, outs);
    var i := 0;
    while i < |outs|
      invariant 0 <= i <= |outs|
      invariant SoundThroughout(enc, vec)
      invariant old(vec.commits) <= vec.commits
      invariant vec.contents == Dropped(before, t, OrphanPaths(mode, outs[..i]))
    {
      OrphanStep(before, t, mode, outs, i, caps);
      if outs[i].parsed.Some? {
        DropCaptured(enc, vec, CaptureAt(caps, outs[i].rel));
      }
      i := i + 1;
    }
    assert outs[..i] == outs;
  }

  lemma NoOrphans(m: Vectors, t: Tables, mode: Mode, outs: seq<Outcome>)
    ensures Dropped(m, t, OrphanPaths(mode, outs[..0])) == m
  {
    DropNothing(m, t);
    assert ParsedPaths(outs[..0]) == {};
  }

  function OrphanPaths(mode: Mode, outs: seq<Outcome>): set<Path> {
    if mode == Full then {} else ParsedPaths(outs)
  }

  lemma OrphanStep(m: Vectors, t: Tables, mode: Mode, outs: seq<Outcome>, i: int, caps: Captures)
    requires Linked(t) && 0 <= i < |outs|
    requires mode == Full ==> caps == map[]
    requires mode != Full ==> forall p :: p in ParsedPaths(outs) ==> CapturesRows(t, p, CaptureAt(caps, p))
    ensures Dropped(m, t, OrphanPaths(mode, outs[..i + 1])) ==
            var d := Dropped(m, t, OrphanPaths(mode, outs[..i]));
            if outs[i].parsed.Some? then WithoutCapture(d, CaptureAt(caps, outs[i].rel)) else d
  {
    ParsedPathsSnoc(outs, i);
    hide Linked, CapturesRows, Dropped, ParsedPaths;
    if outs[i].parsed.Some? && mode != Full {
      hide WithoutCapture, CaptureAt;
      DropOneFile(m, t, ParsedPaths(outs[..i]), outs[i].rel, CaptureAt(caps, outs[i].rel));
    }
  }

  lemma DropNothing(m: Vectors, t: Tables)
    ensures Dropped(m, t, {}) == m
  {
  }

  lemma ParsedPathsSnoc(outs: seq<Outcome>, i: int)
    requires 0 <= i < |outs|
    ensures ParsedPaths(outs[..i + 1]) == ParsedPaths(outs[..i]) + if outs[i].parsed.Some? then {outs[i].rel} else {}
    ensures outs[i].parsed.Some? ==> outs[i].rel in ParsedPaths(outs)
    ensures ParsedPaths(outs[..i]) <= ParsedPaths(outs)
  {
    assert outs[..i + 1] == outs[..i] + [outs[i]];
  }

  // ---- 2. planning: carry or queue ----

  datatype SymJob = SymJob(fileId: Id, symbolId: Id, slot: nat, text: string, sha: Digest)

  datatype FileJob = FileJob(fileId: Id, sha: Digest)

  /** The job is the embedding of one symbol of the work. */
  ghost predicate JobFits(e: Model, W: WorkMap, j: SymJob) {
    && HasSymbol(W, j.fileId, j.slot)
    && j.symbolId == W[j.fileId].ids[j.slot]
    && j.text == TextAt(W[j.fileId], j.slot)
    && j.sha == ChunkSha(e.name, j.text)
  }

  /** Some queued job from position k on fills this slot. */
  ghost predicate Queued(jobs: seq<SymJob>, k: int, f: Id, i: int) {
    exists n :: k <= n < |jobs| && 0 <= n && jobs[n].fileId == f && jobs[n].slot == i
  }

  /** A filled slot holds the symbol's vector, already stored; an empty one is still queued. */
  ghost predicate SlotFits(e: Model, w: Work, f: Id, i: int, s: Slot, jobs: seq<SymJob>, k: int, keys: set<VecKey>)
    requires 0 <= i < Count(w)
  {
    match s
    case Filled(v) => v == e.encode(e.name, TextAt(w, i)) && SymKey(e, w.ids[i]) in keys
    case Unset => Queued(jobs, k, f, i)
  }

  lemma QueuedMore(jobs: seq<SymJob>, j: SymJob, k: int, f: Id, i: int)
    requires 0 <= k <= |jobs|
    ensures Queued(jobs, k, f, i) ==> Queued(jobs + [j], k, f, i)
    ensures Queued(jobs + [j], k, j.fileId, j.slot)
  {
    var all := jobs + [j];
    if Queued(jobs, k, f, i) {
      var n :| k <= n < |jobs| && 0 <= n && jobs[n].fileId == f && jobs[n].slot == i;
      assert all[n] == jobs[n];
    }
    assert all[|jobs|] == j;
  }

  /** The first n slots are right. */
  ghost predicate SlotsUpTo(e: Model, w: Work, f: Id, slots: seq<Slot>, n: int, jobs: seq<SymJob>, k: int, keys: set<VecKey>) {
    && 0 <= n <= |slots| && n <= Count(w)
    && forall i :: 0 <= i < n ==> SlotFits(e, w, f, i, slots[i], jobs, k, keys)
  }

  /** Queueing more jobs and storing more keys keeps the slots right. */
  lemma SlotsKeep(e: Model, w: Work, f: Id, slots: seq<Slot>, n: int, jobs: seq<SymJob>, jobs': seq<SymJob>, keys: set<VecKey>, keys': set<VecKey>)
    requires SlotsUpTo(e, w, f, slots, n, jobs, 0, keys)
    requires jobs <= jobs' && keys <= keys'
    ensures SlotsUpTo(e, w, f, slots, n, jobs', 0, keys')
  {
    forall i | 0 <= i < n ensures SlotFits(e, w, f, i, slots[i], jobs', 0, keys') {
      assert SlotFits(e, w, f, i, slots[i], jobs, 0, keys);
      if slots[i].Unset? {
        var m :| 0 <= m < |jobs| && jobs[m].fileId == f && jobs[m].slot == i;
        assert jobs'[m] == jobs[m];
      }
    }
  }

  lemma SlotAppend(e: Model, w: Work, f: Id, slots: seq<Slot>, s: Slot, jobs: seq<SymJob>, k: int, keys: set<VecKey>)
    requires SlotsUpTo(e, w, f, slots, |slots|, jobs, k, keys) && |slots| < Count(w)
    requires SlotFits(e, w, f, |slots|, s, jobs, k, keys)
    ensures SlotsUpTo(e, w, f, slots + [s], |slots| + 1, jobs, k, keys)
  {
    hide SlotFits;
    var all := slots + [s];
    forall i | 0 <= i < |all| ensures SlotFits(e, w, f, i, all[i], jobs, k, keys) {
      if i < |slots| {
        assert SlotFits(e, w, f, i, slots[i], jobs, k, keys);
      }
    }
  }

  lemma FreshSymbol(e: Model, W: WorkMap, F: Vectors, f: Id, i: int)
    requires Dimensioned(e) && IsFresh(e, W, F) && HasSymbol(W, f, i)
    ensures SymKey(e, W[f].ids[i]) in F
    ensures F[SymKey(e, W[f].ids[i])] == EntryFor(e, TextAt(W[f], i))
    ensures SoundEntry(e.encode, SymKey(e, W[f].ids[i]), EntryFor(e, TextAt(W[f], i)))
  {
    ChunkIsSound(e, SymKey(e, W[f].ids[i]), TextAt(W[f], i));
  }

  /** A captured chunk with the new text's digest is the entry the target wants. */
  lemma CarriedEntry(e: Model, cap: FileCapture, key: string, text: string)
    requires CaptureSound(e, cap) && key in cap.byIdentity && cap.byIdentity[key].sha == ChunkSha(e.name, text)
    ensures cap.byIdentity[key] == EntryFor(e, text)
  {
    CarryIsFresh(e, cap.byIdentity[key], text);
  }

  /** What planning has to keep: the layer is on its way to F, the queue holds jobs of the work. */
  ghost predicate Underway(e: Model, W: WorkMap, F: Vectors, start: Vectors, now: Vectors, keys: set<VecKey>, jobs: seq<SymJob>) {
    && Writes(F, start, now, keys)
    && forall j :: j in jobs ==> JobFits(e, W, j)
  }

  lemma UnderwayStored(e: Model, W: WorkMap, F: Vectors, start: Vectors, now: Vectors, keys: set<VecKey>, jobs: seq<SymJob>, k: VecKey)
    requires Underway(e, W, F, start, now, keys, jobs) && k in F
    ensures Underway(e, W, F, start, now[k := F[k]], keys + {k}, jobs)
  {
    WritesOne(F, start, now, keys, k);
  }

  lemma UnderwayQueued(e: Model, W: WorkMap, F: Vectors, start: Vectors, now: Vectors, keys: set<VecKey>, jobs: seq<SymJob>, j: SymJob)
    requires Underway(e, W, F, start, now, keys, jobs) && JobFits(e, W, j)
    ensures Underway(e, W, F, start, now, keys, jobs + [j])
  {
  }

  /** The symbol's stored vector is kept: same identity, same text under this model, right dimension. */
  predicate Carries(e: Model, cap: FileCapture, s: Symbol, text: string) {
    var key := SymbolIdentity(s.name, s.container, s.signature);
    key in cap.byIdentity && cap.byIdentity[key].sha == ChunkSha(e.name, text) && |cap.byIdentity[key].vec| == e.dim
  }

  /** The texts of the first n symbols that are not carried. */
  function QueuedTexts(e: Model, w: Work, cap: FileCapture, n: nat): seq<string>
    requires n <= Count(w)
  {
    if n == 0 then []
    else if Carries(e, cap, w.p.exsyms[n - 1], TextAt(w, n - 1)) then QueuedTexts(e, w, cap, n - 1)
    else QueuedTexts(e, w, cap, n - 1) + [TextAt(w, n - 1)]
  }

  lemma QueuedSnoc(e: Model, w: Work, cap: FileCapture, i: nat)
    requires i < Count(w)
    ensures QueuedTexts(e, w, cap, i + 1) ==
      if Carries(e, cap, w.p.exsyms[i], TextAt(w, i)) then QueuedTexts(e, w, cap, i) else QueuedTexts(e, w, cap, i) + [TextAt(w, i)]
    ensures i == 0 ==> QueuedTexts(e, w, cap, i) == []
  {
  }

  function JobTexts(jobs: seq<SymJob>): (r: seq<string>)
    ensures |r| == |jobs| && forall i :: 0 <= i < |jobs| ==> r[i] == jobs[i].text
  {
    seq(|jobs|, i requires 0 <= i < |jobs| => jobs[i].text)
  }

  lemma JobTextsMore(queue: seq<SymJob>, jobs: seq<SymJob>, more: seq<string>, j: SymJob)
    requires JobTexts(jobs) == JobTexts(queue) + more
    ensures JobTexts(jobs + [j]) == JobTexts(queue) + (more + [j.text])
  {
    assert JobTexts(jobs + [j]) == JobTexts(jobs) + [j.text];
  }

  /** One file of the plan: carry what is unchanged, queue the rest. */
  method PlanSymbols(vec: VecTables, e: Model, f: Id, w: Work, cap: FileCapture, queue: seq<SymJob>,
                     ghost W: WorkMap, ghost F: Vectors, ghost start: Vectors, ghost keys: set<VecKey>)
    returns (slots: seq<Slot>, jobs: seq<SymJob>, skipped: nat, ghost keys': set<VecKey>)
    requires SoundThroughout(e.encode, vec) && Dimensioned(e) && IsFresh(e, W, F)
    requires f in W && W[f] == w && |w.p.symbols| > 0 && CaptureSound(e, cap)
    requires Underway(e, W, F, start, vec.contents, keys, queue)
    modifies vec
    ensures old(vec.commits) <= vec.commits
    ensures SoundThroughout(e.encode, vec)
    ensures Underway(e, W, F, start, vec.contents, keys', jobs)
    ensures keys <= keys' && queue <= jobs
    ensures |slots| == Count(w) && SlotsUpTo(e, w, f, slots, |slots|, jobs, 0, keys')
    ensures skipped + |jobs| == |queue| + Count(w)
    ensures JobTexts(jobs) == JobTexts(queue) + QueuedTexts(e, w, cap, Count(w))
  {
    hide *;
    slots, jobs, skipped, keys' := [], queue, 0, keys;
    NoSlots(e, w, f, jobs, keys');
    NothingQueuedYet(e, w, cap, queue);
    var i := 0;
    while i < Count(w)
      invariant 0 <= i <= Count(w) && |slots| == i
      invariant SoundThroughout(e.encode, vec)
      invariant old(vec.commits) <= vec.commits
      invariant Underway(e, W, F, start, vec.contents, keys', jobs)
      invariant keys <= keys' && queue <= jobs
      invariant SlotsUpTo(e, w, f, slots, i, jobs, 0, keys')
      invariant skipped + |jobs| == |queue| + i
      invariant JobTexts(jobs) == JobTexts(queue) + QueuedTexts(e, w, cap, i)
    {
      QueuedSnoc(e, w, cap, i);
      SlotFacts(e, W, f, w, i);
      var s, text := w.p.exsyms[i], TextAt(w, i);
      var sha, key := ChunkSha(e.name, text), SymbolIdentity(s.name, s.container, s.signature);
      FreshSymbol(e, W, F, f, i);
      CarriesIs(e, cap, s, text);
      var slot := Unset;
      ghost var oldJobs, oldKeys := jobs, keys';
      if key in cap.byIdentity && cap.byIdentity[key].sha == sha && |cap.byIdentity[key].vec| == e.dim {
        CarriedEntry(e, cap, key, text);
        UnderwayStored(e, W, F, start, vec.contents, keys', jobs, SymKey(e, w.ids[i]));
        Store(e.encode, vec, SymbolOwner, w.ids[i], e.name, sha, cap.byIdentity[key].vec);
        keys' := keys' + {SymKey(e, w.ids[i])};
        slot := Filled(cap.byIdentity[key].vec);
        skipped := skipped + 1;
      } else {
        var j := SymJob(f, w.ids[i], i, text, sha);
        UnderwayQueued(e, W, F, start, vec.contents, keys', jobs, j);
        QueuedMore(jobs, j, 0, f, i);
        JobTextsMore(queue, jobs, QueuedTexts(e, w, cap, i), j);
        jobs := jobs + [j];
      }
      SlotsKeep(e, w, f, slots, i, oldJobs, jobs, oldKeys, keys');
      SlotRight(e, w, f, i, slot, jobs, keys');
      SlotAppend(e, w, f, slots, slot, jobs, 0, keys');
      slots := slots + [slot];
      i := i + 1;
    }
  }

  lemma SlotFacts(e: Model, W: WorkMap, f: Id, w: Work, i: nat)
    requires f in W && W[f] == w && |w.p.symbols| > 0 && i < Count(w)
    ensures i < |w.ids| && i < |w.p.exsyms| && HasSymbol(W, f, i)
    ensures SymKey(e, w.ids[i]) == VecKey(SymbolOwner, w.ids[i], e.name)
    ensures JobFits(e, W, SymJob(f, w.ids[i], i, TextAt(w, i), ChunkSha(e.name, TextAt(w, i))))
    ensures EntryFor(e, TextAt(w, i)).sha == ChunkSha(e.name, TextAt(w, i))
  {
    hide TextAt;
  }

  lemma CarriesIs(e: Model, cap: FileCapture, s: Symbol, text: string)
    ensures var key := SymbolIdentity(s.name, s.container, s.signature);
            Carries(e, cap, s, text)
            <==> key in cap.byIdentity && cap.byIdentity[key].sha == ChunkSha(e.name, text) && |cap.byIdentity[key].vec| == e.dim
  {
  }

  lemma NothingQueuedYet(e: Model, w: Work, cap: FileCapture, queue: seq<SymJob>)
    ensures JobTexts(queue) == JobTexts(queue) + QueuedTexts(e, w, cap, 0)
  {
  }

  lemma NoSlots(e: Model, w: Work, f: Id, jobs: seq<SymJob>, keys: set<VecKey>)
    ensures SlotsUpTo(e, w, f, [], 0, jobs, 0, keys)
  {
  }

  lemma SlotRight(e: Model, w: Work, f: Id, i: int, s: Slot, jobs: seq<SymJob>, keys: set<VecKey>)
    requires 0 <= i < Count(w)
    requires s.Filled? ==> s.vec == EntryFor(e, TextAt(w, i)).vec && SymKey(e, w.ids[i]) in keys
    requires s.Unset? ==> Queued(jobs, 0, f, i)
    ensures SlotFits(e, w, f, i, s, jobs, 0, keys)
  {
  }

  // ---- the plan of all files ----

  /** The planned files are the rewritten ones with symbols, and their slots are right. */
  ghost predicate Planned(e: Model, W: WorkMap, done: set<Id>, fileVecs: map<Id, seq<Slot>>, jobs: seq<SymJob>, k: int, keys: set<VecKey>) {
    && (forall f :: f in fileVecs <==> f in done && f in W && |W[f].p.symbols| > 0)
    && (forall f :: f in fileVecs ==> PlannedFile(e, W, f, fileVecs[f], jobs, k, keys))
  }

  ghost predicate PlannedFile(e: Model, W: WorkMap, f: Id, slots: seq<Slot>, jobs: seq<SymJob>, k: int, keys: set<VecKey>) {
    f in W && |slots| == Count(W[f]) && SlotsUpTo(e, W[f], f, slots, |slots|, jobs, k, keys)
  }

  /** The queued fallback files are the rewritten ones without symbols. */
  ghost predicate Fallbacks(e: Model, W: WorkMap, done: set<Id>, fileJobs: seq<FileJob>, texts: seq<string>) {
    && |fileJobs| == |texts|
    && (forall i :: 0 <= i < |fileJobs| ==> FallbackFits(e, W, fileJobs[i], texts[i]))
    && (forall f :: f in done && f in W && |W[f].p.symbols| == 0 ==> exists i :: 0 <= i < |fileJobs| && fileJobs[i].fileId == f)
  }

  ghost predicate FallbackFits(e: Model, W: WorkMap, j: FileJob, text: string) {
    && j.fileId in W && |W[j.fileId].p.symbols| == 0
    && text == FileFallbackText(W[j.fileId].p) && j.sha == ChunkSha(e.name, text)
  }

  lemma PlannedAdd(e: Model, W: WorkMap, done: set<Id>, fileVecs: map<Id, seq<Slot>>, jobs: seq<SymJob>, keys: set<VecKey>,
                   f: Id, slots: seq<Slot>, jobs': seq<SymJob>, keys': set<VecKey>)
    requires Planned(e, W, done, fileVecs, jobs, 0, keys) && jobs <= jobs' && keys <= keys'
    requires f in W && |W[f].p.symbols| > 0 && PlannedFile(e, W, f, slots, jobs', 0, keys')
    ensures Planned(e, W, done + {f}, fileVecs[f := slots], jobs', 0, keys')
  {
    hide SlotsUpTo;
    forall g | g in fileVecs ensures PlannedFile(e, W, g, fileVecs[g], jobs', 0, keys') {
      SlotsKeep(e, W[g], g, fileVecs[g], |fileVecs[g]|, jobs, jobs', keys, keys');
    }
  }

  lemma FallbackAdd(e: Model, W: WorkMap, done: set<Id>, fileJobs: seq<FileJob>, texts: seq<string>, f: Id)
    requires Fallbacks(e, W, done, fileJobs, texts) && f in W
    requires |W[f].p.symbols| == 0
    ensures var text := FileFallbackText(W[f].p);
            Fallbacks(e, W, done + {f}, fileJobs + [FileJob(f, ChunkSha(e.name, text))], texts + [text])
  {
    hide FileFallbackText, ChunkSha;
    var text := FileFallbackText(W[f].p);
    var all := fileJobs + [FileJob(f, ChunkSha(e.name, text))];
    forall g | g in done + {f} && g in W && |W[g].p.symbols| == 0 ensures exists i :: 0 <= i < |all| && all[i].fileId == g {
      if g == f {
        assert all[|fileJobs|].fileId == g;
      } else {
        var i :| 0 <= i < |fileJobs| && fileJobs[i].fileId == g;
        assert all[i].fileId == g;
      }
    }
  }

  /** Everything the plan has established when the files done are planned. */
  ghost predicate PlanState(e: Model, W: WorkMap, F: Vectors, start: Vectors, now: Vectors, done: set<Id>,
                            fileVecs: map<Id, seq<Slot>>, jobs: seq<SymJob>, fileJobs: seq<FileJob>, texts: seq<string>, keys: set<VecKey>) {
    && Underway(e, W, F, start, now, keys, jobs)
    && Planned(e, W, done, fileVecs, jobs, 0, keys)
    && Fallbacks(e, W, done, fileJobs, texts)
  }

  ghost function DoneIds(t: Tables, outs: seq<Outcome>): set<Id> {
    set f | f in t.files && t.files[f].path in ParsedPaths(outs)
  }

  ghost predicate DistinctOutcomes(outs: seq<Outcome>) {
    forall i, j :: 0 <= i < j < |outs| ==> outs[i].rel != outs[j].rel
  }

  /** The file of the i-th outcome, its work and its place in what is done. */
  lemma OutcomeWork(t: Tables, outs: seq<Outcome>, i: int)
    requires Linked(t) && DistinctOutcomes(outs) && 0 <= i < |outs| && outs[i].parsed.Some? && HasPath(t, outs[i].rel)
    ensures var f := IdAt(t, outs[i].rel);
            && f in WorkOf(t, outs) && WorkOf(t, outs)[f] == Work(SymbolIds(t, f), outs[i].parsed.value)
            && DoneIds(t, outs[..i + 1]) == DoneIds(t, outs[..i]) + {f}
  {
    ParsedPathsSnoc(outs, i);
    var p := outs[i].rel;
    assert p in ParsedPaths(outs);
    assert ParsedAt(outs, p) == outs[i].parsed.value;
  }

  /** What the i-th outcome adds to the batch. */
  ghost function SymbolTexts(t: Tables, e: Model, o: Outcome, caps: Captures): seq<string>
    requires Linked(t)
  {
    if o.parsed.Some? && HasPath(t, o.rel) && |o.parsed.value.symbols| > 0 then
      var w := Work(SymbolIds(t, IdAt(t, o.rel)), o.parsed.value);
      QueuedTexts(e, w, CaptureAt(caps, o.rel), Count(w))
    else []
  }

  ghost function FallbackTexts(t: Tables, o: Outcome): seq<string> {
    if o.parsed.Some? && HasPath(t, o.rel) && |o.parsed.value.symbols| == 0 then [FileFallbackText(o.parsed.value)] else []
  }

  ghost function AllSymbolTexts(t: Tables, e: Model, outs: seq<Outcome>, caps: Captures): seq<string>
    requires Linked(t)
  {
    if outs == [] then [] else AllSymbolTexts(t, e, outs[..|outs| - 1], caps) + SymbolTexts(t, e, outs[|outs| - 1], caps)
  }

  ghost function AllFallbackTexts(t: Tables, outs: seq<Outcome>): seq<string> {
    if outs == [] then [] else AllFallbackTexts(t, outs[..|outs| - 1]) + FallbackTexts(t, outs[|outs| - 1])
  }

  /** The batch of the file part: the symbols that are not carried, then the fallback files. */
  ghost function Sent(t: Tables, e: Model, outs: seq<Outcome>, caps: Captures): seq<string>
    requires Linked(t)
  {
    AllSymbolTexts(t, e, outs, caps) + AllFallbackTexts(t, outs)
  }

  lemma TextsSnoc(t: Tables, e: Model, outs: seq<Outcome>, caps: Captures, i: nat)
    requires Linked(t) && i < |outs|
    ensures AllSymbolTexts(t, e, outs[..i + 1], caps) == AllSymbolTexts(t, e, outs[..i], caps) + SymbolTexts(t, e, outs[i], caps)
    ensures AllFallbackTexts(t, outs[..i + 1]) == AllFallbackTexts(t, outs[..i]) + FallbackTexts(t, outs[i])
  {
    assert outs[..i + 1][..i] == outs[..i];
  }

  /** What is queued so far is the texts of the outcomes so far. */
  ghost predicate TextsQueued(t: Tables, e: Model, outs: seq<Outcome>, caps: Captures, i: nat, jobs: seq<SymJob>, texts: seq<string>)
    requires Linked(t) && i <= |outs|
  {
    JobTexts(jobs) == AllSymbolTexts(t, e, outs[..i], caps) && texts == AllFallbackTexts(t, outs[..i])
  }

  lemma NoTextsQueued(t: Tables, e: Model, outs: seq<Outcome>, caps: Captures)
    requires Linked(t)
    ensures TextsQueued(t, e, outs, caps, 0, [], [])
  {
  }

  lemma SymbolsQueued(t: Tables, e: Model, outs: seq<Outcome>, caps: Captures, i: nat, jobs: seq<SymJob>, texts: seq<string>, jobs': seq<SymJob>)
    requires Linked(t) && i < |outs| && TextsQueued(t, e, outs, caps, i, jobs, texts)
    requires outs[i].parsed.Some? && HasPath(t, outs[i].rel) && |outs[i].parsed.value.symbols| > 0
    requires var w := Work(SymbolIds(t, IdAt(t, outs[i].rel)), outs[i].parsed.value);
             JobTexts(jobs') == JobTexts(jobs) + QueuedTexts(e, w, CaptureAt(caps, outs[i].rel), Count(w))
    ensures TextsQueued(t, e, outs, caps, i + 1, jobs', texts)
  {
    TextsSnoc(t, e, outs, caps, i);
    hide Linked, QueuedTexts, AllSymbolTexts, AllFallbackTexts, JobTexts, SymbolIds;
    assert texts + [] == texts;
  }

  lemma FallbackQueued(t: Tables, e: Model, outs: seq<Outcome>, caps: Captures, i: nat, jobs: seq<SymJob>, texts: seq<string>)
    requires Linked(t) && i < |outs| && TextsQueued(t, e, outs, caps, i, jobs, texts)
    requires outs[i].parsed.Some? && HasPath(t, outs[i].rel) && |outs[i].parsed.value.symbols| == 0
    ensures TextsQueued(t, e, outs, caps, i + 1, jobs, texts + [FileFallbackText(outs[i].parsed.value)])
  {
    TextsSnoc(t, e, outs, caps, i);
    hide Linked, QueuedTexts, AllSymbolTexts, AllFallbackTexts, JobTexts, SymbolIds, FileFallbackText;
    assert JobTexts(jobs) + [] == JobTexts(jobs);
  }

  lemma NothingQueuedMore(t: Tables, e: Model, outs: seq<Outcome>, caps: Captures, i: nat, jobs: seq<SymJob>, texts: seq<string>)
    requires Linked(t) && i < |outs| && TextsQueued(t, e, outs, caps, i, jobs, texts) && outs[i].parsed.None?
    ensures TextsQueued(t, e, outs, caps, i + 1, jobs, texts)
  {
    TextsSnoc(t, e, outs, caps, i);
    hide Linked, QueuedTexts, AllSymbolTexts, AllFallbackTexts, JobTexts, SymbolIds;
    assert JobTexts(jobs) + [] == JobTexts(jobs) && texts + [] == texts;
  }

  /** Step 2: aligns new symbol ids with parsed symbols, file by file. */
  method PlanAll(db: CodeDb, vec: VecTables, e: Model, outs: seq<Outcome>, caps: Captures, ghost W: WorkMap, ghost F: Vectors)
    returns (fileVecs: map<Id, seq<Slot>>, jobs: seq<SymJob>, fileJobs: seq<FileJob>, texts: seq<string>, skipped: nat, ghost keys: set<VecKey>)
    requires SoundThroughout(e.encode, vec) && Dimensioned(e) && IsFresh(e, W, F)
    requires Linked(db.Snapshot()) && W == WorkOf(db.Snapshot(), outs) && DistinctOutcomes(outs)
    requires forall p :: p in ParsedPaths(outs) ==> HasPath(db.Snapshot(), p)
    requires forall p :: CaptureSound(e, CaptureAt(caps, p))
    modifies vec
    ensures old(vec.commits) <= vec.commits
    ensures SoundThroughout(e.encode, vec)
    ensures PlanState(e, W, F, old(vec.contents), vec.contents, W.Keys, fileVecs, jobs, fileJobs, texts, keys)
    ensures ParsedPaths(outs) == {} ==> skipped == 0
    ensures JobTexts(jobs) + texts == Sent(db.Snapshot(), e, outs, caps)
  {
    ghost var t, start := db.Snapshot(), vec.contents;
    fileVecs, jobs, fileJobs, texts, skipped, keys := map[], [], [], [], 0, {};
    NothingPlanned(e, W, F, start);
    NoTextsQueued(t, e, outs, caps);
    assert DoneIds(t, outs[..0]) == {};
    hide TextsQueued, AllSymbolTexts, AllFallbackTexts, JobTexts, QueuedTexts, FileFallbackText, Carries;
    hide SoundThroughout, Dimensioned, IsFresh, Linked, WorkOf, CaptureSound, CaptureAt, DistinctOutcomes, Underway, Planned, Fallbacks, DoneIds;
    var i := 0;
    while i < |outs|
      invariant 0 <= i <= |outs|
      invariant SoundThroughout(e.encode, vec)
      invariant old(vec.commits) <= vec.commits
      invariant PlanState(e, W, F, start, vec.contents, DoneIds(t, outs[..i]), fileVecs, jobs, fileJobs, texts, keys)
      invariant ParsedPaths(outs[..i]) == {} ==> skipped == 0
      invariant TextsQueued(t, e, outs, caps, i, jobs, texts)
    {
      ParsedPathsSnoc(outs, i);
      if outs[i].parsed.Some? {
        var p := outs[i].parsed.value;
        OutcomeWork(t, outs, i);
        var found := db.FileByPath(outs[i].rel);
        var f := found.value;
        if |p.symbols| == 0 {
          var text := FileFallbackText(p);
          FallbackQueued(t, e, outs, caps, i, jobs, texts);
          FallbackAdd(e, W, DoneIds(t, outs[..i]), fileJobs, texts, f);
          PlannedSkip(e, W, DoneIds(t, outs[..i]), fileVecs, jobs, keys, f);
          fileJobs := fileJobs + [FileJob(f, ChunkSha(e.name, text))];
          texts := texts + [text];
        } else {
          var ids := SymbolIds(db.Snapshot(), f);
          ghost var jobs0, keys0 := jobs, keys;
          var slots, n;
          slots, jobs, n, keys := PlanSymbols(vec, e, f, Work(ids, p), CaptureAt(caps, outs[i].rel), jobs, W, F, start, keys);
          SymbolsQueued(t, e, outs, caps, i, jobs0, texts, jobs);
          PlannedAdd(e, W, DoneIds(t, outs[..i]), fileVecs, jobs0, keys0, f, slots, jobs, keys);
          FallbackSkip(e, W, DoneIds(t, outs[..i]), fileJobs, texts, f);
          fileVecs := fileVecs[f := slots];
          skipped := skipped + n;
        }
      } else {
        DoneSame(t, outs, i);
        NothingQueuedMore(t, e, outs, caps, i, jobs, texts);
      }
      i := i + 1;
    }
    assert outs[..i] == outs;
    AllDone(t, outs);
    AllQueued(t, e, outs, caps, jobs, texts);
  }

  lemma AllQueued(t: Tables, e: Model, outs: seq<Outcome>, caps: Captures, jobs: seq<SymJob>, texts: seq<string>)
    requires Linked(t) && TextsQueued(t, e, outs, caps, |outs|, jobs, texts)
    ensures JobTexts(jobs) + texts == Sent(t, e, outs, caps)
  {
    assert outs[..|outs|] == outs;
    hide AllSymbolTexts, AllFallbackTexts, JobTexts;
  }

  lemma NothingPlanned(e: Model, W: WorkMap, F: Vectors, start: Vectors)
    ensures PlanState(e, W, F, start, start, {}, map[], [], [], [], {})
  {
    WritesNone(F, start);
  }

  lemma PlannedSkip(e: Model, W: WorkMap, done: set<Id>, fileVecs: map<Id, seq<Slot>>, jobs: seq<SymJob>, keys: set<VecKey>, f: Id)
    requires Planned(e, W, done, fileVecs, jobs, 0, keys) && f in W && |W[f].p.symbols| == 0
    ensures Planned(e, W, done + {f}, fileVecs, jobs, 0, keys)
  {
    hide PlannedFile;
  }

  lemma FallbackSkip(e: Model, W: WorkMap, done: set<Id>, fileJobs: seq<FileJob>, texts: seq<string>, f: Id)
    requires Fallbacks(e, W, done, fileJobs, texts) && f in W && |W[f].p.symbols| > 0
    ensures Fallbacks(e, W, done + {f}, fileJobs, texts)
  {
    hide FallbackFits;
  }

  lemma DoneSame(t: Tables, outs: seq<Outcome>, i: int)
    requires 0 <= i < |outs| && outs[i].parsed.None?
    ensures DoneIds(t, outs[..i + 1]) == DoneIds(t, outs[..i])
  {
    ParsedPathsSnoc(outs, i);
  }

  lemma AllDone(t: Tables, outs: seq<Outcome>)
    ensures DoneIds(t, outs) == WorkOf(t, outs).Keys
  {
  }

  // ---- 4. storing the embedded symbols ----

  lemma FillSlots(e: Model, w: Work, f: Id, slots: seq<Slot>, jobs: seq<SymJob>, k: int, keys: set<VecKey>, keys': set<VecKey>, v: Vec)
    requires 0 <= k < |jobs| && jobs[k].fileId == f && 0 <= jobs[k].slot < |slots|
    requires |slots| == Count(w) && SlotsUpTo(e, w, f, slots, |slots|, jobs, k, keys)
    requires keys <= keys' && SymKey(e, w.ids[jobs[k].slot]) in keys' && v == e.encode(e.name, TextAt(w, jobs[k].slot))
    ensures SlotsUpTo(e, w, f, slots[jobs[k].slot := Filled(v)], |slots|, jobs, k + 1, keys')
  {
    var all := slots[jobs[k].slot := Filled(v)];
    forall i | 0 <= i < |slots| ensures SlotFits(e, w, f, i, all[i], jobs, k + 1, keys') {
      assert SlotFits(e, w, f, i, slots[i], jobs, k, keys);
      if all[i].Unset? {
        var n :| k <= n < |jobs| && 0 <= n && jobs[n].fileId == f && jobs[n].slot == i;
        assert n != k;
      }
    }
  }

  lemma SlotsLater(e: Model, w: Work, f: Id, slots: seq<Slot>, jobs: seq<SymJob>, k: int, keys: set<VecKey>, keys': set<VecKey>)
    requires 0 <= k < |jobs| && jobs[k].fileId != f && |slots| == Count(w)
    requires SlotsUpTo(e, w, f, slots, |slots|, jobs, k, keys) && keys <= keys'
    ensures SlotsUpTo(e, w, f, slots, |slots|, jobs, k + 1, keys')
  {
    forall i | 0 <= i < |slots| ensures SlotFits(e, w, f, i, slots[i], jobs, k + 1, keys') {
      assert SlotFits(e, w, f, i, slots[i], jobs, k, keys);
      if slots[i].Unset? {
        var n :| k <= n < |jobs| && 0 <= n && jobs[n].fileId == f && jobs[n].slot == i;
        assert n != k;
      }
    }
  }

  /** Storing the k-th job's vector fills its slot and leaves every other slot right. */
  lemma FillOne(e: Model, W: WorkMap, fileVecs: map<Id, seq<Slot>>, jobs: seq<SymJob>, k: int, keys: set<VecKey>, v: Vec)
    requires Planned(e, W, W.Keys, fileVecs, jobs, k, keys)
    requires 0 <= k < |jobs| && JobFits(e, W, jobs[k]) && v == e.encode(e.name, jobs[k].text)
    ensures var j := jobs[k];
            && j.fileId in fileVecs && j.slot < |fileVecs[j.fileId]|
            && Planned(e, W, W.Keys, fileVecs[j.fileId := fileVecs[j.fileId][j.slot := Filled(v)]], jobs, k + 1, keys + {SymKey(e, j.symbolId)})
  {
    var j := jobs[k];
    var keys' := keys + {SymKey(e, j.symbolId)};
    assert j.fileId in fileVecs;
    assert PlannedFile(e, W, j.fileId, fileVecs[j.fileId], jobs, k, keys);
    FillSlots(e, W[j.fileId], j.fileId, fileVecs[j.fileId], jobs, k, keys, keys', v);
    hide SlotsUpTo, TextAt;
    forall g | g in fileVecs && g != j.fileId ensures PlannedFile(e, W, g, fileVecs[g], jobs, k + 1, keys') {
      assert PlannedFile(e, W, g, fileVecs[g], jobs, k, keys);
      SlotsLater(e, W[g], g, fileVecs[g], jobs, k, keys, keys');
    }
  }

  method StoreSymbols(vec: VecTables, e: Model, jobs: seq<SymJob>, vecs: seq<Vec>, planned: map<Id, seq<Slot>>,
                      ghost W: WorkMap, ghost F: Vectors, ghost start: Vectors, ghost keys: set<VecKey>)
    returns (fileVecs: map<Id, seq<Slot>>, ghost keys': set<VecKey>)
    requires SoundThroughout(e.encode, vec) && Dimensioned(e) && IsFresh(e, W, F)
    requires Underway(e, W, F, start, vec.contents, keys, jobs) && Planned(e, W, W.Keys, planned, jobs, 0, keys)
    requires |jobs| <= |vecs| && forall i :: 0 <= i < |jobs| ==> vecs[i] == e.encode(e.name, jobs[i].text)
    modifies vec
    ensures old(vec.commits) <= vec.commits
    ensures SoundThroughout(e.encode, vec)
    ensures Underway(e, W, F, start, vec.contents, keys', jobs) && Planned(e, W, W.Keys, fileVecs, jobs, |jobs|, keys')
  {
    fileVecs, keys' := planned, keys;
    hide SoundThroughout, Dimensioned, IsFresh, Planned, Writes, SoundEntry, TextAt, HasSymbol;
    var i := 0;
    while i < |jobs|
      invariant 0 <= i <= |jobs|
      invariant SoundThroughout(e.encode, vec)
      invariant old(vec.commits) <= vec.commits
      invariant Underway(e, W, F, start, vec.contents, keys', jobs)
      invariant Planned(e, W, W.Keys, fileVecs, jobs, i, keys')
    {
      var j, v := jobs[i], vecs[i];
      assert JobFits(e, W, j);
      FillOne(e, W, fileVecs, jobs, i, keys', v);
      JobIsFresh(e, W, F, j);
      UnderwayStored(e, W, F, start, vec.contents, keys', jobs, SymKey(e, j.symbolId));
      Store(e.encode, vec, SymbolOwner, j.symbolId, e.name, j.sha, v);
      keys' := keys' + {SymKey(e, j.symbolId)};
      fileVecs := fileVecs[j.fileId := fileVecs[j.fileId][j.slot := Filled(v)]];
      i := i + 1;
    }
  }

  lemma JobIsFresh(e: Model, W: WorkMap, F: Vectors, j: SymJob)
    requires Dimensioned(e) && IsFresh(e, W, F) && JobFits(e, W, j)
    ensures SymKey(e, j.symbolId) in F
    ensures F[SymKey(e, j.symbolId)] == Entry(j.sha, e.encode(e.name, j.text))
    ensures SoundEntry(e.encode, SymKey(e, j.symbolId), Entry(j.sha, e.encode(e.name, j.text)))
  {
    FreshSymbol(e, W, F, j.fileId, j.slot);
  }

  // ---- 5. fallback files ----

  lemma FallbackIsFresh(e: Model, W: WorkMap, F: Vectors, j: FileJob, text: string)
    requires Dimensioned(e) && IsFresh(e, W, F) && FallbackFits(e, W, j, text)
    ensures FileKey(e, j.fileId) in F
    ensures F[FileKey(e, j.fileId)] == Entry(j.sha, e.encode(e.name, text))
    ensures SoundEntry(e.encode, FileKey(e, j.fileId), Entry(j.sha, e.encode(e.name, text)))
  {
    assert FileEntry(e, W[j.fileId]) == Some(EntryFor(e, text));
    ChunkIsSound(e, FileKey(e, j.fileId), text);
  }

  /** Steps 5 and 6 store file keys; these files have theirs stored. */
  ghost predicate FilesStored(e: Model, files: set<Id>, keys: set<VecKey>) {
    forall f :: f in files ==> FileKey(e, f) in keys
  }

  method StoreFallbacks(vec: VecTables, e: Model, fileJobs: seq<FileJob>, texts: seq<string>, vecs: seq<Vec>,
                        ghost W: WorkMap, ghost F: Vectors, ghost start: Vectors, ghost keys: set<VecKey>)
    returns (ghost keys': set<VecKey>)
    requires SoundThroughout(e.encode, vec) && Dimensioned(e) && IsFresh(e, W, F)
    requires Writes(F, start, vec.contents, keys)
    requires |fileJobs| == |texts| == |vecs| && forall i :: 0 <= i < |fileJobs| ==> FallbackFits(e, W, fileJobs[i], texts[i])
    requires forall i :: 0 <= i < |vecs| ==> vecs[i] == e.encode(e.name, texts[i])
    modifies vec
    ensures old(vec.commits) <= vec.commits
    ensures SoundThroughout(e.encode, vec)
    ensures Writes(F, start, vec.contents, keys') && keys <= keys'
    ensures FilesStored(e, set i | 0 <= i < |fileJobs| :: fileJobs[i].fileId, keys')
  {
    keys' := keys;
    hide SoundThroughout, Dimensioned, IsFresh, Writes, SoundEntry, FallbackFits;
    var i := 0;
    while i < |fileJobs|
      invariant 0 <= i <= |fileJobs|
      invariant SoundThroughout(e.encode, vec)
      invariant old(vec.commits) <= vec.commits
      invariant Writes(F, start, vec.contents, keys') && keys <= keys'
      invariant forall n :: 0 <= n < i ==> FileKey(e, fileJobs[n].fileId) in keys'
    {
      var j := fileJobs[i];
      FallbackIsFresh(e, W, F, j, texts[i]);
      WritesOne(F, start, vec.contents, keys', FileKey(e, j.fileId));
      Store(e.encode, vec, FileOwner, j.fileId, e.name, j.sha, vecs[i]);
      keys' := keys' + {FileKey(e, j.fileId)};
      i := i + 1;
    }
  }

  // ---- 6. file means ----

  lemma NothingQueued(e: Model, w: Work, f: Id, slots: seq<Slot>, jobs: seq<SymJob>, keys: set<VecKey>)
    requires |slots| == Count(w) && SlotsUpTo(e, w, f, slots, |slots|, jobs, |jobs|, keys)
    ensures forall i :: 0 <= i < |slots| ==> slots[i] == Filled(VectorsOf(e, w)[i]) && SymKey(e, w.ids[i]) in keys
  {
    forall i | 0 <= i < |slots| ensures slots[i] == Filled(VectorsOf(e, w)[i]) && SymKey(e, w.ids[i]) in keys {
      assert SlotFits(e, w, f, i, slots[i], jobs, |jobs|, keys);
    }
  }

  lemma {:induction false} UsableFilled(slots: seq<Slot>, vecs: seq<Vec>, dim: nat)
    requires |slots| == |vecs|
    requires forall i :: 0 <= i < |slots| ==> slots[i] == Filled(vecs[i]) && |vecs[i]| == dim
    ensures Usable(slots, dim) == vecs
  {
    hide *;
    if slots == [] {
      UsableNone(dim);
    } else {
      var n := |slots| - 1;
      UsableFilled(slots[..n], vecs[..n], dim);
      UsableSnoc(slots, n, dim);
      assert slots[..n + 1] == slots;
      assert vecs == vecs[..n] + [vecs[n]];
    }
  }

  /** The mean of the filled slots is the file entry the target wants. */
  lemma MeanIsFresh(e: Model, W: WorkMap, F: Vectors, f: Id, slots: seq<Slot>, jobs: seq<SymJob>, keys: set<VecKey>)
    requires Dimensioned(e) && IsFresh(e, W, F) && PlannedFile(e, W, f, slots, jobs, |jobs|, keys) && |W[f].p.symbols| > 0
    ensures var mean := MeanOf(e.arith, Usable(slots, e.dim), e.dim);
            && FileEntry(e, W[f]) == (if mean.Some? then Some(MeanEntry(e, mean.value)) else None)
            && (mean.Some? ==>
                 && FileKey(e, f) in F && F[FileKey(e, f)] == MeanEntry(e, mean.value)
                 && SoundEntry(e.encode, FileKey(e, f), MeanEntry(e, mean.value)))
  {
    NothingQueued(e, W[f], f, slots, jobs, keys);
    UsableFilled(slots, VectorsOf(e, W[f]), e.dim);
    hide SlotsUpTo, MeanOf, Usable, VecSha;
  }

  /** The means of the files with symbols are stored. */
  ghost predicate MeansStored(e: Model, W: WorkMap, fileVecs: map<Id, seq<Slot>>, keys: set<VecKey>)
    requires Dimensioned(e)
  {
    forall f :: f in fileVecs ==> f in W && (FileEntry(e, W[f]).Some? ==> FileKey(e, f) in keys)
  }

  method StoreMeans(vec: VecTables, e: Model, fileVecs: map<Id, seq<Slot>>, ghost jobs: seq<SymJob>,
                    ghost W: WorkMap, ghost F: Vectors, ghost start: Vectors, ghost keys: set<VecKey>)
    returns (ghost keys': set<VecKey>)
    requires SoundThroughout(e.encode, vec) && Dimensioned(e) && IsFresh(e, W, F)
    requires Writes(F, start, vec.contents, keys) && Planned(e, W, W.Keys, fileVecs, jobs, |jobs|, keys)
    modifies vec
    ensures old(vec.commits) <= vec.commits
    ensures SoundThroughout(e.encode, vec)
    ensures Writes(F, start, vec.contents, keys') && keys <= keys'
    ensures MeansStored(e, W, fileVecs, keys')
  {
    keys' := keys;
    assert forall f :: f in fileVecs ==> f in W && |W[f].p.symbols| > 0 && PlannedFile(e, W, f, fileVecs[f], jobs, |jobs|, keys);
    hide SoundThroughout, Dimensioned, IsFresh, Writes, SoundEntry, PlannedFile, Planned, FileEntry, MeanOf, Usable;
    var todo := fileVecs.Keys;
    while todo != {}
      invariant todo <= fileVecs.Keys
      invariant SoundThroughout(e.encode, vec)
      invariant old(vec.commits) <= vec.commits
      invariant Writes(F, start, vec.contents, keys') && keys <= keys'
      invariant forall f :: f in fileVecs && f !in todo ==> (FileEntry(e, W[f]).Some? ==> FileKey(e, f) in keys')
      decreases todo
    {
      var f :| f in todo;
      todo := todo - {f};
      MeanIsFresh(e, W, F, f, fileVecs[f], jobs, keys);
      var mean := MeanNormalize(e.arith, fileVecs[f], e.dim);
      if mean.Some? {
        WritesOne(F, start, vec.contents, keys', FileKey(e, f));
        Store(e.encode, vec, FileOwner, f, e.name, VecSha(e.name, mean.value), mean.value);
        keys' := keys' + {FileKey(e, f)};
      }
    }
  }

  // ---- the file part of the phase ----

  /** What the phase reports: how many texts were embedded and how many chunks were left alone. */
  datatype Report = Failed | Done(embedded: nat, skipped: nat)

  lemma SymbolKeyStored(e: Model, W: WorkMap, fileVecs: map<Id, seq<Slot>>, jobs: seq<SymJob>, keys: set<VecKey>, f: Id, i: int)
    requires Planned(e, W, W.Keys, fileVecs, jobs, |jobs|, keys) && HasSymbol(W, f, i)
    ensures SymKey(e, W[f].ids[i]) in keys
  {
    assert f in fileVecs;
    assert PlannedFile(e, W, f, fileVecs[f], jobs, |jobs|, keys);
    NothingQueued(e, W[f], f, fileVecs[f], jobs, keys);
  }

  lemma FallbackKeyStored(e: Model, W: WorkMap, fileJobs: seq<FileJob>, texts: seq<string>, keys: set<VecKey>, f: Id)
    requires Fallbacks(e, W, W.Keys, fileJobs, texts) && f in W && |W[f].p.symbols| == 0
    requires FilesStored(e, set i | 0 <= i < |fileJobs| :: fileJobs[i].fileId, keys)
    ensures FileKey(e, f) in keys
  {
    var i :| 0 <= i < |fileJobs| && fileJobs[i].fileId == f;
    hide FallbackFits;
  }

  /** When every slot is filled and every file key is stored, the whole target is stored. */
  lemma EveryKeyStored(e: Model, W: WorkMap, F: Vectors, fileVecs: map<Id, seq<Slot>>, jobs: seq<SymJob>,
                       fileJobs: seq<FileJob>, texts: seq<string>, keys: set<VecKey>, keys': set<VecKey>)
    requires Dimensioned(e) && IsFresh(e, W, F)
    requires Planned(e, W, W.Keys, fileVecs, jobs, |jobs|, keys) && Fallbacks(e, W, W.Keys, fileJobs, texts) && keys <= keys'
    requires FilesStored(e, set i | 0 <= i < |fileJobs| :: fileJobs[i].fileId, keys') && MeansStored(e, W, fileVecs, keys')
    ensures F.Keys <= keys'
  {
    assert forall k :: k in F ==> IsWorkKey(e, W, k);
    hide IsFresh, IsWorkKey, Planned, Fallbacks, FilesStored, MeansStored;
    forall k | k in F ensures k in keys' {
      WorkKeyStored(e, W, fileVecs, jobs, fileJobs, texts, keys, keys', k);
    }
  }

  lemma WorkKeyStored(e: Model, W: WorkMap, fileVecs: map<Id, seq<Slot>>, jobs: seq<SymJob>,
                      fileJobs: seq<FileJob>, texts: seq<string>, keys: set<VecKey>, keys': set<VecKey>, k: VecKey)
    requires Dimensioned(e) && IsWorkKey(e, W, k)
    requires Planned(e, W, W.Keys, fileVecs, jobs, |jobs|, keys) && Fallbacks(e, W, W.Keys, fileJobs, texts) && keys <= keys'
    requires FilesStored(e, set i | 0 <= i < |fileJobs| :: fileJobs[i].fileId, keys') && MeansStored(e, W, fileVecs, keys')
    ensures k in keys'
  {
    assert forall f :: f in W && |W[f].p.symbols| > 0 ==> f in fileVecs;
    hide Planned, FileEntry, Fallbacks, FilesStored;
    match k.owner
    case SymbolOwner =>
      var f, i :| HasSymbol(W, f, i) && W[f].ids[i] == k.id;
      SymbolKeyStored(e, W, fileVecs, jobs, keys, f, i);
    case FileOwner =>
      assert k == FileKey(e, k.id);
      if |W[k.id].p.symbols| == 0 {
        FallbackKeyStored(e, W, fileJobs, texts, keys', k.id);
      }
  }

  /** There is something to embed, and the runtime rejects it. */
  predicate Rejected(e: Model, texts: seq<string>) {
    texts != [] && e.fails(texts)
  }

  /** Step 3: one batch for every changed chunk. Nothing to embed is no call. */
  method EmbedBatch(e: Model, texts: seq<string>) returns (vecs: Option<seq<Vec>>)
    ensures vecs.None? <==> Rejected(e, texts)
    ensures vecs.Some? ==> |vecs.value| == |texts| && forall i :: 0 <= i < |texts| ==> vecs.value[i] == e.encode(e.name, texts[i])
  {
    if texts == [] {
      return Some([]);
    }
    vecs := Embed(e, texts);
  }

  lemma NoWork(t: Tables, outs: seq<Outcome>, e: Model, F: Vectors)
    requires Dimensioned(e) && IsFresh(e, WorkOf(t, outs), F)
    ensures ParsedPaths(outs) == {} ==> WorkOf(t, outs) == map[] && F == map[]
  {
    if ParsedPaths(outs) == {} {
      assert WorkOf(t, outs) == map[];
      forall k ensures k !in F {
        assert !IsWorkKey(e, WorkOf(t, outs), k);
      }
    }
  }

  lemma NoJobs(e: Model, W: WorkMap, F: Vectors, start: Vectors, now: Vectors, planned: map<Id, seq<Slot>>,
               jobs: seq<SymJob>, fileJobs: seq<FileJob>, texts: seq<string>, keys: set<VecKey>)
    requires PlanState(e, W, F, start, now, W.Keys, planned, jobs, fileJobs, texts, keys)
    ensures |fileJobs| == |texts|
    ensures W == map[] ==> jobs == [] && fileJobs == []
  {
    if jobs != [] {
      assert JobFits(e, W, jobs[0]);
      assert jobs[0].fileId in W;
    }
    if fileJobs != [] {
      assert FallbackFits(e, W, fileJobs[0], texts[0]);
      assert fileJobs[0].fileId in W;
    }
  }

  lemma FallbacksFit(e: Model, W: WorkMap, fileJobs: seq<FileJob>, texts: seq<string>)
    requires Fallbacks(e, W, W.Keys, fileJobs, texts)
    ensures |fileJobs| == |texts| && forall i :: 0 <= i < |fileJobs| ==> FallbackFits(e, W, fileJobs[i], texts[i])
  {
  }

  lemma PlannedLater(e: Model, W: WorkMap, fileVecs: map<Id, seq<Slot>>, jobs: seq<SymJob>, keys: set<VecKey>, keys': set<VecKey>)
    requires Planned(e, W, W.Keys, fileVecs, jobs, |jobs|, keys) && keys <= keys'
    ensures Planned(e, W, W.Keys, fileVecs, jobs, |jobs|, keys')
  {
    forall f | f in fileVecs ensures PlannedFile(e, W, f, fileVecs[f], jobs, |jobs|, keys') {
      assert PlannedFile(e, W, f, fileVecs[f], jobs, |jobs|, keys);
      NothingQueued(e, W[f], f, fileVecs[f], jobs, keys);
      hide VectorsOf, TextAt;
      forall i | 0 <= i < |fileVecs[f]| ensures SlotFits(e, W[f], f, i, fileVecs[f][i], jobs, |jobs|, keys') {
        assert SlotFits(e, W[f], f, i, fileVecs[f][i], jobs, |jobs|, keys);
      }
    }
  }

  lemma StoredLater(e: Model, files: set<Id>, keys: set<VecKey>, keys': set<VecKey>)
    requires FilesStored(e, files, keys) && keys <= keys'
    ensures FilesStored(e, files, keys')
  {
  }

  lemma PlanParts(e: Model, W: WorkMap, F: Vectors, start: Vectors, now: Vectors, planned: map<Id, seq<Slot>>,
                  jobs: seq<SymJob>, fileJobs: seq<FileJob>, texts: seq<string>, keys: set<VecKey>)
    requires PlanState(e, W, F, start, now, W.Keys, planned, jobs, fileJobs, texts, keys)
    ensures Underway(e, W, F, start, now, keys, jobs) && Planned(e, W, W.Keys, planned, jobs, 0, keys)
    ensures Fallbacks(e, W, W.Keys, fileJobs, texts)
  {
  }

  lemma UnderwayWrites(e: Model, W: WorkMap, F: Vectors, start: Vectors, now: Vectors, keys: set<VecKey>, jobs: seq<SymJob>)
    requires Underway(e, W, F, start, now, keys, jobs)
    ensures Writes(F, start, now, keys)
  {
  }

  lemma KeysAreAll(F: Vectors, a: Vectors, b: Vectors, keys: set<VecKey>)
    requires Writes(F, a, b, keys) && F.Keys <= keys
    ensures b == a + F
  {
    assert keys == F.Keys;
    WritesAll(F, a, b);
  }

  lemma PlannedSameMemories(e: Model, W: WorkMap, F: Vectors, start: Vectors, now: Vectors, planned: map<Id, seq<Slot>>,
                            jobs: seq<SymJob>, fileJobs: seq<FileJob>, texts: seq<string>, keys: set<VecKey>)
    requires Dimensioned(e) && IsFresh(e, W, F)
    requires PlanState(e, W, F, start, now, W.Keys, planned, jobs, fileJobs, texts, keys)
    ensures SameMemories(start, now)
  {
    PlanParts(e, W, F, start, now, planned, jobs, fileJobs, texts, keys);
    UnderwayWrites(e, W, F, start, now, keys, jobs);
    hide PlanState, Underway, IsFresh, SameMemories;
    FreshSameMemories(e, W, F, start, now);
  }

  /** Steps 2 to 6: on success the layer has gained exactly the vectors of the rewritten files, as if nothing had been carried. */
  method EmbedFiles(db: CodeDb, vec: VecTables, e: Model, outs: seq<Outcome>, caps: Captures) returns (r: Report)
    requires SoundThroughout(e.encode, vec) && Dimensioned(e)
    requires Linked(db.Snapshot()) && DistinctOutcomes(outs) && DistinctIds(WorkOf(db.Snapshot(), outs))
    requires forall p :: p in ParsedPaths(outs) ==> HasPath(db.Snapshot(), p)
    requires forall p :: CaptureSound(e, CaptureAt(caps, p))
    modifies vec
    ensures old(vec.commits) <= vec.commits
    ensures SoundThroughout(e.encode, vec)
    ensures r.Done? ==> vec.contents == old(vec.contents) + Fresh(e, WorkOf(db.Snapshot(), outs))
    ensures ParsedPaths(outs) == {} ==> r == Done(0, 0) && vec.contents == old(vec.contents)
    ensures SameMemories(old(vec.contents), vec.contents)
    ensures r.Failed? <==> Rejected(e, Sent(db.Snapshot(), e, outs, caps))
    ensures r.Done? ==> r.embedded == |Sent(db.Snapshot(), e, outs, caps)|
  {
    hide *;
    ghost var W := WorkOf(db.Snapshot(), outs);
    ghost var F, start := Fresh(e, W), vec.contents;
    FreshIs(e, W);
    NoWork(db.Snapshot(), outs, e, F);
    var planned, jobs, fileJobs, texts, skipped;
    ghost var keys;
    planned, jobs, fileJobs, texts, skipped, keys := PlanAll(db, vec, e, outs, caps, W, F);
    NoJobs(e, W, F, start, vec.contents, planned, jobs, fileJobs, texts, keys);
    RejectedIs(e, JobTexts(jobs) + texts);
    var vecs := EmbedBatch(e, JobTexts(jobs) + texts);
    if vecs.None? {
      PlannedSameMemories(e, W, F, start, vec.contents, planned, jobs, fileJobs, texts, keys);
      return Failed;
    }
    StoreAll(vec, e, planned, jobs, fileJobs, texts, vecs.value, W, F, start, keys);
    FreshSameMemories(e, W, F, start, start + F);
    assert F == map[] ==> start + F == start;
    r := Done(|jobs| + |fileJobs|, skipped);
  }

  /** Steps 4 to 6. */
  method StoreAll(vec: VecTables, e: Model, planned: map<Id, seq<Slot>>, jobs: seq<SymJob>, fileJobs: seq<FileJob>, texts: seq<string>,
                  vecs: seq<Vec>, ghost W: WorkMap, ghost F: Vectors, ghost start: Vectors, ghost keys: set<VecKey>)
    requires SoundThroughout(e.encode, vec) && Dimensioned(e) && IsFresh(e, W, F)
    requires PlanState(e, W, F, start, vec.contents, W.Keys, planned, jobs, fileJobs, texts, keys)
    requires |vecs| == |jobs| + |texts|
    requires forall i :: 0 <= i < |vecs| ==> vecs[i] == e.encode(e.name, (JobTexts(jobs) + texts)[i])
    modifies vec
    ensures old(vec.commits) <= vec.commits
    ensures SoundThroughout(e.encode, vec)
    ensures vec.contents == start + F
  {
    hide *;
    PlanParts(e, W, F, start, vec.contents, planned, jobs, fileJobs, texts, keys);
    FallbacksFit(e, W, fileJobs, texts);
    assert forall i :: 0 <= i < |jobs| ==> vecs[i] == e.encode(e.name, jobs[i].text);
    assert forall i :: 0 <= i < |texts| ==> vecs[|jobs|..][i] == e.encode(e.name, texts[i]);
    var fileVecs;
    ghost var keys4, keys5, keys6;
    fileVecs, keys4 := StoreSymbols(vec, e, jobs, vecs, planned, W, F, start, keys);
    UnderwayWrites(e, W, F, start, vec.contents, keys4, jobs);
    keys5 := StoreFallbacks(vec, e, fileJobs, texts, vecs[|jobs|..], W, F, start, keys4);
    PlannedLater(e, W, fileVecs, jobs, keys4, keys5);
    keys6 := StoreMeans(vec, e, fileVecs, jobs, W, F, start, keys5);
    StoredLater(e, set i | 0 <= i < |fileJobs| :: fileJobs[i].fileId, keys5, keys6);
    EveryKeyStored(e, W, F, fileVecs, jobs, fileJobs, texts, keys5, keys6);
    KeysAreAll(F, start, vec.contents, keys6);
  }

  // ---- 7. memories ----

  datatype MemJob = MemJob(id: Id, sha: Digest, text: string)

  ghost predicate MemJobFits(e: Model, mems: Memories, j: MemJob) {
    Embeds(mems, j.id) && j.text == MemoryText(mems[j.id]) && j.sha == ChunkSha(e.name, j.text)
  }

  /** The memory's vector is right already, or it is queued. */
  ghost predicate Settled(e: Model, mems: Memories, m: Vectors, jobs: seq<MemJob>, id: Id) {
    Embeds(mems, id) ==>
      || (MemKey(e, id) in m && m[MemKey(e, id)] == EntryFor(e, MemoryText(mems[id])))
      || exists n :: 0 <= n < |jobs| && jobs[n].id == id
  }

  lemma MemoryEntry(e: Model, mems: Memories, id: Id)
    requires Embeds(mems, id)
    ensures MemKey(e, id) in MemoryVectors(e, mems)
    ensures MemoryVectors(e, mems)[MemKey(e, id)] == EntryFor(e, MemoryText(mems[id]))
    ensures SoundEntry(e.encode, MemKey(e, id), EntryFor(e, MemoryText(mems[id])))
  {
    ChunkIsSound(e, MemKey(e, id), MemoryText(mems[id]));
    hide MemoryText, EntryFor, Blank;
  }

  /** A stored digest equal to the text's digest means the stored vector is the text's vector. */
  lemma SameDigest(e: Model, m: Vectors, id: Id, text: string)
    requires CacheSound(e.encode, m) && MemKey(e, id) in m && m[MemKey(e, id)].sha == ChunkSha(e.name, text)
    ensures m[MemKey(e, id)] == EntryFor(e, text)
  {
    assert SoundEntry(e.encode, MemKey(e, id), m[MemKey(e, id)]);
    CarryIsFresh(e, m[MemKey(e, id)], text);
  }

  lemma SettledQueue(e: Model, mems: Memories, m: Vectors, jobs: seq<MemJob>, j: MemJob, id: Id)
    requires Settled(e, mems, m, jobs, id) || j.id == id
    ensures Settled(e, mems, m, jobs + [j], id)
  {
    var all := jobs + [j];
    hide Embeds, MemoryText, EntryFor;
    assert all[|jobs|] == j;
    if n :| 0 <= n < |jobs| && jobs[n].id == id {
      assert all[n].id == id;
    }
  }

  /** The first i memories are settled, and only memories that need it are queued. */
  ghost predicate MemPlan(e: Model, mems: Memories, m: Vectors, jobs: seq<MemJob>, ids: seq<Id>, i: int) {
    && 0 <= i <= |ids|
    && (forall j :: j in jobs ==> MemJobFits(e, mems, j) && !Settled(e, mems, m, [], j.id))
    && (forall n :: 0 <= n < i ==> Settled(e, mems, m, jobs, ids[n]))
  }

  lemma MemPlanQueue(e: Model, mems: Memories, m: Vectors, jobs: seq<MemJob>, ids: seq<Id>, i: int, j: MemJob)
    requires MemPlan(e, mems, m, jobs, ids, i) && i < |ids| && j.id == ids[i]
    requires MemJobFits(e, mems, j) && !Settled(e, mems, m, [], j.id)
    ensures MemPlan(e, mems, m, jobs + [j], ids, i + 1)
  {
    hide Settled, MemJobFits;
    forall n | 0 <= n < i + 1 ensures Settled(e, mems, m, jobs + [j], ids[n]) {
      SettledQueue(e, mems, m, jobs, j, ids[n]);
    }
  }

  lemma MemPlanNext(e: Model, mems: Memories, m: Vectors, jobs: seq<MemJob>, ids: seq<Id>, i: int)
    requires MemPlan(e, mems, m, jobs, ids, i) && i < |ids| && Settled(e, mems, m, jobs, ids[i])
    ensures MemPlan(e, mems, m, jobs, ids, i + 1)
  {
    hide Settled, MemJobFits;
  }

  lemma MemPlanDone(e: Model, mems: Memories, m: Vectors, jobs: seq<MemJob>, ids: seq<Id>)
    requires MemPlan(e, mems, m, jobs, ids, |ids|) && forall id :: id in ids <==> id in mems
    ensures forall j :: j in jobs ==> MemJobFits(e, mems, j)
    ensures forall id :: id in mems ==> Settled(e, mems, m, jobs, id)
    ensures (forall id :: id in mems ==> Settled(e, mems, m, [], id)) ==> jobs == []
  {
    hide Settled;
    if jobs != [] {
      assert jobs[0] in jobs;
      assert jobs[0].id in mems;
    }
  }

  lemma MemPlanStart(e: Model, mems: Memories, m: Vectors, ids: seq<Id>)
    ensures MemPlan(e, mems, m, [], ids, 0)
  {
  }

  /** The memory's text is sent: not blank, and not the text its stored digest names. */
  predicate Resends(e: Model, mems: Memories, m: Vectors, id: Id) {
    && Embeds(mems, id)
    && !(MemKey(e, id) in m && m[MemKey(e, id)].sha == ChunkSha(e.name, MemoryText(mems[id])))
  }

  function ResentTexts(e: Model, mems: Memories, m: Vectors, ids: seq<Id>): seq<string> {
    if ids == [] then []
    else if Resends(e, mems, m, ids[|ids| - 1]) then
      ResentTexts(e, mems, m, ids[..|ids| - 1]) + [MemoryText(mems[ids[|ids| - 1]])]
    else ResentTexts(e, mems, m, ids[..|ids| - 1])
  }

  /** The batch of the memory part. */
  function MemorySent(e: Model, mems: Memories, m: Vectors): seq<string> {
    ResentTexts(e, mems, m, Ids.Ascending(mems.Keys))
  }

  lemma {:induction false} ResentSame(e: Model, mems: Memories, a: Vectors, b: Vectors, ids: seq<Id>)
    requires SameMemories(a, b)
    ensures ResentTexts(e, mems, a, ids) == ResentTexts(e, mems, b, ids)
  {
    if ids != [] {
      ResentSame(e, mems, a, b, ids[..|ids| - 1]);
      assert Resends(e, mems, a, ids[|ids| - 1]) <==> Resends(e, mems, b, ids[|ids| - 1]) by {
        hide Embeds, MemoryText, ChunkSha;
      }
      hide Resends, MemoryText;
    }
  }

  /** The batch depends on the memory vectors only. */
  lemma MemorySentSame(e: Model, mems: Memories, a: Vectors, b: Vectors)
    requires SameMemories(a, b)
    ensures MemorySent(e, mems, a) == MemorySent(e, mems, b)
  {
    ResentSame(e, mems, a, b, Ids.Ascending(mems.Keys));
  }

  /** The queued texts, in order. */
  ghost predicate Queueing(jobs: seq<MemJob>, texts: seq<string>) {
    |jobs| == |texts| && forall i :: 0 <= i < |jobs| ==> jobs[i].text == texts[i]
  }

  lemma QueueingSnoc(jobs: seq<MemJob>, texts: seq<string>, j: MemJob)
    requires Queueing(jobs, texts)
    ensures Queueing(jobs + [j], texts + [j.text])
  {
  }

  lemma QueueingIs(jobs: seq<MemJob>, texts: seq<string>)
    requires Queueing(jobs, texts)
    ensures seq(|jobs|, i requires 0 <= i < |jobs| => jobs[i].text) == texts
  {
  }

  lemma ResentStep(e: Model, mems: Memories, m: Vectors, ids: seq<Id>, i: nat)
    requires i < |ids| && ids[i] in mems
    ensures var text := MemoryText(mems[ids[i]]);
            var stored := MemKey(e, ids[i]) in m && m[MemKey(e, ids[i])].sha == ChunkSha(e.name, text);
            ResentTexts(e, mems, m, ids[..i + 1]) ==
            if Blank(text) || stored then ResentTexts(e, mems, m, ids[..i]) else ResentTexts(e, mems, m, ids[..i]) + [text]
  {
    assert ids[..i + 1][..i] == ids[..i];
    hide MemoryText, Blank;
  }

  /** The first i memories are planned and their texts queued. */
  ghost predicate MemPlanned(e: Model, mems: Memories, m: Vectors, jobs: seq<MemJob>, ids: seq<Id>, i: nat) {
    MemPlan(e, mems, m, jobs, ids, i) && i <= |ids| && Queueing(jobs, ResentTexts(e, mems, m, ids[..i]))
  }

  lemma MemPlannedStart(e: Model, mems: Memories, m: Vectors, ids: seq<Id>)
    ensures MemPlanned(e, mems, m, [], ids, 0)
  {
    MemPlanStart(e, mems, m, ids);
    hide MemPlan;
  }

  lemma MemPlannedNext(e: Model, mems: Memories, m: Vectors, jobs: seq<MemJob>, ids: seq<Id>, i: nat)
    requires MemPlanned(e, mems, m, jobs, ids, i) && i < |ids| && ids[i] in mems && Settled(e, mems, m, jobs, ids[i])
    requires var text := MemoryText(mems[ids[i]]);
             Blank(text) || (MemKey(e, ids[i]) in m && m[MemKey(e, ids[i])].sha == ChunkSha(e.name, text))
    ensures MemPlanned(e, mems, m, jobs, ids, i + 1)
  {
    hide MemPlan, Settled, Queueing, ResentTexts, MemoryText, Blank, ChunkSha;
    ResentStep(e, mems, m, ids, i);
    MemPlanNext(e, mems, m, jobs, ids, i);
  }

  lemma MemPlannedQueue(e: Model, mems: Memories, m: Vectors, jobs: seq<MemJob>, ids: seq<Id>, i: nat, j: MemJob)
    requires MemPlanned(e, mems, m, jobs, ids, i) && i < |ids| && ids[i] in mems
    requires var text := MemoryText(mems[ids[i]]);
             && j == MemJob(ids[i], ChunkSha(e.name, text), text)
             && !Blank(text) && !(MemKey(e, ids[i]) in m && m[MemKey(e, ids[i])].sha == ChunkSha(e.name, text))
    ensures MemPlanned(e, mems, m, jobs + [j], ids, i + 1)
  {
    hide MemPlan, Settled, Queueing, ResentTexts, MemoryText, Blank, ChunkSha, MemJobFits;
    ResentStep(e, mems, m, ids, i);
    JobNeeded(e, mems, m, j);
    MemPlanQueue(e, mems, m, jobs, ids, i, j);
    QueueingSnoc(jobs, ResentTexts(e, mems, m, ids[..i]), j);
  }

  lemma MemPlannedDone(e: Model, mems: Memories, m: Vectors, jobs: seq<MemJob>)
    requires MemPlanned(e, mems, m, jobs, Ids.Ascending(mems.Keys), |Ids.Ascending(mems.Keys)|)
    ensures forall j :: j in jobs ==> MemJobFits(e, mems, j)
    ensures forall id :: id in mems ==> Settled(e, mems, m, jobs, id)
    ensures (forall id :: id in mems ==> Settled(e, mems, m, [], id)) ==> jobs == []
    ensures Queueing(jobs, MemorySent(e, mems, m))
  {
    var ids := Ids.Ascending(mems.Keys);
    Ids.AscendingMembers(mems.Keys);
    assert ids[..|ids|] == ids;
    hide MemPlan, Settled, Queueing, ResentTexts, MemJobFits, Ids.Ascending;
    MemPlanDone(e, mems, m, jobs, ids);
  }

  method PlanMemories(vec: VecTables, e: Model, mems: Memories) returns (jobs: seq<MemJob>, skipped: nat)
    requires SoundThroughout(e.encode, vec)
    ensures forall j :: j in jobs ==> MemJobFits(e, mems, j)
    ensures forall id :: id in mems ==> Settled(e, mems, vec.contents, jobs, id)
    ensures (forall id :: id in mems ==> Settled(e, mems, vec.contents, [], id)) ==> jobs == []
    ensures Queueing(jobs, MemorySent(e, mems, vec.contents))
  {
    assert CacheSound(e.encode, vec.contents) && vec.Valid();
    hide *;
    var ids := Ids.Ascending(mems.Keys);
    Ids.AscendingMembers(mems.Keys);
    jobs, skipped := [], 0;
    MemPlannedStart(e, mems, vec.contents, ids);
    var i := 0;
    while i < |ids|
      invariant 0 <= i <= |ids| && MemPlanned(e, mems, vec.contents, jobs, ids, i)
    {
      var id := ids[i];
      assert id in mems;
      var text := MemoryText(mems[id]);
      var sha := ChunkSha(e.name, text);
      MemKeyIs(e, id);
      var prev := vec.ChunkShaOf(MemoryOwner, id, e.name);
      if Blank(text) {
        BlankSettled(e, mems, vec.contents, jobs, id);
        MemPlannedNext(e, mems, vec.contents, jobs, ids, i);
      } else if prev == Some(sha) {
        SkipSettled(e, mems, vec.contents, jobs, id);
        MemPlannedNext(e, mems, vec.contents, jobs, ids, i);
        skipped := skipped + 1;
      } else {
        var j := MemJob(id, sha, text);
        MemPlannedQueue(e, mems, vec.contents, jobs, ids, i, j);
        jobs := jobs + [j];
      }
      i := i + 1;
    }
    MemPlannedDone(e, mems, vec.contents, jobs);
  }

  lemma BlankSettled(e: Model, mems: Memories, m: Vectors, jobs: seq<MemJob>, id: Id)
    requires id in mems && Blank(MemoryText(mems[id]))
    ensures Settled(e, mems, m, jobs, id)
  {
  }

  lemma SkipSettled(e: Model, mems: Memories, m: Vectors, jobs: seq<MemJob>, id: Id)
    requires CacheSound(e.encode, m) && id in mems
    requires MemKey(e, id) in m && m[MemKey(e, id)].sha == ChunkSha(e.name, MemoryText(mems[id]))
    ensures Settled(e, mems, m, jobs, id)
  {
    SameDigest(e, m, id, MemoryText(mems[id]));
  }

  /** A queued memory is one whose vector is not right yet. */
  lemma JobNeeded(e: Model, mems: Memories, m: Vectors, j: MemJob)
    requires j.id in mems && !Blank(MemoryText(mems[j.id]))
    requires j.text == MemoryText(mems[j.id]) && j.sha == ChunkSha(e.name, j.text)
    requires !(MemKey(e, j.id) in m && m[MemKey(e, j.id)].sha == j.sha)
    ensures MemJobFits(e, mems, j) && !Settled(e, mems, m, [], j.id)
  {
  }

  lemma MemoryKeys(e: Model, mems: Memories, k: VecKey)
    requires k in MemoryVectors(e, mems)
    ensures k == MemKey(e, k.id) && Embeds(mems, k.id) && MemoryVectors(e, mems)[k] == EntryFor(e, MemoryText(mems[k.id]))
  {
    hide MemoryText, EntryFor, Blank;
  }

  lemma MemoryStored(e: Model, mems: Memories, a: Vectors, b: Vectors, jobs: seq<MemJob>, keys: set<VecKey>, k: VecKey)
    requires Writes(MemoryVectors(e, mems), a, b, keys) && k in MemoryVectors(e, mems)
    requires Settled(e, mems, a, jobs, k.id)
    requires forall n :: 0 <= n < |jobs| ==> MemKey(e, jobs[n].id) in keys
    ensures k in b && b[k] == MemoryVectors(e, mems)[k]
  {
    MemoryKeys(e, mems, k);
    hide MemoryText, EntryFor, MemoryVectors, Embeds;
  }

  lemma MemoriesStored(e: Model, mems: Memories, a: Vectors, b: Vectors, jobs: seq<MemJob>, keys: set<VecKey>)
    requires Writes(MemoryVectors(e, mems), a, b, keys)
    requires forall id :: id in mems ==> Settled(e, mems, a, jobs, id)
    requires forall n :: 0 <= n < |jobs| ==> MemKey(e, jobs[n].id) in keys
    ensures b == a + MemoryVectors(e, mems)
  {
    var F := MemoryVectors(e, mems);
    hide MemoryVectors, Settled, Embeds;
    forall k | k in F ensures k in b && b[k] == F[k] {
      MemoryKeys(e, mems, k);
      EmbedsStored(mems, k.id);
      MemoryStored(e, mems, a, b, jobs, keys, k);
    }
  }

  lemma EmbedsStored(mems: Memories, id: Id)
    requires Embeds(mems, id)
    ensures id in mems
  {
  }

  /** Re-embeds the memories whose text changed under this model. */
  method EmbedMemories(vec: VecTables, e: Model, mems: Memories) returns (r: Report)
    requires SoundThroughout(e.encode, vec)
    modifies vec
    ensures old(vec.commits) <= vec.commits
    ensures SoundThroughout(e.encode, vec)
    ensures r.Failed? ==> vec.contents == old(vec.contents)
    ensures r.Failed? <==> Rejected(e, MemorySent(e, mems, old(vec.contents)))
    ensures r.Done? ==> r.embedded == |MemorySent(e, mems, old(vec.contents))|
    ensures r.Done? ==> vec.contents == old(vec.contents) + MemoryVectors(e, mems)
    ensures (forall id :: id in mems ==> Settled(e, mems, old(vec.contents), [], id)) ==> r.Done? && r.embedded == 0 && vec.contents == old(vec.contents)
  {
    hide *;
    ghost var F, start := MemoryVectors(e, mems), vec.contents;
    var jobs, skipped := PlanMemories(vec, e, mems);
    WritesNone(F, start);
    ghost var keys: set<VecKey> := {};
    RejectedIs(e, MemorySent(e, mems, start));
    QueueingIs(jobs, MemorySent(e, mems, start));
    if |jobs| == 0 {
      MemoriesStored(e, mems, start, vec.contents, jobs, keys);
      return Done(0, skipped);
    }
    var vecs := Embed(e, seq(|jobs|, i requires 0 <= i < |jobs| => jobs[i].text));
    if vecs.None? {
      return Failed;
    }
    var i := 0;
    while i < |jobs|
      invariant 0 <= i <= |jobs|
      invariant SoundThroughout(e.encode, vec) && Writes(F, start, vec.contents, keys)
      invariant old(vec.commits) <= vec.commits
      invariant forall n :: 0 <= n < i ==> MemKey(e, jobs[n].id) in keys
    {
      MemJobEntry(e, mems, jobs[i]);
      WritesOne(F, start, vec.contents, keys, MemKey(e, jobs[i].id));
      MemKeyIs(e, jobs[i].id);
      Store(e.encode, vec, MemoryOwner, jobs[i].id, e.name, jobs[i].sha, vecs.value[i]);
      keys := keys + {MemKey(e, jobs[i].id)};
      i := i + 1;
    }
    MemoriesStored(e, mems, start, vec.contents, jobs, keys);
    r := Done(|jobs|, skipped);
  }

  lemma RejectedIs(e: Model, texts: seq<string>)
    ensures Rejected(e, texts) <==> texts != [] && e.fails(texts)
  {
  }

  lemma MemKeyIs(e: Model, id: Id)
    ensures MemKey(e, id) == VecKey(MemoryOwner, id, e.name)
  {
  }

  lemma MemJobEntry(e: Model, mems: Memories, j: MemJob)
    requires MemJobFits(e, mems, j)
    ensures var k, x := MemKey(e, j.id), Entry(j.sha, e.encode(e.name, j.text));
            && k in MemoryVectors(e, mems) && MemoryVectors(e, mems)[k] == x && SoundEntry(e.encode, k, x)
  {
    MemoryEntry(e, mems, j.id);
  }

  lemma SameMemoriesTransitive(a: Vectors, b: Vectors, c: Vectors)
    requires SameMemories(a, b) && SameMemories(b, c)
    ensures SameMemories(a, c)
  {
  }

  // ---- the phase ----

  /** The embed phase. After a success the layer is the old one without the orphans, with every rewritten
      file and every memory embedded anew; carrying vectors over cannot be told from that. In every state it
      passes through, and after a failure, each stored digest still names the text its vector is the vector of. */
  method EmbedPhase(db: CodeDb, vec: VecTables, e: Model, mode: Mode, outs: seq<Outcome>, caps: Captures,
                    gone: set<Path>, mems: Memories, ghost before: Tables) returns (r: Report)
    requires SoundThroughout(e.encode, vec) && Dimensioned(e)
    requires Linked(before) && Linked(db.Snapshot()) && DistinctOutcomes(outs) && DistinctIds(WorkOf(db.Snapshot(), outs))
    requires forall p :: p in ParsedPaths(outs) ==> HasPath(db.Snapshot(), p)
    requires mode == Full ==> caps == map[]
    requires mode != Full ==> forall p :: p in DropSet(mode, outs, gone) ==> CapturesRows(before, p, CaptureAt(caps, p))
    requires forall p :: CaptureSound(e, CaptureAt(caps, p))
    modifies vec
    ensures old(vec.commits) <= vec.commits
    ensures SoundThroughout(e.encode, vec)
    ensures r.Done? ==>
      vec.contents == Dropped(old(vec.contents), before, DropSet(mode, outs, gone)) + Fresh(e, WorkOf(db.Snapshot(), outs)) + MemoryVectors(e, mems)
    ensures r.Failed? ==> SameMemories(old(vec.contents), vec.contents)
    ensures r.Failed? <==> Rejected(e, Sent(db.Snapshot(), e, outs, caps)) || Rejected(e, MemorySent(e, mems, old(vec.contents)))
    ensures r.Done? ==> r.embedded == |Sent(db.Snapshot(), e, outs, caps)| + |MemorySent(e, mems, old(vec.contents))|
    ensures DropSet(mode, outs, gone) == {} && ParsedPaths(outs) == {} && (forall id :: id in mems ==> Settled(e, mems, old(vec.contents), [], id))
      ==> r.Done? && r.embedded == 0 && vec.contents == old(vec.contents)
  {
    hide *;
    DropNothing(vec.contents, before);
    DroppedSameMemories(vec.contents, before, DropSet(mode, outs, gone));
    ghost var start := vec.contents;
    DropOrphans(e.encode, vec, mode, outs, caps, gone, before);
    ghost var dropped := vec.contents;
    var files := EmbedFiles(db, vec, e, outs, caps);
    SameMemoriesTransitive(start, dropped, vec.contents);
    if files.Failed? {
      return Failed;
    }
    MemorySentSame(e, mems, start, vec.contents);
    var memories := EmbedMemories(vec, e, mems);
    if memories.Failed? {
      return Failed;
    }
    r := Done(files.embedded + memories.embedded, files.skipped + memories.skipped);
  }
}
