/** What the embed phase should leave in the semantic layer, stated without carrying anything over. */
module EmbedSpec {
  import opened Base
  import opened Text
  import opened Digests
  import opened FloatCodec
  import opened VectorStore
  import opened CodeTables
  import opened CodeView
  import opened Scanning
  import opened Indexing
  import opened Embedder

  /** The vector of a text under a model name: what "the same embedder" means across runs. */
  type Encoder = (string, string) -> Vec

  // ---- the cache invariant ----

  ghost predicate IsChunk(enc: Encoder, model: string, x: Entry) {
    exists text :: x == Entry(ChunkSha(model, text), enc(model, text))
  }

  /** A stored digest names the text whose vector is stored with it. Derived file vectors carry their own digest. */
  ghost predicate SoundEntry(enc: Encoder, k: VecKey, x: Entry) {
    IsChunk(enc, k.model, x) || (k.owner == FileOwner && x.sha == VecSha(k.model, x.vec))
  }

  ghost predicate CacheSound(enc: Encoder, m: Vectors) {
    forall k :: k in m ==> SoundEntry(enc, k, m[k])
  }

  /** The layer is sound now and was sound after every transaction ever committed to it. */
  ghost predicate SoundThroughout(enc: Encoder, vec: VecTables)
    reads vec
  {
    && vec.Valid()
    && CacheSound(enc, vec.contents)
    && forall i :: 0 <= i < |vec.commits| ==> CacheSound(enc, vec.commits[i])
  }

  // ---- the work of a run ----

  /** One rewritten file: its symbol row ids, in order, and its parse. */
  datatype Work = Work(ids: seq<Id>, p: Parsed)

  type WorkMap = map<Id, Work>

  function Count(w: Work): nat {
    if |w.ids| <= |w.p.exsyms| then |w.ids| else |w.p.exsyms|
  }

  function TextAt(w: Work, i: nat): string
    requires i < Count(w)
  {
    ChunkText(w.p.exsyms[i], w.p.content)
  }

  function SymKey(e: Model, id: Id): VecKey {
    VecKey(SymbolOwner, id, e.name)
  }

  function FileKey(e: Model, id: Id): VecKey {
    VecKey(FileOwner, id, e.name)
  }

  function VectorsOf(e: Model, w: Work): (r: seq<Vec>)
    ensures |r| == Count(w)
    ensures forall i :: 0 <= i < |r| ==> r[i] == e.encode(e.name, TextAt(w, i))
  {
    seq(Count(w), i requires 0 <= i < Count(w) => e.encode(e.name, TextAt(w, i)))
  }

  /** A file without symbols is embedded by its fallback text; another has the normalised mean of its symbols. */
  ghost function FileEntry(e: Model, w: Work): Option<Entry>
    requires Dimensioned(e)
  {
    if |w.p.symbols| == 0 then Some(EntryFor(e, FileFallbackText(w.p))) else
    assert forall v :: v in VectorsOf(e, w) ==> |v| == e.dim;
    match MeanOf(e.arith, VectorsOf(e, w), e.dim)
    case Some(mean) => Some(MeanEntry(e, mean))
    case None => None
  }

  ghost predicate HasSymbol(W: WorkMap, f: Id, i: int) {
    f in W && |W[f].p.symbols| > 0 && 0 <= i < Count(W[f])
  }

  /** Every symbol row belongs to one file, at one position. */
  ghost predicate DistinctIds(W: WorkMap) {
    forall f, i, g, j :: HasSymbol(W, f, i) && HasSymbol(W, g, j) && W[f].ids[i] == W[g].ids[j] ==> f == g && i == j
  }

  /** F holds exactly the vectors of the rewritten files, as embedding all their texts anew gives them. */
  ghost predicate IsFresh(e: Model, W: WorkMap, F: Vectors)
    requires Dimensioned(e)
  {
    && (forall f, i :: HasSymbol(W, f, i) ==> SymKey(e, W[f].ids[i]) in F && F[SymKey(e, W[f].ids[i])] == EntryFor(e, TextAt(W[f], i)))
    && (forall f :: f in W && FileEntry(e, W[f]).Some? ==> FileKey(e, f) in F && F[FileKey(e, f)] == FileEntry(e, W[f]).value)
    && (forall k :: k in F ==> IsWorkKey(e, W, k))
  }

  ghost predicate IsWorkKey(e: Model, W: WorkMap, k: VecKey)
    requires Dimensioned(e)
  {
    && k.model == e.name
    && match k.owner
       case SymbolOwner => exists f, i :: HasSymbol(W, f, i) && W[f].ids[i] == k.id
       case FileOwner => k.id in W && FileEntry(e, W[k.id]).Some?
       case MemoryOwner => false
  }

  function SymbolIdsOf(W: WorkMap): set<Id> {
    set f, i | f in W && 0 <= i < Count(W[f]) && |W[f].p.symbols| > 0 :: W[f].ids[i]
  }

  ghost function WorkEntry(e: Model, W: WorkMap, k: VecKey): Entry
    requires Dimensioned(e) && IsWorkKey(e, W, k)
  {
    if k.owner == SymbolOwner then
      var f, i :| HasSymbol(W, f, i) && W[f].ids[i] == k.id;
      EntryFor(e, TextAt(W[f], i))
    else FileEntry(e, W[k.id]).value
  }

  ghost function Fresh(e: Model, W: WorkMap): Vectors
    requires Dimensioned(e)
  {
    var keys := (set id | id in SymbolIdsOf(W) :: SymKey(e, id)) + (set f | f in W :: FileKey(e, f));
    map k | k in keys && IsWorkKey(e, W, k) :: WorkEntry(e, W, k)
  }

  lemma FreshIs(e: Model, W: WorkMap)
    requires Dimensioned(e) && DistinctIds(W)
    ensures IsFresh(e, W, Fresh(e, W))
  {
    var F := Fresh(e, W);
    hide FileEntry, EntryFor, TextAt;
    forall f, i | HasSymbol(W, f, i)
      ensures SymKey(e, W[f].ids[i]) in F && F[SymKey(e, W[f].ids[i])] == EntryFor(e, TextAt(W[f], i))
    {
      var k := SymKey(e, W[f].ids[i]);
      assert W[f].ids[i] in SymbolIdsOf(W);
      assert IsWorkKey(e, W, k);
      var g, j :| HasSymbol(W, g, j) && W[g].ids[j] == k.id && WorkEntry(e, W, k) == EntryFor(e, TextAt(W[g], j));
      assert f == g && i == j;
    }
    forall f | f in W && FileEntry(e, W[f]).Some? ensures FileKey(e, f) in F && F[FileKey(e, f)] == FileEntry(e, W[f]).value {
      assert IsWorkKey(e, W, FileKey(e, f));
    }
  }

  // ---- the files a run rewrote or deleted ----

  function ParsedPaths(outs: seq<Outcome>): set<Path> {
    set o | o in outs && o.parsed.Some? :: o.rel
  }

  /** The paths whose old vectors a run drops before it stores new ones. */
  function DropSet(mode: Mode, outs: seq<Outcome>, gone: set<Path>): set<Path> {
    match mode
    case Full => {}
    case Incremental => ParsedPaths(outs) + gone
    case Changed => ParsedPaths(outs)
  }

  /** The vectors, under any model, of the old rows of these paths. */
  predicate OwnedBy(t: Tables, paths: set<Path>, k: VecKey) {
    match k.owner
    case SymbolOwner => k.id in t.symbols && t.symbols[k.id].fileId in t.files && t.files[t.symbols[k.id].fileId].path in paths
    case FileOwner => k.id in t.files && t.files[k.id].path in paths
    case MemoryOwner => false
  }

  function Dropped(m: Vectors, t: Tables, paths: set<Path>): Vectors {
    map k | k in m && !OwnedBy(t, paths, k) :: m[k]
  }

  ghost function ParsedAt(outs: seq<Outcome>, p: Path): Parsed
    requires p in ParsedPaths(outs)
  {
    var o :| o in outs && o.rel == p && o.parsed.Some?;
    o.parsed.value
  }

  /** The rewritten files by their new row ids. */
  ghost function WorkOf(t: Tables, outs: seq<Outcome>): WorkMap {
    map id | id in t.files && t.files[id].path in ParsedPaths(outs) :: Work(SymbolIds(t, id), ParsedAt(outs, t.files[id].path))
  }

  // ---- memories ----

  /** What the embedder sees of a stored memory. */
  datatype MemoryRow = MemoryRow(title: string, body: string, tags: seq<string>)

  type Memories = map<Id, MemoryRow>

  function MemoryText(m: MemoryRow): string {
    Join((if m.title != "" then [m.title] else [])
         + (if m.body != "" then [m.body] else [])
         + (if |m.tags| > 0 then [Join(m.tags, " ")] else []), "\n")
  }

  function MemKey(e: Model, id: Id): VecKey {
    VecKey(MemoryOwner, id, e.name)
  }

  /** A memory is embedded unless its text is blank. */
  predicate Embeds(mems: Memories, id: Id) {
    id in mems && !Blank(MemoryText(mems[id]))
  }

  function MemoryVectors(e: Model, mems: Memories): Vectors {
    var keys := set id | id in mems && Embeds(mems, id) :: MemKey(e, id);
    map k | k in keys && k.id in mems :: EntryFor(e, MemoryText(mems[k.id]))
  }

  /** The two layers hold the same memory vectors. */
  ghost predicate SameMemories(a: Vectors, b: Vectors) {
    forall k: VecKey :: k.owner == MemoryOwner ==> (k in a <==> k in b) && (k in a && k in b ==> a[k] == b[k])
  }

  lemma DroppedSameMemories(m: Vectors, t: Tables, paths: set<Path>)
    ensures SameMemories(m, Dropped(m, t, paths))
  {
  }

  lemma FreshSameMemories(e: Model, W: WorkMap, F: Vectors, a: Vectors, b: Vectors)
    requires Dimensioned(e) && IsFresh(e, W, F)
    requires forall k :: k in b <==> k in a || (k in b && k in F)
    requires forall k :: k in b ==> (k in F && b[k] == F[k]) || (k in a && b[k] == a[k])
    ensures SameMemories(a, b)
  {
    forall k | k in F ensures k.owner != MemoryOwner {
      assert IsWorkKey(e, W, k);
    }
  }
}
