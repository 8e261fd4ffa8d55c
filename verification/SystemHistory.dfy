/** Everything together: index runs with and without an embedder, cleans, and memory operations, in any order on one
    store. */
module SystemHistory {
  import opened Base
  import opened VectorStore
  import opened CodeTables
  import opened CodeView
  import opened CodeStore
  import opened Scanning
  import opened Indexing
  import opened MetadataTheorems
  import opened Embedder
  import opened EmbedSpec
  import opened Embedding
  import opened Running
  import MemoryTables
  import MemoryOps
  import MemoryStore
  import MemoryHistory

  datatype Op =
    | Index(w: World, embedder: Option<Model>, mode: Mode, cands: seq<Candidate>, stamp: Stamp)
    | Clean(embedder: Option<Model>, at: string)
    | Remember(op: MemoryHistory.Op)

  /** The embedders of a history may have different names, but a name always stands for the same vectors. */
  ghost predicate Speaks(enc: Encoder, embedder: Option<Model>) {
    embedder.Some? ==> Dimensioned(embedder.value) && embedder.value.encode == enc
  }

  ghost predicate Legal(enc: Encoder, reg: Registry, op: Op) {
    match op
    case Index(w, embedder, mode, cands, stamp) => w.registry == reg && DistinctRels(cands) && Speaks(enc, embedder)
    case Clean(embedder, at) => Speaks(enc, embedder)
    case Remember(o) => !o.IndexOp?
  }

  /** The whole store: the code tables, the memory tables with every id they ever held, and the semantic layer, now and
      after every transaction ever committed to it. */
  datatype Moment = Moment(code: Tables, mem: MemoryTables.Tables, used: set<Id>, contents: Vectors, commits: seq<Vectors>)

  const START := Moment(EMPTY_TABLES, MemoryTables.EMPTY, {}, map[], [])

  function StateOf(m: Moment): MemoryHistory.State {
    MemoryHistory.State(m.mem, m.contents, m.used)
  }

  ghost predicate CodeLives(reg: Registry, t: Tables) {
    Consistent(t) && CountsAgree(t) && GraphCurrent(t) && Sound(reg, ViewOf(t))
  }

  /** The cache invariant, now and after every transaction so far. */
  ghost predicate CacheLives(enc: Encoder, contents: Vectors, commits: seq<Vectors>) {
    CacheSound(enc, contents) && forall i :: 0 <= i < |commits| ==> CacheSound(enc, commits[i])
  }

  /** What holds between operations. */
  ghost predicate Lives(enc: Encoder, reg: Registry, m: Moment) {
    CodeLives(reg, m.code) && MemoryHistory.Inv(StateOf(m)) && CacheLives(enc, m.contents, m.commits)
  }

  /** What an index run does to the semantic layer. A failed embed phase leaves the memory vectors as they were. */
  ghost predicate Embeds(m: Moment, op: Op, failed: bool, m': Moment)
    requires op.Index? && Linked(m.code)
  {
    match op.embedder
    case None => !failed && m'.contents == m.contents && m'.commits == m.commits
    case Some(e) =>
      && Dimensioned(e) && m.commits <= m'.commits
      && (failed <==> EmbedFails(m.contents, m.code, op.w, e, op.mode, op.cands, op.stamp, MemoryHistory.MemoriesOf(m.mem)))
      && if failed then SameMemories(m.contents, m'.contents)
         else m'.contents == VectorsAfter(m.contents, m.code, op.w, e, op.mode, op.cands, op.stamp, MemoryHistory.MemoriesOf(m.mem))
  }

  /** One operation. failed says that the embed phase of an index run failed. */
  ghost predicate Follows(m: Moment, op: Op, failed: bool, m': Moment) {
    match op
    case Index(w, embedder, mode, cands, stamp) =>
      && Linked(m.code) && m'.code == AfterRun(m.code, w, mode, cands, stamp) && m'.mem == m.mem && m'.used == m.used
      && Embeds(m, op, failed, m')
    case Clean(embedder, at) =>
      && !failed && m' == if embedder.Some? then Moment(AfterClean(m.code, at), m.mem, m.used, map[], m.commits + [map[]])
                          else m.(code := AfterClean(m.code, at))
    case Remember(o) =>
      && !failed && m'.code == m.code && MemoryHistory.Next(StateOf(m), o, StateOf(m'))
      && m'.commits == if o.RemoveOp? && MemoryOps.RemoveSpec(m.mem, o.target).Ok? then m.commits + [m'.contents] else m.commits
  }

  ghost function Now(code: CodeDb, mem: MemoryStore.MemoryDb, vec: VecTables): Moment
    reads code, mem, vec
  {
    Moment(code.Snapshot(), mem.Snapshot(), mem.used, vec.contents, vec.commits)
  }

  // ---- one operation ----

  lemma CodeAfterRun(reg: Registry, t: Tables, w: World, mode: Mode, cands: seq<Candidate>, s: Stamp)
    requires CodeLives(reg, t) && w.registry == reg && DistinctRels(cands)
    ensures Linked(t) && CodeLives(reg, AfterRun(t, w, mode, cands, s))
  {
    ConsistentLinked(t);
    hide AfterRun, ViewOf, Sound, Consistent, CountsAgree, GraphCurrent, Linked;
    RunView(t, w, mode, cands, s);
    RunSound(t, w, mode, cands, s);
  }

  lemma CodeAfterClean(reg: Registry, t: Tables, at: string)
    ensures CodeLives(reg, AfterClean(t, at))
  {
    CleanView(t, at);
    hide AfterClean, Consistent, CountsAgree, GraphCurrent;
  }

  /** A run, completed or not, is an index step of the memory history. */
  lemma RunIsIndexed(m: Moment, op: Op, failed: bool, m': Moment)
    requires op.Index? && Follows(m, op, failed, m')
    ensures MemoryHistory.Next(StateOf(m), MemoryHistory.IndexOp, StateOf(m'))
  {
    hide AfterRun, MemoryHistory.MemoriesOf, Linked, Fresh, SameMemories, EmbedFails;
    if op.embedder.Some? && !failed {
      CompletedIsIndexed(m, op, m');
    } else {
      SameMemoriesRefl(m.contents);
      MemoryHistory.FailedPhaseIsIndexed(StateOf(m), StateOf(m'));
    }
  }

  lemma SameMemoriesRefl(v: Vectors)
    ensures SameMemories(v, v)
  {
  }

  lemma FreshOwners(e: Model, W: WorkMap)
    requires Dimensioned(e)
    ensures forall k :: k in Fresh(e, W) ==> k.owner != MemoryOwner
  {
    forall k | k in Fresh(e, W) ensures k.owner != MemoryOwner {
      assert IsWorkKey(e, W, k);
    }
  }

  lemma CompletedIsIndexed(m: Moment, op: Op, m': Moment)
    requires op.Index? && op.embedder.Some? && Follows(m, op, false, m')
    ensures MemoryHistory.Next(StateOf(m), MemoryHistory.IndexOp, StateOf(m'))
  {
    var e := op.embedder.value;
    assert Linked(m.code) && Dimensioned(e) && m'.mem == m.mem && m'.used == m.used;
    assert m'.contents == VectorsAfter(m.contents, m.code, op.w, e, op.mode, op.cands, op.stamp, MemoryHistory.MemoriesOf(m.mem));
    hide *;
    var existing := HashesOf(m.code);
    var outs := ScanAll(op.w, op.cands, existing, op.mode == Full, true);
    var gone := existing.Keys - RelSet(op.cands);
    var W := WorkOf(AfterRun(m.code, op.w, op.mode, op.cands, op.stamp), outs);
    VectorsAfterIs(m.contents, m.code, op.w, e, op.mode, op.cands, op.stamp, MemoryHistory.MemoriesOf(m.mem), existing, outs, gone);
    FreshOwners(e, W);
    StatesAre(m);
    StatesAre(m');
    MemoryHistory.EmbedPhaseIsIndexed(StateOf(m), StateOf(m'), e, m.code, DropSet(op.mode, outs, gone), Fresh(e, W));
    IndexedIsNext(StateOf(m), StateOf(m'));
  }

  lemma StatesAre(m: Moment)
    ensures StateOf(m).t == m.mem && StateOf(m).vectors == m.contents && StateOf(m).used == m.used
  {
  }

  lemma IndexedIsNext(s: MemoryHistory.State, s': MemoryHistory.State)
    requires MemoryHistory.Indexed(s, s')
    ensures MemoryHistory.Next(s, MemoryHistory.IndexOp, s')
  {
  }

  lemma RunFollows(m: Moment, op: Op, failed: bool, m': Moment)
    requires op.Index? && Linked(m.code) && m'.mem == m.mem && m'.used == m.used
    requires m'.code == AfterRun(m.code, op.w, op.mode, op.cands, op.stamp)
    requires op.embedder.None? ==> !failed && m'.contents == m.contents && m'.commits == m.commits
    requires op.embedder.Some? ==> Dimensioned(op.embedder.value) && m.commits <= m'.commits
    requires op.embedder.Some? ==>
      (failed <==> EmbedFails(m.contents, m.code, op.w, op.embedder.value, op.mode, op.cands, op.stamp, MemoryHistory.MemoriesOf(m.mem)))
    requires op.embedder.Some? && failed ==> SameMemories(m.contents, m'.contents)
    requires op.embedder.Some? && !failed ==>
      m'.contents == VectorsAfter(m.contents, m.code, op.w, op.embedder.value, op.mode, op.cands, op.stamp, MemoryHistory.MemoriesOf(m.mem))
    ensures Follows(m, op, failed, m')
  {
    hide Linked, AfterRun, Dimensioned, SameMemories, VectorsAfter, EmbedFails, MemoryHistory.MemoriesOf;
  }

  lemma AfterRunLives(enc: Encoder, reg: Registry, m: Moment, op: Op, failed: bool, m': Moment)
    requires op.Index? && Lives(enc, reg, m) && Follows(m, op, failed, m')
    requires CodeLives(reg, m'.code) && CacheLives(enc, m'.contents, m'.commits)
    ensures Lives(enc, reg, m')
  {
    hide Follows, CodeLives, CacheLives, MemoryHistory.Inv, MemoryHistory.Next;
    RunIsIndexed(m, op, failed, m');
    MemoryHistory.StepKeeps(StateOf(m), MemoryHistory.IndexOp, StateOf(m'));
  }

  lemma NowIs(code: CodeDb, mem: MemoryStore.MemoryDb, vec: VecTables)
    ensures Now(code, mem, vec) == Moment(code.Snapshot(), mem.Snapshot(), mem.used, vec.contents, vec.commits)
  {
  }

  lemma BeforeRun(enc: Encoder, reg: Registry, m: Moment, op: Op, vec: VecTables)
    requires Lives(enc, reg, m) && Legal(enc, reg, op) && op.Index?
    requires vec.Valid() && vec.contents == m.contents && vec.commits == m.commits
    ensures Consistent(m.code) && Linked(m.code) && CodeLives(reg, m.code) && CacheLives(enc, m.contents, m.commits)
    ensures DistinctRels(op.cands) && op.w.registry == reg
    ensures op.embedder.Some? ==>
      Dimensioned(op.embedder.value) && op.embedder.value.encode == enc && SoundThroughout(op.embedder.value.encode, vec)
  {
    hide CacheSound, FtsAgrees, GraphCurrent, Sound, MemoryHistory.Inv, VecTables.Valid, DistinctRels, Dimensioned;
    assert Linked(m.code);
  }

  lemma FromSound(enc: Encoder, vec: VecTables)
    requires SoundThroughout(enc, vec)
    ensures vec.Valid() && CacheLives(enc, vec.contents, vec.commits)
  {
  }

  method ApplyIndex(code: CodeDb, mem: MemoryStore.MemoryDb, vec: VecTables, op: Op, ghost enc: Encoder, ghost reg: Registry) returns (failed: bool)
    requires op.Index? && vec.Valid() && Lives(enc, reg, Now(code, mem, vec)) && Legal(enc, reg, op)
    modifies code, vec
    ensures vec.Valid() && Lives(enc, reg, Now(code, mem, vec))
    ensures Follows(old(Now(code, mem, vec)), op, failed, Now(code, mem, vec))
  {
    hide *;
    ghost var m := Now(code, mem, vec);
    NowIs(code, mem, vec);
    BeforeRun(enc, reg, m, op, vec);
    CodeAfterRun(reg, m.code, op.w, op.mode, op.cands, op.stamp);
    var r := Run(code, vec, op.w, op.embedder, op.mode, op.cands, op.stamp, MemoryHistory.MemoriesOf(mem.Snapshot()));
    failed := r.EmbedFailed?;
    NowIs(code, mem, vec);
    if op.embedder.Some? {
      FromSound(enc, vec);
    }
    RunFollows(m, op, failed, Now(code, mem, vec));
    AfterRunLives(enc, reg, m, op, failed, Now(code, mem, vec));
  }

  lemma CacheGrows(enc: Encoder, contents: Vectors, commits: seq<Vectors>, contents': Vectors)
    requires CacheLives(enc, contents, commits) && CacheSound(enc, contents')
    ensures CacheLives(enc, contents', commits + [contents'])
  {
    hide CacheSound;
  }

  lemma NothingCached(enc: Encoder)
    ensures CacheSound(enc, map[])
  {
  }

  lemma OwnersGone(enc: Encoder, m: Vectors, owner: OwnerType, ids: seq<Id>)
    requires CacheSound(enc, m)
    ensures CacheSound(enc, WithoutOwners(m, owner, ids))
  {
    hide SoundEntry;
  }

  lemma CleanIsIndexed(m: Moment, op: Op, m': Moment)
    requires op.Clean? && Follows(m, op, false, m')
    ensures MemoryHistory.Next(StateOf(m), MemoryHistory.IndexOp, StateOf(m'))
  {
    hide AfterClean;
  }

  lemma CleanLives(enc: Encoder, reg: Registry, m: Moment, op: Op, m': Moment)
    requires op.Clean? && Lives(enc, reg, m) && Follows(m, op, false, m')
    ensures Lives(enc, reg, m')
  {
    CodeAfterClean(reg, m.code, op.at);
    hide CodeLives, AfterClean, CacheSound, CacheLives, MemoryHistory.Inv;
    if op.embedder.Some? {
      assert CacheSound(enc, map[]) by { NothingCached(enc); }
      CacheGrows(enc, m.contents, m.commits, map[]);
    }
    CleanIsIndexed(m, op, m');
    hide MemoryHistory.Next;
    MemoryHistory.StepKeeps(StateOf(m), MemoryHistory.IndexOp, StateOf(m'));
  }

  method ApplyClean(code: CodeDb, mem: MemoryStore.MemoryDb, vec: VecTables, op: Op, ghost enc: Encoder, ghost reg: Registry)
    requires op.Clean? && vec.Valid() && Lives(enc, reg, Now(code, mem, vec)) && Legal(enc, reg, op)
    modifies code, vec
    ensures vec.Valid() && Lives(enc, reg, Now(code, mem, vec))
    ensures Follows(old(Now(code, mem, vec)), op, false, Now(code, mem, vec))
  {
    ghost var m := Now(code, mem, vec);
    hide Lives, CacheSound, SoundEntry, VecTables.Valid, AfterClean;
    SoundForClean(enc, reg, m, op, vec);
    var deleted := RunClean(code, vec, op.embedder, op.at);
    if op.embedder.Some? {
      FromSound(op.embedder.value.encode, vec);
    }
    CleanLives(enc, reg, m, op, Now(code, mem, vec));
  }

  lemma SoundForClean(enc: Encoder, reg: Registry, m: Moment, op: Op, vec: VecTables)
    requires op.Clean? && Lives(enc, reg, m) && Legal(enc, reg, op)
    requires vec.Valid() && vec.contents == m.contents && vec.commits == m.commits
    ensures op.embedder.Some? ==> SoundThroughout(op.embedder.value.encode, vec)
  {
    hide CacheSound, CodeLives, MemoryHistory.Inv, VecTables.Valid;
  }

  lemma MemoryLives(enc: Encoder, reg: Registry, m: Moment, op: Op, m': Moment)
    requires op.Remember? && Lives(enc, reg, m) && Follows(m, op, false, m')
    requires !op.op.IndexOp?
    ensures Lives(enc, reg, m')
  {
    hide CodeLives, MemoryHistory.Inv, CacheSound;
    MemoryHistory.StepKeeps(StateOf(m), op.op, StateOf(m'));
    VectorsRemoved(m, op, m');
    hide MemoryHistory.Next, MemoryOps.RemoveSpec;
    if op.op.RemoveOp? && MemoryOps.RemoveSpec(m.mem, op.op.target).Ok? {
      OwnersGone(enc, m.contents, MemoryOwner, [MemoryOps.RemoveSpec(m.mem, op.op.target).value]);
      CacheGrows(enc, m.contents, m.commits, m'.contents);
    }
  }

  /** Of the memory operations, only a removal changes the semantic layer. */
  lemma VectorsRemoved(m: Moment, op: Op, m': Moment)
    requires op.Remember? && Follows(m, op, false, m') && !op.op.IndexOp?
    ensures m'.contents ==
      if op.op.RemoveOp? && MemoryOps.RemoveSpec(m.mem, op.op.target).Ok?
      then WithoutOwners(m.contents, MemoryOwner, [MemoryOps.RemoveSpec(m.mem, op.op.target).value])
      else m.contents
  {
    hide MemoryOps.AddSpec, MemoryOps.EditSpec, MemoryOps.RemoveSpec, MemoryOps.ImportSpec, WithoutOwners;
  }

  lemma MemoryValid(enc: Encoder, reg: Registry, m: Moment, mem: MemoryStore.MemoryDb)
    requires Lives(enc, reg, m) && m.mem == mem.Snapshot() && m.used == mem.used
    ensures mem.Valid()
  {
    hide CodeLives, CacheLives, MemoryTables.Consistent, MemoryOps.Passed;
  }

  method ApplyMemory(code: CodeDb, mem: MemoryStore.MemoryDb, vec: VecTables, op: Op, ghost enc: Encoder, ghost reg: Registry)
    requires op.Remember? && vec.Valid() && Lives(enc, reg, Now(code, mem, vec)) && Legal(enc, reg, op)
    modifies mem, vec
    ensures vec.Valid() && Lives(enc, reg, Now(code, mem, vec))
    ensures Follows(old(Now(code, mem, vec)), op, false, Now(code, mem, vec))
  {
    ghost var m := Now(code, mem, vec);
    hide Lives, VecTables.Valid, MemoryStore.MemoryDb.Valid, WithoutOwners, CodeDb.Snapshot, MemoryStore.MemoryDb.Snapshot;
    hide MemoryOps.AddSpec, MemoryOps.EditSpec, MemoryOps.RemoveSpec, MemoryOps.ImportSpec, MemoryTables.Deleted;
    MemoryValid(enc, reg, m, mem);
    var o := op.op;
    if o.AddOp? {
      var r := MemoryStore.Add(mem, o.m, o.now);
    } else if o.EditOp? {
      var r := MemoryStore.Edit(mem, o.id, o.c, o.now);
    } else if o.RemoveOp? {
      var r := MemoryStore.Remove(mem, vec, o.target);
    } else {
      var r := MemoryStore.Import(mem, o.doc, o.preserve);
    }
    MemoryLives(enc, reg, m, op, Now(code, mem, vec));
  }

  method Apply(code: CodeDb, mem: MemoryStore.MemoryDb, vec: VecTables, op: Op, ghost enc: Encoder, ghost reg: Registry) returns (failed: bool)
    requires vec.Valid() && Lives(enc, reg, Now(code, mem, vec)) && Legal(enc, reg, op)
    modifies code, mem, vec
    ensures vec.Valid() && Lives(enc, reg, Now(code, mem, vec))
    ensures Follows(old(Now(code, mem, vec)), op, failed, Now(code, mem, vec))
  {
    hide *;
    failed := false;
    match op
    case Index(w, embedder, mode, cands, stamp) => failed := ApplyIndex(code, mem, vec, op, enc, reg);
    case Clean(embedder, at) => ApplyClean(code, mem, vec, op, enc, reg);
    case Remember(o) => ApplyMemory(code, mem, vec, op, enc, reg);
  }

  // ---- whole histories ----

  ghost predicate IsHistory(trace: seq<Moment>, ops: seq<Op>, failed: seq<bool>) {
    && |trace| == |ops| + 1 && |failed| == |ops| && trace[0] == START
    && forall i :: 0 <= i < |ops| ==> Follows(trace[i], ops[i], failed[i], trace[i + 1])
  }

  lemma StartLives(enc: Encoder, reg: Registry)
    ensures Lives(enc, reg, START)
  {
    NothingCached(enc);
    MemoryHistory.StartInv();
    HistoryInvariant(reg, []);
    hide Consistent, CountsAgree, GraphCurrent, Sound, MemoryHistory.Inv;
  }

  /** The history of the first operations, alive throughout. */
  ghost predicate Lived(enc: Encoder, reg: Registry, trace: seq<Moment>, ops: seq<Op>, failed: seq<bool>) {
    IsHistory(trace, ops, failed) && forall i :: 0 <= i < |trace| ==> Lives(enc, reg, trace[i])
  }

  lemma LivedStart(enc: Encoder, reg: Registry)
    ensures Lived(enc, reg, [START], [], [])
  {
    StartLives(enc, reg);
    hide Lives;
  }

  lemma NowStarts(code: CodeDb, mem: MemoryStore.MemoryDb, vec: VecTables)
    requires code.Snapshot() == EMPTY_TABLES && mem.Snapshot() == MemoryTables.EMPTY && mem.used == {}
    requires vec.contents == map[] && vec.commits == []
    ensures Now(code, mem, vec) == START
  {
  }

  lemma LivedMore(enc: Encoder, reg: Registry, trace: seq<Moment>, ops: seq<Op>, failed: seq<bool>, op: Op, f: bool, m: Moment)
    requires Lived(enc, reg, trace, ops, failed) && Lives(enc, reg, m) && Follows(trace[|ops|], op, f, m)
    ensures Lived(enc, reg, trace + [m], ops + [op], failed + [f])
  {
    hide Lives, Follows;
  }

  lemma LivedNow(enc: Encoder, reg: Registry, trace: seq<Moment>, ops: seq<Op>, failed: seq<bool>)
    requires Lived(enc, reg, trace, ops, failed)
    ensures |trace| == |ops| + 1 && Lives(enc, reg, trace[|ops|])
  {
    hide Lives, Follows;
  }

  /** Runs any sequence of operations on an empty store. Whatever the modes, trees and embedders, whether embed phases
      fail or there is no embedder, and however memories are added, edited, removed and imported in between: after
      every operation each stored digest names the text whose vector is stored with it, and so it did after every
      transaction on the way; the code tables are consistent, counted, current and sound; the memory tables are
      consistent, no id is handed out twice, and no vector belongs to a memory that is gone. */
  method Replay(ops: seq<Op>, ghost enc: Encoder, ghost reg: Registry) returns (ghost trace: seq<Moment>, failed: seq<bool>)
    requires forall i :: 0 <= i < |ops| ==> Legal(enc, reg, ops[i])
    ensures Lived(enc, reg, trace, ops, failed)
  {
    hide *;
    var code := new CodeDb();
    var mem := new MemoryStore.MemoryDb();
    var vec := new VecTables();
    NowStarts(code, mem, vec);
    LivedStart(enc, reg);
    trace, failed := [START], [];
    var i := 0;
    while i < |ops|
      invariant 0 <= i <= |ops| && Lived(enc, reg, trace, ops[..i], failed)
      invariant |trace| == i + 1 && trace[i] == Now(code, mem, vec) && vec.Valid()
    {
      LivedNow(enc, reg, trace, ops[..i], failed);
      var f := Apply(code, mem, vec, ops[i], enc, reg);
      LivedMore(enc, reg, trace, ops[..i], failed, ops[i], f, Now(code, mem, vec));
      assert ops[..i + 1] == ops[..i] + [ops[i]];
      trace, failed := trace + [Now(code, mem, vec)], failed + [f];
      i := i + 1;
    }
    assert ops[..i] == ops;
  }

  // ---- the layers of a history ----

  function MemoryOpOf(op: Op): MemoryHistory.Op {
    if op.Remember? then op.op else MemoryHistory.IndexOp
  }

  function States(trace: seq<Moment>): (r: seq<MemoryHistory.State>)
    ensures |r| == |trace| && forall i :: 0 <= i < |r| ==> r[i] == StateOf(trace[i])
  {
    seq(|trace|, i requires 0 <= i < |trace| => StateOf(trace[i]))
  }

  function MemoryOpsOf(ops: seq<Op>): (r: seq<MemoryHistory.Op>)
    ensures |r| == |ops| && forall i :: 0 <= i < |r| ==> r[i] == MemoryOpOf(ops[i])
  {
    seq(|ops|, i requires 0 <= i < |ops| => MemoryOpOf(ops[i]))
  }

  lemma StepOfMemory(m: Moment, op: Op, failed: bool, m': Moment)
    requires Follows(m, op, failed, m')
    ensures MemoryHistory.Next(StateOf(m), MemoryOpOf(op), StateOf(m'))
  {
    hide AfterRun, VectorsAfter, Linked, SameMemories, EmbedFails, MemoryHistory.MemoriesOf;
    if op.Index? {
      hide Follows, MemoryHistory.Next;
      RunIsIndexed(m, op, failed, m');
    }
  }

  /** Seen from the memories, runs of the indexer are index steps: what MemoryHistory says of ids holds here too. */
  lemma MemoriesAlong(trace: seq<Moment>, ops: seq<Op>, failed: seq<bool>)
    requires IsHistory(trace, ops, failed)
    ensures MemoryHistory.IsHistory(States(trace), MemoryOpsOf(ops))
  {
    hide Follows, MemoryHistory.Next;
    forall i | 0 <= i < |ops| ensures MemoryHistory.Next(States(trace)[i], MemoryOpsOf(ops)[i], States(trace)[i + 1]) {
      StepOfMemory(trace[i], ops[i], failed[i], trace[i + 1]);
    }
  }

  function StepOf(op: Op): seq<Step> {
    match op
    case Index(w, _, mode, cands, stamp) => [IndexRun(w, mode, cands, stamp)]
    case Clean(_, at) => [CleanRun(at)]
    case Remember(_) => []
  }

  /** The runs among the operations. */
  function StepsOf(ops: seq<Op>): seq<Step> {
    if ops == [] then [] else StepsOf(ops[..|ops| - 1]) + StepOf(ops[|ops| - 1])
  }

  lemma AfterAllSnoc(steps: seq<Step>, step: Step)
    ensures Linked(AfterAll(steps)) && AfterAll(steps + [step]) == After(AfterAll(steps), step)
  {
    assert (steps + [step])[..|steps|] == steps;
    hide Linked, After;
    ConsistentLinked(AfterAll(steps));
  }

  lemma StepOfCode(steps: seq<Step>, m: Moment, op: Op, failed: bool, m': Moment)
    requires m.code == AfterAll(steps) && Follows(m, op, failed, m')
    ensures m'.code == AfterAll(steps + StepOf(op))
  {
    hide AfterAll, AfterRun, AfterClean, Linked, Embeds, MemoryHistory.Next;
    match op
    case Index(w, _, mode, cands, stamp) => AfterAllSnoc(steps, IndexRun(w, mode, cands, stamp));
    case Clean(_, at) => AfterAllSnoc(steps, CleanRun(at));
    case Remember(_) => assert steps + [] == steps;
  }

  /** Seen from the code, memory operations and the fate of the embed phase do not exist. */
  lemma {:induction false} CodeAlong(trace: seq<Moment>, ops: seq<Op>, failed: seq<bool>, i: nat)
    requires IsHistory(trace, ops, failed) && i < |trace|
    ensures trace[i].code == AfterAll(StepsOf(ops[..i]))
  {
    hide AfterAll, Follows, StepOf;
    if i == 0 {
      assert ops[..0] == [];
      NoSteps();
    } else {
      CodeAlong(trace, ops, failed, i - 1);
      assert ops[..i][..i - 1] == ops[..i - 1];
      assert Follows(trace[i - 1], ops[i - 1], failed[i - 1], trace[i]);
      StepOfCode(StepsOf(ops[..i - 1]), trace[i - 1], ops[i - 1], failed[i - 1], trace[i]);
    }
  }

  lemma NoSteps()
    ensures AfterAll([]) == EMPTY_TABLES
  {
  }
}
