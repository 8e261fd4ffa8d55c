/** Whole histories of the memory layer: every operation, failed ones included, in any order. */
module MemoryHistory {
  import opened Base
  import opened Ids
  import opened Text
  import opened VectorStore
  import opened Decimal
  import opened MemoryText
  import opened RowTables
  import opened MemoryTables
  import opened MemoryRecords
  import opened MemoryOps
  import opened ImportTheorems
  import CodeTables
  import Embedder
  import EmbedSpec

  /** The tables, the semantic layer, and every id a committed transaction ever stored. */
  datatype State = State(t: Tables, vectors: Vectors, used: set<Id>)

  datatype Op =
    | AddOp(m: Memory, now: string)
    | EditOp(id: string, c: Changes, now: string)
    | RemoveOp(target: string)
    | ImportOp(doc: Doc, preserve: bool)
    | IndexOp

  /** What a run of the indexer can do to the memory vectors: embed stored memories anew, leave them, or clear all. */
  ghost predicate Indexed(s: State, s': State) {
    && s'.t == s.t && s'.used == s.used
    && forall k: VecKey :: k.owner == MemoryOwner && k in s'.vectors ==> k in s.vectors || k.id in s.t.memories
  }

  /** One completed operation. The contracts of the methods in MemoryStore are these cases. */
  ghost predicate Next(s: State, op: Op, s': State) {
    match op
    case AddOp(m, now) =>
      (match AddSpec(s.t, m, now)
       case Ok(t) => s' == State(t, s.vectors, s.used + {t.memSeq})
       case Err(_) => s' == s)
    case EditOp(id, c, now) =>
      (match EditSpec(s.t, id, c, now)
       case Ok(t) => s' == s.(t := t)
       case Err(_) => s' == s)
    case RemoveOp(id) =>
      (match RemoveSpec(s.t, id)
       case Ok(n) => s' == s.(t := Deleted(s.t, n), vectors := WithoutOwners(s.vectors, MemoryOwner, [n]))
       case Err(_) => s' == s)
    case ImportOp(doc, preserve) =>
      (match ImportSpec(s.t, doc, preserve)
       case Ok(x) => s' == State(x.t, s.vectors, s.used + x.t.memories.Keys)
       case Err(_) => s' == s)
    case IndexOp => Indexed(s, s')
  }

  ghost predicate OwnersLive(v: Vectors, memories: set<Id>) {
    forall k: VecKey :: k in v && k.owner == MemoryOwner ==> k.id in memories
  }

  /** Consistent tables with an exact full-text index, a counter past every id ever stored, and no orphan memory vectors. */
  ghost predicate Inv(s: State) {
    Consistent(s.t) && Passed(s.t, s.used) && OwnersLive(s.vectors, s.t.memories.Keys)
  }

  lemma AddKeeps(s: State, m: Memory, now: string, s': State)
    requires Inv(s) && Next(s, AddOp(m, now), s')
    ensures Inv(s') && s.used <= s'.used && s.t.memSeq <= s'.t.memSeq
    ensures forall id :: id in s'.t.memories && id !in s.t.memories ==> id !in s.used
  {
    hide Consistent, ViewOf, Passed, NewMemory, ReadBack, Written;
    if AddSpec(s.t, m, now).Ok? {
      var n := NewMemory(m, now);
      NumberingConsistent(s.t, n);
      NumberingPassed(s.t, n, s.used);
      WrittenShape(s.t.(memSeq := s.t.memSeq + 1), s.t.memSeq + 1, n);
    }
  }

  lemma EditKeeps(s: State, id: string, c: Changes, now: string, s': State)
    requires Inv(s) && Next(s, EditOp(id, c, now), s')
    ensures Inv(s') && s'.used == s.used && s'.t.memSeq == s.t.memSeq && s'.t.memories.Keys == s.t.memories.Keys
  {
    hide Consistent, ViewOf, EditedMemory, ParseID, NoChanges, ValidKind;
    if EditSpec(s.t, id, c, now).Ok? {
      var n := ParseID(id).value;
      EditedConsistent(s.t, n, c, now);
      EditedShape(s.t, n, c, now);
      hide EditedIndexed;
    }
  }

  lemma EditedShape(t: Tables, id: Id, c: Changes, now: string)
    requires id in t.memories
    ensures EditedIndexed(t, id, c, now).memories.Keys == t.memories.Keys && EditedIndexed(t, id, c, now).memSeq == t.memSeq
  {
    hide AppendAll, InsertIgnoreAll, Without, Reindexed;
  }

  lemma RemoveKeeps(s: State, id: string, s': State)
    requires Inv(s) && Next(s, RemoveOp(id), s')
    ensures Inv(s') && s'.used == s.used && s'.t.memSeq == s.t.memSeq && s'.t.memories.Keys <= s.t.memories.Keys
  {
    hide Consistent, ParseID;
    if RemoveSpec(s.t, id).Ok? {
      DeletedConsistent(s.t, ParseID(id).value);
    }
  }

  lemma ImportKeeps(s: State, doc: Doc, preserve: bool, s': State)
    requires Inv(s) && Next(s, ImportOp(doc, preserve), s')
    ensures Inv(s') && s.used <= s'.used
    ensures forall id :: id in s.t.memories ==> id in s'.t.memories
    ensures !preserve ==> forall id :: id in s'.t.memories && id !in s.t.memories ==> id !in s.used
  {
    hide Consistent, ViewOf, Passed, ImportSpec;
    if ImportSpec(s.t, doc, preserve).Ok? {
      ImportResult(s.t, doc, preserve, s.used);
      forall id | id in s.t.memories ensures id in s'.t.memories {
        NotViewed(s.t, id);
        NotViewed(s'.t, id);
      }
    }
  }

  /** Every operation keeps the invariant, and only an id-preserving import can bring an id back. */
  lemma StepKeeps(s: State, op: Op, s': State)
    requires Inv(s) && Next(s, op, s')
    ensures Inv(s') && s.used <= s'.used
    ensures !(op.ImportOp? && op.preserve) ==> forall id :: id in s'.t.memories && id !in s.t.memories ==> id !in s.used
  {
    hide Consistent, Passed, AddSpec, EditSpec, RemoveSpec, ImportSpec;
    match op
    case AddOp(m, now) => AddKeeps(s, m, now, s');
    case EditOp(id, c, now) => EditKeeps(s, id, c, now, s');
    case RemoveOp(id) => RemoveKeeps(s, id, s');
    case ImportOp(doc, preserve) => ImportKeeps(s, doc, preserve, s');
    case IndexOp =>
  }

  ghost predicate IsHistory(states: seq<State>, ops: seq<Op>) {
    && |states| == |ops| + 1
    && states[0] == State(EMPTY, map[], {})
    && forall i :: 0 <= i < |ops| ==> Next(states[i], ops[i], states[i + 1])
  }

  /** From the empty store, in whatever order: the invariant always holds, and used is never forgotten. */
  lemma {:induction false} HistoryKeeps(states: seq<State>, ops: seq<Op>, i: nat)
    requires IsHistory(states, ops) && i < |states|
    ensures Inv(states[i])
    ensures forall j :: 0 <= j <= i ==> states[j].used <= states[i].used
  {
    hide Next, Inv;
    if i == 0 {
      StartInv();
    } else {
      HistoryKeeps(states, ops, i - 1);
      StepKeeps(states[i - 1], ops[i - 1], states[i]);
    }
  }

  lemma StartInv()
    ensures Inv(State(EMPTY, map[], {}))
  {
    EmptyConsistent();
    hide Consistent;
  }

  /** A number handed out by add or by a reassigning import was never in the store before, at any point of the history. */
  lemma NewIdsAreNew(states: seq<State>, ops: seq<Op>, i: nat, j: nat, id: Id)
    requires IsHistory(states, ops) && j <= i < |ops| && !(ops[i].ImportOp? && ops[i].preserve)
    requires id in states[i + 1].t.memories && id !in states[i].t.memories
    ensures id !in states[j].t.memories
  {
    HistoryKeeps(states, ops, i);
    HistoryKeeps(states, ops, j);
    hide Next, Consistent;
    assert states[j].used <= states[i].used;
    StepKeeps(states[i], ops[i], states[i + 1]);
  }

  /** Restoring a document that names an id which was stored before and is gone. */
  ghost predicate RestoresUsed(s: State, op: Op) {
    && op.ImportOp? && op.preserve && op.doc.schemaVersion == SCHEMA_VERSION && Restorable(s.t, op.doc.memories)
    && exists i :: 0 <= i < |op.doc.memories| && ParseID(op.doc.memories[i].id).value in s.used
  }

  ghost predicate BringsBack(s: State, s': State, id: Id) {
    id in s'.t.memories && id !in s.t.memories && id in s.used
  }

  /** An id comes back exactly when an id-preserving import restores it. */
  lemma ReuseExactly(s: State, op: Op, s': State)
    requires Inv(s) && Next(s, op, s')
    ensures (exists id :: BringsBack(s, s', id)) <==> RestoresUsed(s, op)
  {
    StepKeeps(s, op, s');
    if op.ImportOp? && op.preserve {
      assert Consistent(s.t);
      PreserveImportExactly(s.t, op.doc);
      hide Consistent, ViewOf, ParseID, ReadBack, ImportSpec, Inv, Passed;
      if ImportSpec(s.t, op.doc, true).Ok? {
        RestoredBack(s, op.doc.memories, s');
      }
    }
  }

  lemma RestoredBack(s: State, recs: seq<Record>, s': State)
    requires Restorable(s.t, recs) && Restored(ViewOf(s.t), recs, ViewOf(s'.t))
    ensures (exists id :: BringsBack(s, s', id)) <==> exists i :: 0 <= i < |recs| && ParseID(recs[i].id).value in s.used
  {
    hide ParseID, ReadBack, Full;
    if id :| BringsBack(s, s', id) {
      NotViewed(s.t, id);
      NotViewed(s'.t, id);
      var i :| 0 <= i < |recs| && ParseID(recs[i].id).value == id;
    }
    if i :| 0 <= i < |recs| && ParseID(recs[i].id).value in s.used {
      NotViewed(s'.t, ParseID(recs[i].id).value);
      assert BringsBack(s, s', ParseID(recs[i].id).value);
    }
  }

  lemma RestorableSame(t: Tables, u: Tables, recs: seq<Record>)
    requires Restorable(t, recs) && t.memories.Keys == u.memories.Keys
    ensures Restorable(u, recs)
  {
    hide ParseID;
  }

  lemma OnlyExported(t: Tables, id: Id)
    requires Consistent(t) && t.memories.Keys == {id}
    ensures var recs := ExportOf(t, "", "").memories; |recs| == 1 && ParseID(recs[0].id) == Some(id)
  {
    ExportRestorable(t, "", "");
    SelectAll(t);
    AscendingMembers({id});
    hide *;
    assert Ascending({id})[0] in Ascending({id});
  }

  lemma FirstAdded(m: Memory, now: string)
    requires ValidKind(m.row.kind) && !Blank(m.row.title)
    ensures var t := Numbering(EMPTY, NewMemory(m, now));
            AddSpec(EMPTY, m, now) == Ok(t) && Consistent(t) && t.memories.Keys == {1} && t.memSeq == 1
  {
    EmptyConsistent();
    hide Consistent, ValidKind, Blank, ViewOf, NewMemory, Written, ReadBack;
    NumberingConsistent(EMPTY, NewMemory(m, now));
    WrittenShape(EMPTY.(memSeq := 1), 1, NewMemory(m, now));
  }

  lemma OnlyRemoved(t: Tables)
    requires Consistent(t) && t.memories.Keys == {1}
    ensures RemoveSpec(t, FormatID(1)) == Ok(1) && Consistent(Deleted(t, 1)) && Deleted(t, 1).memories.Keys == {}
  {
    ParseFormatID(1);
    DeletedConsistent(t, 1);
    hide Consistent, FormatID, ParseID;
  }

  lemma OnlyRestored(t: Tables, u: Tables)
    requires Consistent(t) && t.memories.Keys == {1} && Consistent(u) && u.memories.Keys == {}
    ensures var r := ImportSpec(u, ExportOf(t, "", ""), true); r.Ok? && 1 in r.value.t.memories
  {
    var doc := ExportOf(t, "", "");
    assert doc.schemaVersion == SCHEMA_VERSION;
    ExportRestorable(t, "", "");
    hide Consistent, ViewOf, FormatID, ParseID, ExportOf, Restorable, ImportSpec, ReadBack;
    RestorableSame(EMPTY, u, doc.memories);
    PreserveImportExactly(u, doc);
    OnlyExported(t, 1);
    NotViewed(ImportSpec(u, doc, true).value.t, 1);
  }

  lemma NextStates(m: Memory, now: string, t: Tables, u: Tables, doc: Doc, x: Imported)
    requires AddSpec(EMPTY, m, now) == Ok(t) && RemoveSpec(t, FormatID(1)) == Ok(1) && u == Deleted(t, 1)
    requires ImportSpec(u, doc, true) == Ok(x)
    ensures Next(State(EMPTY, map[], {}), AddOp(m, now), State(t, map[], {t.memSeq}))
    ensures Next(State(t, map[], {t.memSeq}), RemoveOp(FormatID(1)), State(u, map[], {t.memSeq}))
    ensures Next(State(u, map[], {t.memSeq}), ImportOp(doc, true), State(x.t, map[], {t.memSeq} + x.t.memories.Keys))
  {
    hide AddSpec, RemoveSpec, ImportSpec, Deleted, FormatID;
    assert WithoutOwners(map[], MemoryOwner, [1]) == map[];
    assert {} + {t.memSeq} == {t.memSeq};
  }

  /** It does happen: a memory is added, exported and removed, and restoring the export brings id 1 back. */
  lemma RemovedIdComesBack(m: Memory, now: string) returns (states: seq<State>, ops: seq<Op>)
    requires ValidKind(m.row.kind) && !Blank(m.row.title)
    ensures IsHistory(states, ops) && |states| == 4
    ensures ops == [AddOp(m, now), RemoveOp(FormatID(1)), ImportOp(ExportOf(states[1].t, "", ""), true)]
    ensures 1 in states[1].t.memories && BringsBack(states[2], states[3], 1)
  {
    hide *;
    var t := Numbering(EMPTY, NewMemory(m, now));
    var u := Deleted(t, 1);
    FirstAdded(m, now);
    OnlyRemoved(t);
    OnlyRestored(t, u);
    var doc := ExportOf(t, "", "");
    var x := ImportSpec(u, doc, true).value;
    NextStates(m, now, t, u, doc, x);
    var s2, s3 := State(u, map[], {t.memSeq}), State(x.t, map[], {t.memSeq} + x.t.memories.Keys);
    states := [State(EMPTY, map[], {}), State(t, map[], {t.memSeq}), s2, s3];
    ops := [AddOp(m, now), RemoveOp(FormatID(1)), ImportOp(doc, true)];
    ThreeSteps(states, ops);
    CameBack(s2, s3, 1);
  }

  lemma ThreeSteps(states: seq<State>, ops: seq<Op>)
    requires |states| == 4 && |ops| == 3 && states[0] == State(EMPTY, map[], {})
    requires Next(states[0], ops[0], states[1]) && Next(states[1], ops[1], states[2]) && Next(states[2], ops[2], states[3])
    ensures IsHistory(states, ops)
  {
    hide Next;
  }

  lemma CameBack(s: State, s': State, id: Id)
    requires id in s'.t.memories && id !in s.t.memories && id in s.used
    ensures BringsBack(s, s', id)
  {
  }

  /** What the indexer reads of the memories. */
  function MemoriesOf(t: Tables): EmbedSpec.Memories {
    map id | id in t.memories :: EmbedSpec.MemoryRow(t.memories[id].title, t.memories[id].body, Full(t, id).tags)
  }

  /** A completed embed phase over the stored memories is an index step. */
  lemma EmbedPhaseIsIndexed(s: State, s': State, e: Embedder.Model, code: CodeTables.Tables, paths: set<Path>, added: Vectors)
    requires s'.t == s.t && s'.used == s.used
    requires s'.vectors == EmbedSpec.Dropped(s.vectors, code, paths) + added + EmbedSpec.MemoryVectors(e, MemoriesOf(s.t))
    requires forall k :: k in added ==> k.owner != MemoryOwner
    ensures Indexed(s, s')
  {
    hide Full, EmbedSpec.MemoryText, EmbedSpec.Embeds;
  }

  /** So is one that failed, or a run without an embedder. */
  lemma FailedPhaseIsIndexed(s: State, s': State)
    requires s'.t == s.t && s'.used == s.used && EmbedSpec.SameMemories(s.vectors, s'.vectors)
    ensures Indexed(s, s')
  {
  }

}
