/** What add, edit, remove, export and import do to the memory tables. */
module MemoryOps {
  import opened Base
  import opened Ids
  import opened Text
  import opened Digests
  import opened Decimal
  import opened MemoryText
  import opened Lists
  import opened RowTables
  import opened TagOrder
  import opened MemoryTables
  import opened MemoryRecords

  const KINDS := ["adr", "plan", "documentation"]

  predicate ValidKind(k: string) {
    k in KINDS
  }

  datatype Error = InvalidKind | TitleRequired | NothingToChange | InvalidId | NotFound | UnsupportedSchema | Collision | CounterExhausted

  datatype Result<+T> = Ok(value: T) | Err(error: Error)

  function Empty(): string -> bool {
    (s: string) => s == ""
  }

  /** The tags of an add: empty ones and repetitions dropped. */
  function CleanTags(tags: seq<string>): seq<string> {
    Dedupe(Drop(tags, Empty()))
  }

  /** What an add stores. The evidence comes with the blob ids its paths have now. */
  function NewMemory(m: Memory, now: string): Memory {
    Memory(Row(m.row.kind, m.row.title, m.row.body, now, now), CleanTags(m.tags), m.evidence, m.links)
  }

  /** The counter moves and the memory is written under the new number. */
  function Numbering(t: Tables, m: Memory): Tables {
    Written(t.(memSeq := t.memSeq + 1), t.memSeq + 1, m)
  }

  function AddSpec(t: Tables, m: Memory, now: string): Result<Tables> {
    if !ValidKind(m.row.kind) then Err(InvalidKind)
    else if Blank(m.row.title) then Err(TitleRequired)
    else if t.memSeq >= MAX_INT64 then Err(CounterExhausted)
    else Ok(Numbering(t, NewMemory(m, now)))
  }

  predicate NoChanges(c: Changes) {
    && c.kind.None? && c.title.None? && c.body.None?
    && c.addTags == [] && c.removeTags == [] && c.addEvidence == [] && c.removeEvidence == []
    && c.addLinks == [] && c.removeLinks == []
  }

  function EditSpec(t: Tables, id: string, c: Changes, now: string): Result<Tables> {
    match ParseID(id)
    case None => Err(InvalidId)
    case Some(n) =>
      if NoChanges(c) then Err(NothingToChange)
      else if c.kind.Some? && !ValidKind(c.kind.value) then Err(InvalidKind)
      else if n !in t.memories then Err(NotFound)
      else Ok(EditedIndexed(t, n, c, now))
  }

  function RemoveSpec(t: Tables, id: string): Result<Id> {
    match ParseID(id)
    case None => Err(InvalidId)
    case Some(n) => if n !in t.memories then Err(NotFound) else Ok(n)
  }

  // ---- export ----

  const SCHEMA_VERSION := 4

  /** ListMemories with optional kind and tag filters. */
  function Selected(t: Tables, kind: string, tag: string): set<Id> {
    set id | id in t.memories && (kind == "" || t.memories[id].kind == kind) && (tag == "" || (id, tag) in t.tags)
  }

  function RecordsAt(t: Tables, ids: seq<Id>): seq<Record>
    requires forall i :: 0 <= i < |ids| ==> ids[i] in t.memories
  {
    seq(|ids|, i requires 0 <= i < |ids| => Record(FormatID(ids[i]), Full(t, ids[i])))
  }

  function ExportOf(t: Tables, kind: string, tag: string): Doc {
    SelectedListed(t, kind, tag);
    Doc(SCHEMA_VERSION, RecordsAt(t, Ascending(Selected(t, kind, tag))))
  }

  lemma SelectedListed(t: Tables, kind: string, tag: string)
    ensures forall i :: 0 <= i < |Ascending(Selected(t, kind, tag))| ==> Ascending(Selected(t, kind, tag))[i] in Selected(t, kind, tag)
  {
    var ids := Ascending(Selected(t, kind, tag));
    AscendingMembers(Selected(t, kind, tag));
    hide Ascending;
    assert forall i :: 0 <= i < |ids| ==> ids[i] in ids;
  }

  function ExportSpec(t: Tables, kind: string, tag: string): Result<Doc> {
    if kind != "" && !ValidKind(kind) then Err(InvalidKind) else Ok(ExportOf(t, kind, tag))
  }

  // ---- import ----

  type HashIndex = map<Digest, Id>

  /** Later memories overwrite earlier ones of equal content. */
  function IndexHashes(t: Tables, ids: seq<Id>): HashIndex
    requires forall i :: 0 <= i < |ids| ==> ids[i] in t.memories
  {
    if ids == [] then map[]
    else IndexHashes(t, ids[..|ids| - 1])[RecordHash(Full(t, ids[|ids| - 1])) := ids[|ids| - 1]]
  }

  function ExistingHashes(t: Tables): HashIndex {
    AllListed(t);
    IndexHashes(t, Ascending(t.memories.Keys))
  }

  lemma AllListed(t: Tables)
    ensures forall i :: 0 <= i < |Ascending(t.memories.Keys)| ==> Ascending(t.memories.Keys)[i] in t.memories
  {
    var ids := Ascending(t.memories.Keys);
    AscendingMembers(t.memories.Keys);
    hide Ascending;
    assert forall i :: 0 <= i < |ids| ==> ids[i] in ids;
  }

  /** An import under way: the tables inside the transaction, the hashes seen, the counters, the largest restored id. */
  datatype Importing = Importing(t: Tables, seen: HashIndex, imported: nat, skipped: nat, maxMem: Id)

  function PreserveStep(st: Importing, r: Record): Result<Importing> {
    match ParseID(r.id)
    case None => Err(InvalidId)
    case Some(id) =>
      if id in st.t.memories then Err(Collision)
      else Ok(st.(t := Written(st.t, id, r.m), imported := st.imported + 1, maxMem := if id > st.maxMem then id else st.maxMem))
  }

  function ReassignStep(st: Importing, r: Record): Result<Importing> {
    var h := RecordHash(r.m);
    if h in st.seen then Ok(st.(skipped := st.skipped + 1))
    else if st.t.memSeq >= MAX_INT64 then Err(CounterExhausted)
    else Ok(st.(t := Numbering(st.t, r.m), seen := st.seen[h := st.t.memSeq + 1], imported := st.imported + 1))
  }

  function ImportStep(st: Importing, r: Record, preserve: bool): Result<Importing> {
    if preserve then PreserveStep(st, r) else ReassignStep(st, r)
  }

  function ImportAll(st: Importing, recs: seq<Record>, preserve: bool): Result<Importing> {
    if recs == [] then Ok(st)
    else
      match ImportAll(st, recs[..|recs| - 1], preserve)
      case Ok(s) => ImportStep(s, recs[|recs| - 1], preserve)
      case Err(e) => Err(e)
  }

  /** SetMemSeqAtLeast. */
  function Raised(t: Tables, n: Id): Tables {
    t.(memSeq := if n > t.memSeq then n else t.memSeq)
  }

  datatype Imported = Imported(t: Tables, imported: nat, skipped: nat)

  function ImportStart(t: Tables): Importing {
    Importing(t, ExistingHashes(t), 0, 0, 0)
  }

  function ImportSpec(t: Tables, doc: Doc, preserve: bool): Result<Imported> {
    if doc.schemaVersion != SCHEMA_VERSION then Err(UnsupportedSchema)
    else
      match ImportAll(ImportStart(t), doc.memories, preserve)
      case Ok(s) => Ok(Imported(if preserve && s.maxMem > 0 then Raised(s.t, s.maxMem) else s.t, s.imported, s.skipped))
      case Err(e) => Err(e)
  }

  // ---- every operation keeps the tables consistent ----

  lemma NumberingConsistent(t: Tables, m: Memory)
    requires Consistent(t) && t.memSeq < MAX_INT64
    ensures t.memSeq + 1 !in t.memories
    ensures Consistent(Numbering(t, m)) && Numbering(t, m).memSeq == t.memSeq + 1
    ensures ViewOf(Numbering(t, m)) == ViewOf(t)[t.memSeq + 1 := ReadBack(m)]
  {
    var u := t.(memSeq := t.memSeq + 1);
    assert t.memSeq + 1 !in t.memories;
    SameView(t, u);
    WrittenView(u, t.memSeq + 1, m);
    hide OwnedIn, UniqueRows, FtsAgrees, ViewOf, ReadBack, Full;
    assert Consistent(u);
    hide Linked;
    WrittenConsistent(u, t.memSeq + 1, m);
  }

  /** The state inside a preserving import: consistent but for the counter, which is raised at the end. */
  ghost predicate Pending(t: Tables, maxMem: Id) {
    && Linked(t) && FtsAgrees(ViewOf(t), t.fts)
    && t.memSeq <= MAX_INT64 && maxMem <= MAX_INT64
    && forall id :: id in t.memories ==> 0 < id && (id <= t.memSeq || id <= maxMem)
  }

  lemma ParsedIdBounds(s: string)
    ensures ParseID(s).Some? ==> 0 < ParseID(s).value <= MAX_INT64
  {
    hide TrimPrefix, ValueOf, AllDigits;
  }

  lemma WrittenShape(t: Tables, id: Id, m: Memory)
    ensures Written(t, id, m).memories.Keys == t.memories.Keys + {id} && Written(t, id, m).memSeq == t.memSeq
  {
    hide Reindexed, Tagged, AppendAll, InsertIgnoreAll, Join;
  }

  lemma WrittenPending(t: Tables, maxMem: Id, id: Id, m: Memory)
    requires Pending(t, maxMem) && 0 < id <= MAX_INT64 && id !in t.memories
    ensures Pending(Written(t, id, m), if id > maxMem then id else maxMem)
  {
    hide Written, Linked, FtsAgrees, ViewOf;
    WrittenShape(t, id, m);
    WrittenLinked(t, id, m);
    WrittenAgrees(t, id, m);
  }

  lemma PreserveStepPending(st: Importing, r: Record)
    requires Pending(st.t, st.maxMem) && PreserveStep(st, r).Ok?
    ensures var s := PreserveStep(st, r).value;
            && Pending(s.t, s.maxMem) && s.t.memSeq == st.t.memSeq && s.t.memories.Keys == st.t.memories.Keys + {ParseID(r.id).value}
            && ViewOf(s.t) == ViewOf(st.t)[ParseID(r.id).value := ReadBack(r.m)]
  {
    var id := ParseID(r.id).value;
    hide Written, FtsAgrees, ViewOf, ReadBack, ParseID, Linked;
    ParsedIdBounds(r.id);
    WrittenView(st.t, id, r.m);
    WrittenShape(st.t, id, r.m);
    WrittenPending(st.t, st.maxMem, id, r.m);
  }

  lemma RaisedConsistent(t: Tables, maxMem: Id)
    requires Pending(t, maxMem)
    ensures Consistent(Raised(t, maxMem)) && ViewOf(Raised(t, maxMem)) == ViewOf(t)
  {
    SameView(t, Raised(t, maxMem));
    hide FtsAgrees, ViewOf, OwnedIn, UniqueRows;
  }

  /** The counter has passed every id that was ever stored. */
  ghost predicate Passed(t: Tables, used: set<Id>) {
    t.memories.Keys <= used && forall id :: id in used ==> 0 < id <= t.memSeq
  }

  /** The next number is unused, and is used afterwards. */
  lemma NumberingPassed(t: Tables, m: Memory, used: set<Id>)
    requires Passed(t, used)
    ensures t.memSeq + 1 !in used && t.memSeq + 1 !in t.memories
    ensures Passed(Numbering(t, m), used + {t.memSeq + 1})
  {
    WrittenShape(t.(memSeq := t.memSeq + 1), t.memSeq + 1, m);
    hide Written;
  }

  ghost predicate Extends(v: View, w: View) {
    forall id :: id in v ==> id in w && w[id] == v[id]
  }

  /** What holds inside an import: new memories only, numbered past the counter unless ids are restored. */
  ghost predicate ImportInv(t: Tables, st: Importing, n: nat, preserve: bool) {
    && st.imported + st.skipped == n
    && Extends(ViewOf(t), ViewOf(st.t))
    && if preserve then Pending(st.t, st.maxMem) && st.t.memSeq == t.memSeq && st.skipped == 0
       else Consistent(st.t) && st.maxMem == 0 && t.memSeq <= st.t.memSeq && AllNew(t, st.t)
  }

  ghost predicate AllNew(t: Tables, u: Tables) {
    t.memSeq <= u.memSeq && forall id :: id in u.memories ==> id in t.memories || t.memSeq < id
  }

  lemma ImportStartInv(t: Tables, preserve: bool)
    requires Consistent(t)
    ensures ImportInv(t, ImportStart(t), 0, preserve)
  {
    hide ViewOf, Linked, FtsAgrees, ExistingHashes;
  }

  lemma ExtendsUpdate(v: View, w: View, id: Id, m: Memory)
    requires Extends(v, w) && id !in w
    ensures Extends(v, w[id := m])
  {
  }

  lemma NumberingNew(t: Tables, u: Tables, m: Memory)
    requires AllNew(t, u)
    ensures AllNew(t, Numbering(u, m)) && t.memSeq <= Numbering(u, m).memSeq
  {
    WrittenShape(u.(memSeq := u.memSeq + 1), u.memSeq + 1, m);
    hide Written;
  }

  lemma ReassignStepInv(t: Tables, st: Importing, n: nat, r: Record)
    requires ImportInv(t, st, n, false) && ReassignStep(st, r).Ok?
    ensures ImportInv(t, ReassignStep(st, r).value, n + 1, false)
  {
    hide ViewOf, Consistent, Numbering, RecordHash, ReadBack, AllNew, Extends;
    if RecordHash(r.m) !in st.seen {
      NumberingConsistent(st.t, r.m);
      NumberingNew(t, st.t, r.m);
      NotViewed(st.t, st.t.memSeq + 1);
      ExtendsUpdate(ViewOf(t), ViewOf(st.t), st.t.memSeq + 1, ReadBack(r.m));
    }
    assert ImportInv(t, ReassignStep(st, r).value, n + 1, false);
  }

  lemma NotViewed(t: Tables, id: Id)
    ensures id in ViewOf(t) <==> id in t.memories
  {
  }

  lemma PreserveStepInv(t: Tables, st: Importing, n: nat, r: Record)
    requires ImportInv(t, st, n, true) && PreserveStep(st, r).Ok?
    ensures ImportInv(t, PreserveStep(st, r).value, n + 1, true)
  {
    hide ViewOf, Pending, Written, ReadBack, ParseID, Extends;
    PreserveStepPending(st, r);
    NotViewed(st.t, ParseID(r.id).value);
    ExtendsUpdate(ViewOf(t), ViewOf(st.t), ParseID(r.id).value, ReadBack(r.m));
    assert ImportInv(t, PreserveStep(st, r).value, n + 1, true);
  }

  lemma {:induction false} ImportAllInv(t: Tables, recs: seq<Record>, preserve: bool)
    requires Consistent(t) && ImportAll(ImportStart(t), recs, preserve).Ok?
    ensures ImportInv(t, ImportAll(ImportStart(t), recs, preserve).value, |recs|, preserve)
  {
    hide ImportInv, ImportStart, PreserveStep, ReassignStep, Consistent;
    if recs == [] {
      ImportStartInv(t, preserve);
    } else {
      var init := recs[..|recs| - 1];
      ImportAllInv(t, init, preserve);
      var st := ImportAll(ImportStart(t), init, preserve).value;
      if preserve {
        PreserveStepInv(t, st, |init|, recs[|recs| - 1]);
      } else {
        ReassignStepInv(t, st, |init|, recs[|recs| - 1]);
      }
    }
  }

  lemma ImportAllSnoc(st: Importing, recs: seq<Record>, i: nat, preserve: bool)
    requires i < |recs|
    ensures ImportAll(st, recs[..i + 1], preserve) ==
      match ImportAll(st, recs[..i], preserve)
      case Ok(s) => ImportStep(s, recs[i], preserve)
      case Err(e) => Err(e)
  {
    assert recs[..i + 1][..i] == recs[..i];
  }

  /** The first failure is the outcome. */
  lemma {:induction false} ImportAllFails(st: Importing, recs: seq<Record>, i: nat, preserve: bool)
    requires i < |recs| && ImportAll(st, recs[..i + 1], preserve).Err?
    ensures ImportAll(st, recs, preserve) == ImportAll(st, recs[..i + 1], preserve)
    decreases |recs|
  {
    hide ImportStep;
    if i + 1 == |recs| {
      assert recs[..i + 1] == recs;
    } else {
      var init := recs[..|recs| - 1];
      assert init[..i + 1] == recs[..i + 1];
      ImportAllFails(st, init, i, preserve);
    }
  }

  lemma ImportAllNumbered(t: Tables, recs: seq<Record>, preserve: bool)
    requires Consistent(t) && ImportAll(ImportStart(t), recs, preserve).Ok?
    ensures preserve || Numbered(ImportAll(ImportStart(t), recs, preserve).value.t)
  {
    ImportAllInv(t, recs, preserve);
    hide ImportAll, ImportStart, Linked, FtsAgrees, Extends;
  }

  lemma ImportSpecIs(t: Tables, doc: Doc, preserve: bool)
    ensures ImportSpec(t, doc, preserve) ==
      if doc.schemaVersion != SCHEMA_VERSION then Err(UnsupportedSchema)
      else match ImportAll(ImportStart(t), doc.memories, preserve)
           case Ok(s) => Ok(Imported(if preserve && s.maxMem > 0 then Raised(s.t, s.maxMem) else s.t, s.imported, s.skipped))
           case Err(e) => Err(e)
  {
  }

  /** A successful import leaves consistent tables, keeps every memory it found as it was, counts every record,
      and, unless it restores ids, numbers what it adds with ids that were never stored before. */
  lemma ImportResult(t: Tables, doc: Doc, preserve: bool, used: set<Id>)
    requires Consistent(t) && Passed(t, used) && ImportSpec(t, doc, preserve).Ok?
    ensures var x := ImportSpec(t, doc, preserve).value;
            && Consistent(x.t) && Passed(x.t, used + x.t.memories.Keys)
            && Extends(ViewOf(t), ViewOf(x.t))
            && x.imported + x.skipped == |doc.memories|
            && (!preserve ==> forall id :: id in x.t.memories && id !in t.memories ==> id !in used)
  {
    ImportSpecIs(t, doc, preserve);
    ImportAllInv(t, doc.memories, preserve);
    var s := ImportAll(ImportStart(t), doc.memories, preserve).value;
    var x := ImportSpec(t, doc, preserve).value;
    hide ImportAll, ImportStart, ImportSpec, ViewOf, Extends, Consistent, Linked, FtsAgrees, Passed;
    if preserve {
      PendingMax(t, s, |doc.memories|);
      RaisedConsistent(s.t, s.maxMem);
      PassedLater(t, x.t, used);
    } else {
      PassedLater(t, x.t, used);
      NewUnused(t, x.t, used);
    }
  }

  lemma PendingMax(t: Tables, st: Importing, n: nat)
    requires ImportInv(t, st, n, true)
    ensures Pending(st.t, st.maxMem)
    ensures Raised(st.t, st.maxMem) == if st.maxMem > 0 then Raised(st.t, st.maxMem) else st.t
    ensures t.memSeq <= Raised(st.t, st.maxMem).memSeq
  {
    hide Linked, FtsAgrees, Extends, ViewOf;
  }

  lemma PassedLater(t: Tables, u: Tables, used: set<Id>)
    requires Passed(t, used) && Consistent(u) && t.memSeq <= u.memSeq
    ensures Passed(u, used + u.memories.Keys)
  {
    hide Linked, FtsAgrees;
  }

  lemma NewUnused(t: Tables, u: Tables, used: set<Id>)
    requires Passed(t, used) && AllNew(t, u)
    ensures forall id :: id in u.memories && id !in t.memories ==> id !in used
  {
  }
}
