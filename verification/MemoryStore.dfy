/** The memory tables as the store changes them, and the operations of the memory manager over them. */
module MemoryStore {
  import opened Base
  import opened Ids
  import opened Text
  import opened Digests
  import opened VectorStore
  import opened Decimal
  import opened MemoryText
  import opened RowTables
  import opened TagOrder
  import opened MemoryTables
  import opened MemoryRecords
  import opened MemoryOps

  class MemoryDb {
    var memories: map<Id, Row>
    var tags: set<(Id, string)>
    var evidence: Table<Evidence>
    var links: Table<Link>
    var fts: map<Id, FtsRow>
    var memSeq: nat
    /** Every id a committed transaction ever stored. */
    ghost var used: set<Id>

    function Snapshot(): Tables
      reads this
    {
      Tables(memories, tags, evidence, links, fts, memSeq)
    }

    /** What every completed operation keeps: consistent tables, and a counter that has passed every id ever stored. */
    ghost predicate Valid()
      reads this
    {
      Consistent(Snapshot()) && Passed(Snapshot(), used)
    }

    constructor ()
      ensures Valid() && Snapshot() == EMPTY && used == {}
    {
      memories, tags, evidence, links, fts, memSeq, used := map[], {}, map[], map[], map[], 0, {};
      new;
      EmptyConsistent();
    }

    method Rollback(before: Tables)
      modifies `memories, `tags, `evidence, `links, `fts, `memSeq
      ensures Snapshot() == before
    {
      memories, tags, evidence, links, fts, memSeq := before.memories, before.tags, before.evidence, before.links, before.fts, before.memSeq;
    }

    /** UPDATE ... RETURNING. The counter is a 64-bit integer; past its end the statement fails. */
    method NextMemSeq() returns (n: Option<Id>)
      modifies `memSeq
      ensures old(memSeq) >= MAX_INT64 ==> n.None? && Snapshot() == old(Snapshot())
      ensures old(memSeq) < MAX_INT64 ==> n == Some(old(memSeq) + 1) && Snapshot() == old(Snapshot()).(memSeq := old(memSeq) + 1)
    {
      if memSeq >= MAX_INT64 {
        return None;
      }
      memSeq := memSeq + 1;
      n := Some(memSeq);
    }

    method SetMemSeqAtLeast(n: Id)
      modifies `memSeq
      ensures Snapshot() == Raised(old(Snapshot()), n)
    {
      memSeq := if n > memSeq then n else memSeq;
    }

    /** False is a clash with the primary key. */
    method InsertMemory(id: Id, row: Row) returns (ok: bool)
      modifies `memories
      ensures ok <==> id !in old(memories)
      ensures memories == if ok then old(memories)[id := row] else old(memories)
    {
      ok := id !in memories;
      if ok {
        memories := memories[id := row];
      }
    }

    method AddTag(id: Id, tag: string)
      modifies `tags
      ensures tags == old(tags) + {(id, tag)}
    {
      tags := tags + {(id, tag)};
    }

    method RemoveTag(id: Id, tag: string)
      modifies `tags
      ensures tags == old(tags) - {(id, tag)}
    {
      tags := tags - {(id, tag)};
    }

    method AddTags(id: Id, ts: seq<string>)
      modifies `tags
      ensures tags == old(tags) + Tagged(id, ts)
    {
      var i := 0;
      while i < |ts|
        invariant 0 <= i <= |ts|
        invariant tags == old(tags) + Tagged(id, ts[..i])
      {
        AddTag(id, ts[i]);
        TaggedSnoc(id, ts, i);
        i := i + 1;
      }
      assert ts[..i] == ts;
    }

    method RemoveTags(id: Id, ts: seq<string>)
      modifies `tags
      ensures tags == old(tags) - Tagged(id, ts)
    {
      var i := 0;
      while i < |ts|
        invariant 0 <= i <= |ts|
        invariant tags == old(tags) - Tagged(id, ts[..i])
      {
        RemoveTag(id, ts[i]);
        TaggedSnoc(id, ts, i);
        i := i + 1;
      }
      assert ts[..i] == ts;
    }

    method AddEvidence(id: Id, e: Evidence)
      modifies `evidence
      ensures evidence == Append(old(evidence), id, e)
    {
      evidence := evidence[NextId(evidence.Keys) := Owned(id, e)];
    }

    method AddAllEvidence(id: Id, es: seq<Evidence>)
      modifies `evidence
      ensures evidence == AppendAll(old(evidence), id, es)
    {
      hide Append;
      var i := 0;
      while i < |es|
        invariant 0 <= i <= |es|
        invariant evidence == AppendAll(old(evidence), id, es[..i])
      {
        AddEvidence(id, es[i]);
        assert es[..i + 1][..i] == es[..i];
        i := i + 1;
      }
      assert es[..i] == es;
    }

    method RemoveEvidence(id: Id, path: string, start: int, end: int)
      modifies `evidence
      ensures evidence == Without(old(evidence), id, Naming([(path, start, end)]))
    {
      evidence := map r | r in evidence && !Matches(evidence[r], id, path, start, end) :: evidence[r];
    }

    method RemoveAllEvidence(id: Id, specs: seq<(string, int, int)>)
      modifies `evidence
      ensures evidence == Without(old(evidence), id, Naming(specs))
    {
      assert evidence == Without(evidence, id, Naming([]));
      var i := 0;
      while i < |specs|
        invariant 0 <= i <= |specs|
        invariant evidence == Without(old(evidence), id, Naming(specs[..i]))
      {
        RemoveEvidence(id, specs[i].0, specs[i].1, specs[i].2);
        assert specs[..i + 1] == specs[..i] + [specs[i]];
        i := i + 1;
      }
      assert specs[..i] == specs;
    }

    method AddLink(id: Id, l: Link)
      modifies `links
      ensures links == InsertIgnore(old(links), id, l)
    {
      if !(exists r :: r in links && links[r] == Owned(id, l)) {
        links := links[NextId(links.Keys) := Owned(id, l)];
      }
    }

    method AddLinks(id: Id, ls: seq<Link>)
      modifies `links
      ensures links == InsertIgnoreAll(old(links), id, ls)
    {
      hide InsertIgnore;
      var i := 0;
      while i < |ls|
        invariant 0 <= i <= |ls|
        invariant links == InsertIgnoreAll(old(links), id, ls[..i])
      {
        AddLink(id, ls[i]);
        assert ls[..i + 1][..i] == ls[..i];
        i := i + 1;
      }
      assert ls[..i] == ls;
    }

    method RemoveLink(id: Id, l: Link)
      modifies `links
      ensures links == Without(old(links), id, Among([l]))
    {
      links := map r | r in links && links[r] != Owned(id, l) :: links[r];
    }

    method RemoveLinks(id: Id, ls: seq<Link>)
      modifies `links
      ensures links == Without(old(links), id, Among(ls))
    {
      assert links == Without(links, id, Among([]));
      var i := 0;
      while i < |ls|
        invariant 0 <= i <= |ls|
        invariant links == Without(old(links), id, Among(ls[..i]))
      {
        RemoveLink(id, ls[i]);
        assert ls[..i + 1] == ls[..i] + [ls[i]];
        i := i + 1;
      }
      assert ls[..i] == ls;
    }

    method DeleteMemoryFTS(id: Id)
      modifies `fts
      ensures fts == FtsWithout(old(fts), id)
    {
      fts := map r | r in fts && fts[r].memory != id :: fts[r];
    }

    method ReindexMemoryFTS(id: Id, title: string, body: string, ts: seq<string>)
      modifies `fts
      ensures fts == Reindexed(old(fts), FtsRow(title, body, Join(ts, " "), id))
    {
      DeleteMemoryFTS(id);
      fts := fts[NextId(fts.Keys) := FtsRow(title, body, Join(ts, " "), id)];
    }

    /** Drops the index row, the vectors, and the memory with its cascades. */
    method DeleteMemory(id: Id, vec: VecTables)
      requires vec.Valid()
      modifies `memories, `tags, `evidence, `links, `fts, vec
      ensures Snapshot() == Deleted(old(Snapshot()), id)
      ensures vec.Valid() && vec.contents == WithoutOwners(old(vec.contents), MemoryOwner, [id])
      ensures vec.commits == old(vec.commits) + [vec.contents]
    {
      DeleteMemoryFTS(id);
      vec.DeleteVectors(MemoryOwner, [id]);
      memories := memories - {id};
      tags := set p | p in tags && p.0 != id;
      evidence, links := Disown(evidence, id), Disown(links, id);
    }

    /** A memory and its associations, each read in its table's order. */
    method MemoryFull(id: Id) returns (m: Option<Memory>)
      ensures m == if id in memories then Some(Full(Snapshot(), id)) else None
    {
      if id !in memories {
        return None;
      }
      var es := ReadRows(evidence, id);
      var ls := ReadRows(links, id);
      m := Some(Memory(memories[id], SortedTags(TagsAt(tags, id)), es, ls));
    }

    /** Writes one memory with everything it carries. False is a clash of ids; then the caller rolls back. */
    method WriteRecord(id: Id, m: Memory) returns (ok: bool)
      modifies `memories, `tags, `evidence, `links, `fts
      ensures ok <==> id !in old(memories)
      ensures ok ==> Snapshot() == Written(old(Snapshot()), id, m)
    {
      hide Tagged, AppendAll, InsertIgnoreAll, Reindexed;
      ok := InsertMemory(id, m.row);
      if !ok {
        return;
      }
      AddTags(id, m.tags);
      AddAllEvidence(id, m.evidence);
      AddLinks(id, m.links);
      ReindexMemoryFTS(id, m.row.title, m.row.body, m.tags);
    }
  }

  /** WHERE memory_id = ? AND path = ? AND line_start = ? AND line_end = ?. */
  predicate Matches(row: Owned<Evidence>, id: Id, path: string, start: int, end: int) {
    row.owner == id && row.value.path == path && row.value.start == start && row.value.end == end
  }

  lemma TaggedSnoc(id: Id, ts: seq<string>, i: nat)
    requires i < |ts|
    ensures Tagged(id, ts[..i + 1]) == Tagged(id, ts[..i]) + {(id, ts[i])}
  {
    assert ts[..i + 1] == ts[..i] + [ts[i]];
  }

  /** The read loop over one owner's rows. */
  method ReadRows<T>(t: Table<T>, id: Id) returns (xs: seq<T>)
    ensures xs == ListedBy(t, id)
  {
    var rows := InOrder(t);
    xs := [];
    var i := 0;
    while i < |rows|
      invariant 0 <= i <= |rows|
      invariant xs == ValuesOf(rows[..i], id)
    {
      assert rows[..i + 1][..i] == rows[..i];
      if rows[i].owner == id {
        xs := xs + [rows[i].value];
      }
      i := i + 1;
    }
    assert rows[..i] == rows;
  }

  /** dedupe of the add command. */
  method DedupeTags(tags: seq<string>) returns (out: seq<string>)
    ensures out == CleanTags(tags)
  {
    hide CleanTags;
    assert CleanTags(tags[..0]) == [] by { NothingClean(); }
    var seen: set<string> := {};
    out := [];
    var i := 0;
    while i < |tags|
      invariant 0 <= i <= |tags|
      invariant out == CleanTags(tags[..i])
      invariant seen == Members(out)
    {
      var s := tags[i];
      assert tags[..i + 1] == tags[..i] + [s];
      if s != "" && s !in seen {
        seen := seen + {s};
        out := out + [s];
      }
      CleanSnoc(tags[..i], s);
      i := i + 1;
    }
    assert tags[..i] == tags;
  }

  lemma NothingClean()
    ensures CleanTags([]) == []
  {
  }

  lemma CleanSnoc(tags: seq<string>, s: string)
    ensures CleanTags(tags + [s]) == if s == "" || s in CleanTags(tags) then CleanTags(tags) else CleanTags(tags) + [s]
  {
    DropSnoc(tags, s, Empty());
    var d := Drop(tags, Empty());
    assert (d + [s])[..|d|] == d;
  }

  // ---- the operations ----

  method Add(db: MemoryDb, m: Memory, now: string) returns (r: Result<(string, Memory)>)
    requires db.Valid()
    modifies db
    ensures db.Valid()
    ensures match AddSpec(old(db.Snapshot()), m, now)
            case Err(e) => r == Err(e) && db.Snapshot() == old(db.Snapshot()) && db.used == old(db.used)
            case Ok(t) => db.Snapshot() == t && r == Ok((FormatID(t.memSeq), ReadBack(NewMemory(m, now))))
                          && t.memSeq !in old(db.used) && db.used == old(db.used) + {t.memSeq}
  {
    ghost var t, used := db.Snapshot(), db.used;
    assert Consistent(t) && Passed(t, used);
    AddSpecIs(t, m, now);
    hide Blank, ValidKind, CleanTags, ReadBack, Written, Passed, ViewOf, Full, Consistent, FormatID, AddSpec, NewMemory, Numbering;
    if !ValidKind(m.row.kind) {
      return Err(InvalidKind);
    }
    if Blank(m.row.title) {
      return Err(TitleRequired);
    }
    var clean := DedupeTags(m.tags);
    var new' := Memory(Row(m.row.kind, m.row.title, m.row.body, now, now), clean, m.evidence, m.links);
    NewMemoryIs(m, now);
    var n := db.NextMemSeq();
    if n.None? {
      return Err(CounterExhausted);
    }
    NumberingConsistent(t, new');
    NumberingPassed(t, new', used);
    var full := Store(db, n.value, new', t);
    r := Ok((FormatID(n.value), full));
  }

  lemma AddSpecIs(t: Tables, m: Memory, now: string)
    ensures AddSpec(t, m, now) ==
      if !ValidKind(m.row.kind) then Err(InvalidKind)
      else if Blank(m.row.title) then Err(TitleRequired)
      else if t.memSeq >= MAX_INT64 then Err(CounterExhausted)
      else Ok(Numbering(t, NewMemory(m, now)))
  {
  }

  lemma NewMemoryIs(m: Memory, now: string)
    ensures NewMemory(m, now) == Memory(Row(m.row.kind, m.row.title, m.row.body, now, now), CleanTags(m.tags), m.evidence, m.links)
  {
  }

  /** Writes the numbered memory and loads it. */
  method Store(db: MemoryDb, id: Id, m: Memory, ghost t: Tables) returns (full: Memory)
    requires id == t.memSeq + 1 && id !in t.memories && db.Snapshot() == t.(memSeq := id)
    requires ViewOf(Numbering(t, m)) == ViewOf(t)[id := ReadBack(m)]
    modifies db
    ensures db.Snapshot() == Numbering(t, m) && db.used == old(db.used) + {id}
    ensures full == ReadBack(m)
  {
    hide Written, ViewOf, Full, ReadBack;
    var ok := db.WriteRecord(id, m);
    db.used := db.used + {id};
    var f := db.MemoryFull(id);
    FullIsView(db.Snapshot(), id);
    full := f.value;
  }

  lemma FullIsView(t: Tables, id: Id)
    ensures id in t.memories <==> id in ViewOf(t)
    ensures id in t.memories ==> Full(t, id) == ViewOf(t)[id]
  {
  }

  /** Two transactions: the changes, then the index row from what is now stored. */
  method Edit(db: MemoryDb, id: string, c: Changes, now: string) returns (r: Result<(string, Memory)>)
    requires db.Valid()
    modifies db
    ensures db.Valid() && db.used == old(db.used)
    ensures match EditSpec(old(db.Snapshot()), id, c, now)
            case Err(e) => r == Err(e) && db.Snapshot() == old(db.Snapshot())
            case Ok(t) => db.Snapshot() == t
                          && var n := ParseID(id).value;
                             n in t.memories && n in ViewOf(old(db.Snapshot()))
                             && r == Ok((FormatID(n), EditedMemory(ViewOf(old(db.Snapshot()))[n], c, now)))
  {
    ghost var t := db.Snapshot();
    hide EditedMemory, EditedIndexed, ViewOf, ParseID, FormatID, Full, Consistent, Passed, ValidKind, NoChanges, Edited;
    var n := ParseID(id);
    if n.None? {
      return Err(InvalidId);
    }
    if NoChanges(c) {
      return Err(NothingToChange);
    }
    if c.kind.Some? && !ValidKind(c.kind.value) {
      return Err(InvalidKind);
    }
    var cur := db.MemoryFull(n.value);
    if cur.None? {
      return Err(NotFound);
    }
    EditedConsistent(t, n.value, c, now);
    EditedPassed(t, n.value, c, now, db.used);
    FullIsView(t, n.value);
    var full := ChangeAndIndex(db, n.value, c, now);
    r := Ok((FormatID(n.value), full));
  }

  method ChangeAndIndex(db: MemoryDb, id: Id, c: Changes, now: string) returns (full: Memory)
    requires id in db.memories && Consistent(db.Snapshot())
    modifies db`memories, db`tags, db`evidence, db`links, db`fts
    ensures id in old(db.memories) && db.Snapshot() == EditedIndexed(old(db.Snapshot()), id, c, now)
    ensures id in ViewOf(old(db.Snapshot())) && full == EditedMemory(ViewOf(old(db.Snapshot()))[id], c, now)
  {
    ghost var t := db.Snapshot();
    EditedConsistent(t, id, c, now);
    EditedRow(t, id, c, now);
    FullIsView(t, id);
    hide EditedMemory, EditedIndexed, ViewOf, Full, Consistent, Edited, Reindexed, Join;
    ApplyChanges(db, id, c, now);
    var updated := db.MemoryFull(id);
    db.ReindexMemoryFTS(id, updated.value.row.title, updated.value.row.body, updated.value.tags);
    assert db.Snapshot() == EditedIndexed(t, id, c, now);
    var f := db.MemoryFull(id);
    FullIsView(db.Snapshot(), id);
    full := f.value;
  }

  lemma EditedRow(t: Tables, id: Id, c: Changes, now: string)
    requires id in t.memories
    ensures var u := Edited(t, id, c, now);
            && id in u.memories
            && EditedIndexed(t, id, c, now)
               == u.(fts := Reindexed(u.fts, FtsRow(Full(u, id).row.title, Full(u, id).row.body, Join(Full(u, id).tags, " "), id)))
  {
    hide AppendAll, InsertIgnoreAll, Without, SortedTags, TagsAt, Tagged, Reindexed, ListedBy, Join;
  }

  lemma EditedPassed(t: Tables, id: Id, c: Changes, now: string, used: set<Id>)
    requires id in t.memories && Passed(t, used)
    ensures Passed(EditedIndexed(t, id, c, now), used)
  {
    hide AppendAll, InsertIgnoreAll, Without, SortedTags, TagsAt, Tagged, Reindexed;
    assert EditedIndexed(t, id, c, now).memories.Keys == t.memories.Keys;
  }

  /** The first transaction of an edit. */
  method ApplyChanges(db: MemoryDb, id: Id, c: Changes, now: string)
    requires id in db.memories
    modifies db`memories, db`tags, db`evidence, db`links
    ensures db.Snapshot() == Edited(old(db.Snapshot()), id, c, now)
  {
    hide Tagged, AppendAll, InsertIgnoreAll, Without;
    var row := db.memories[id];
    db.memories := db.memories[id := Row(c.kind.GetOr(row.kind), c.title.GetOr(row.title), c.body.GetOr(row.body), row.created, now)];
    db.RemoveTags(id, c.removeTags);
    db.AddTags(id, c.addTags);
    db.RemoveAllEvidence(id, c.removeEvidence);
    db.AddAllEvidence(id, c.addEvidence);
    db.RemoveLinks(id, c.removeLinks);
    db.AddLinks(id, c.addLinks);
  }

  method Remove(db: MemoryDb, vec: VecTables, id: string) returns (r: Result<string>)
    requires db.Valid() && vec.Valid()
    modifies db, vec
    ensures db.Valid() && vec.Valid() && db.used == old(db.used)
    ensures match RemoveSpec(old(db.Snapshot()), id)
            case Err(e) => r == Err(e) && unchanged(db) && unchanged(vec)
            case Ok(n) => r == Ok(FormatID(n)) && db.Snapshot() == Deleted(old(db.Snapshot()), n)
                          && vec.contents == WithoutOwners(old(vec.contents), MemoryOwner, [n])
                          && vec.commits == old(vec.commits) + [vec.contents]
  {
    ghost var t := db.Snapshot();
    hide ParseID, Deleted, WithoutOwners, Linked, Numbered, FtsAgrees;
    var n := ParseID(id);
    if n.None? {
      return Err(InvalidId);
    }
    if n.value !in db.memories {
      return Err(NotFound);
    }
    DeletedConsistent(t, n.value);
    DeletedPassed(t, n.value, db.used);
    db.DeleteMemory(n.value, vec);
    r := Ok(FormatID(n.value));
  }

  lemma DeletedPassed(t: Tables, id: Id, used: set<Id>)
    requires Passed(t, used)
    ensures Passed(Deleted(t, id), used)
  {
  }

  method Export(db: MemoryDb, kind: string, tag: string) returns (r: Result<Doc>)
    ensures r == ExportSpec(db.Snapshot(), kind, tag)
  {
    if kind != "" && !ValidKind(kind) {
      return Err(InvalidKind);
    }
    hide Ascending, Full;
    var ids := Ascending(Selected(db.Snapshot(), kind, tag));
    SelectedListed(db.Snapshot(), kind, tag);
    var records: seq<Record> := [];
    var i := 0;
    while i < |ids|
      invariant 0 <= i <= |ids|
      invariant records == RecordsAt(db.Snapshot(), ids[..i])
    {
      assert ids[i] in Selected(db.Snapshot(), kind, tag);
      var full := db.MemoryFull(ids[i]);
      records := records + [Record(FormatID(ids[i]), full.value)];
      i := i + 1;
    }
    assert ids[..i] == ids;
    r := Ok(Doc(SCHEMA_VERSION, records));
  }

  method ExistingHashIDs(db: MemoryDb) returns (out: HashIndex)
    ensures out == ExistingHashes(db.Snapshot())
  {
    hide Ascending, Full, RecordHash;
    var ids := Ascending(db.memories.Keys);
    AllListed(db.Snapshot());
    out := map[];
    var i := 0;
    while i < |ids|
      invariant 0 <= i <= |ids|
      invariant out == IndexHashes(db.Snapshot(), ids[..i])
    {
      var full := db.MemoryFull(ids[i]);
      var h := HashRecord(Record(FormatID(ids[i]), full.value));
      out := out[h := ids[i]];
      assert ids[..i + 1][..i] == ids[..i];
      i := i + 1;
    }
    assert ids[..i] == ids;
  }

  lemma StartIs(t: Tables)
    ensures ImportStart(t) == Importing(t, ExistingHashes(t), 0, 0, 0)
  {
  }

  datatype Counters = Counters(imported: nat, skipped: nat, maxMem: Id)

  method ImportRecord(db: MemoryDb, r: Record, preserve: bool, seen: HashIndex, c: Counters)
    returns (e: Option<Error>, seen': HashIndex, c': Counters)
    requires preserve || Numbered(db.Snapshot())
    modifies db`memories, db`tags, db`evidence, db`links, db`fts, db`memSeq
    ensures match ImportStep(Importing(old(db.Snapshot()), seen, c.imported, c.skipped, c.maxMem), r, preserve)
            case Ok(s) => e == None && s == Importing(db.Snapshot(), seen', c'.imported, c'.skipped, c'.maxMem)
            case Err(error) => e == Some(error)
  {
    hide ParseID, RecordHash, Written;
    e, seen', c' := None, seen, c;
    if preserve {
      var id := ParseID(r.id);
      if id.None? {
        e := Some(InvalidId);
        return;
      }
      if id.value in db.memories {
        e := Some(Collision);
        return;
      }
      var ok := db.WriteRecord(id.value, r.m);
      c' := Counters(c.imported + 1, c.skipped, if id.value > c.maxMem then id.value else c.maxMem);
      return;
    }
    var h := HashRecord(r);
    if h in seen {
      c' := c.(skipped := c.skipped + 1);
      return;
    }
    var n := db.NextMemSeq();
    if n.None? {
      e := Some(CounterExhausted);
      return;
    }
    var ok := db.WriteRecord(n.value, r.m);
    assert ok;
    seen' := seen[h := n.value];
    c' := c.(imported := c.imported + 1);
  }

  lemma ImportNone(st: Importing, preserve: bool)
    ensures ImportAll(st, [], preserve) == Ok(st)
  {
  }

  /** The loop of an import, up to the first failure. */
  method ImportRecords(db: MemoryDb, recs: seq<Record>, preserve: bool, seen0: HashIndex, ghost t: Tables)
    returns (e: Option<Error>, seen: HashIndex, c: Counters)
    requires Consistent(t) && ImportStart(t) == Importing(db.Snapshot(), seen0, 0, 0, 0)
    modifies db`memories, db`tags, db`evidence, db`links, db`fts, db`memSeq
    ensures match ImportAll(ImportStart(t), recs, preserve)
            case Ok(s) => e == None && s == Importing(db.Snapshot(), seen, c.imported, c.skipped, c.maxMem)
            case Err(error) => e == Some(error)
  {
    hide *;
    ghost var start := ImportStart(t);
    ImportNone(start, preserve);
    assert recs[..0] == [];
    e, seen, c := None, seen0, Counters(0, 0, 0);
    var i := 0;
    while i < |recs|
      invariant 0 <= i <= |recs| && e == None
      invariant ImportAll(start, recs[..i], preserve) == Ok(Importing(db.Snapshot(), seen, c.imported, c.skipped, c.maxMem))
    {
      ImportAllSnoc(start, recs, i, preserve);
      ImportAllNumbered(t, recs[..i], preserve);
      e, seen, c := ImportRecord(db, recs[i], preserve, seen, c);
      if e.Some? {
        ImportAllFails(start, recs, i, preserve);
        return;
      }
      i := i + 1;
    }
    assert recs[..i] == recs;
  }

  /** One transaction: any failure rolls everything back. */
  method Import(db: MemoryDb, doc: Doc, preserve: bool) returns (r: Result<(nat, nat)>)
    requires db.Valid()
    modifies db
    ensures db.Valid()
    ensures match ImportSpec(old(db.Snapshot()), doc, preserve)
            case Err(e) => r == Err(e) && db.Snapshot() == old(db.Snapshot()) && db.used == old(db.used)
            case Ok(x) => r == Ok((x.imported, x.skipped)) && db.Snapshot() == x.t && db.used == old(db.used) + x.t.memories.Keys
  {
    ghost var t := db.Snapshot();
    hide ImportStart, ImportAll, ExistingHashes, Consistent, Passed, ViewOf, Extends, Raised, ImportSpec;
    ImportSpecIs(t, doc, preserve);
    if ImportSpec(t, doc, preserve).Ok? {
      ImportResult(t, doc, preserve, db.used);
    }
    if doc.schemaVersion != SCHEMA_VERSION {
      return Err(UnsupportedSchema);
    }
    var before := db.Snapshot();
    var index := ExistingHashIDs(db);
    StartIs(t);
    var e, seen, c := ImportRecords(db, doc.memories, preserve, index, t);
    if e.Some? {
      db.Rollback(before);
      return Err(e.value);
    }
    if preserve && c.maxMem > 0 {
      db.SetMemSeqAtLeast(c.maxMem);
    }
    db.used := db.used + db.memories.Keys;
    r := Ok((c.imported, c.skipped));
  }
}
