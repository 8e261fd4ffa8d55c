/** The memory tables, the operations on them, and what they mean together. */
module MemoryTables {
  import opened Base
  import opened Ids
  import opened Text
  import opened Decimal
  import opened Lists
  import opened RowTables
  import opened TagOrder

  datatype Row = Row(kind: string, title: string, body: string, created: string, updated: string)

  /** oid is the blob id the path had when the evidence was recorded. */
  datatype Evidence = Evidence(path: string, start: int, end: int, oid: string)

  datatype Link = Link(kind: string, ref: string)

  datatype FtsRow = FtsRow(title: string, body: string, tags: string, memory: Id)

  datatype Tables = Tables(
    memories: map<Id, Row>,
    tags: set<(Id, string)>,
    evidence: Table<Evidence>,
    links: Table<Link>,
    fts: map<Id, FtsRow>,
    memSeq: nat)

  const EMPTY := Tables(map[], {}, map[], map[], map[], 0)

  /** A memory as MemoryFull reads it. */
  datatype Memory = Memory(row: Row, tags: seq<string>, evidence: seq<Evidence>, links: seq<Link>)

  function TagsAt(tags: set<(Id, string)>, id: Id): set<string> {
    set p | p in tags && p.0 == id :: p.1
  }

  function Full(t: Tables, id: Id): Memory
    requires id in t.memories
  {
    Memory(t.memories[id], SortedTags(TagsAt(t.tags, id)), ListedBy(t.evidence, id), ListedBy(t.links, id))
  }

  type View = map<Id, Memory>

  function ViewOf(t: Tables): View {
    map id | id in t.memories :: Full(t, id)
  }

  // ---- the write operations ----

  function Tagged(id: Id, tags: seq<string>): set<(Id, string)> {
    set x | x in tags :: (id, x)
  }

  function FtsWithout(fts: map<Id, FtsRow>, id: Id): map<Id, FtsRow> {
    map r | r in fts && fts[r].memory != id :: fts[r]
  }

  function Reindexed(fts: map<Id, FtsRow>, row: FtsRow): map<Id, FtsRow> {
    var rest := FtsWithout(fts, row.memory);
    rest[NextId(rest.Keys) := row]
  }

  /** The inserts of a new memory and its index row. */
  function Written(t: Tables, id: Id, m: Memory): Tables {
    t.(memories := t.memories[id := m.row],
       tags := t.tags + Tagged(id, m.tags),
       evidence := AppendAll(t.evidence, id, m.evidence),
       links := InsertIgnoreAll(t.links, id, m.links),
       fts := Reindexed(t.fts, FtsRow(m.row.title, m.row.body, Join(m.tags, " "), id)))
  }

  /** The delete of a memory with its cascades. Its vectors go in the same transaction. */
  function Deleted(t: Tables, id: Id): Tables {
    t.(memories := t.memories - {id},
       tags := (set p | p in t.tags && p.0 != id),
       evidence := Disown(t.evidence, id),
       links := Disown(t.links, id),
       fts := FtsWithout(t.fts, id))
  }

  /** Partial changes; None means unchanged. */
  datatype Changes = Changes(
    kind: Option<string>, title: Option<string>, body: Option<string>,
    addTags: seq<string>, removeTags: seq<string>,
    addEvidence: seq<Evidence>, removeEvidence: seq<(string, int, int)>,
    addLinks: seq<Link>, removeLinks: seq<Link>)

  /** DELETE ... WHERE path = ? AND line_start = ? AND line_end = ?, for each of the specs. */
  function Naming(specs: seq<(string, int, int)>): Evidence -> bool {
    (e: Evidence) => (e.path, e.start, e.end) in specs
  }

  function Among(links: seq<Link>): Link -> bool {
    (l: Link) => l in links
  }

  function ChangedRow(r: Row, c: Changes, now: string): Row {
    Row(c.kind.GetOr(r.kind), c.title.GetOr(r.title), c.body.GetOr(r.body), r.created, now)
  }

  /** The first transaction of an edit. */
  function Edited(t: Tables, id: Id, c: Changes, now: string): Tables
    requires id in t.memories
  {
    t.(memories := t.memories[id := ChangedRow(t.memories[id], c, now)],
       tags := t.tags - Tagged(id, c.removeTags) + Tagged(id, c.addTags),
       evidence := AppendAll(Without(t.evidence, id, Naming(c.removeEvidence)), id, c.addEvidence),
       links := InsertIgnoreAll(Without(t.links, id, Among(c.removeLinks)), id, c.addLinks))
  }

  /** Both transactions of an edit: the second rebuilds the index row from what is now stored. */
  function EditedIndexed(t: Tables, id: Id, c: Changes, now: string): Tables
    requires id in t.memories
  {
    var u := Edited(t, id, c, now);
    u.(fts := Reindexed(u.fts, FtsRow(u.memories[id].title, u.memories[id].body, Join(SortedTags(TagsAt(u.tags, id)), " "), id)))
  }

  // ---- what the operations mean for each memory ----

  /** A memory as it is read back: tags sorted, repeated tags and links once. */
  function ReadBack(m: Memory): Memory {
    Memory(m.row, SortedTags(Members(m.tags)), m.evidence, Dedupe(m.links))
  }

  /** An edit seen on one memory: removals first, then additions. */
  function EditedMemory(m: Memory, c: Changes, now: string): Memory {
    Memory(ChangedRow(m.row, c, now),
      SortedTags(Members(m.tags) - Members(c.removeTags) + Members(c.addTags)),
      Drop(m.evidence, Naming(c.removeEvidence)) + c.addEvidence,
      Unite(Drop(m.links, Among(c.removeLinks)), c.addLinks))
  }

  // ---- what every completed operation keeps ----

  ghost predicate Linked(t: Tables) {
    && (forall p :: p in t.tags ==> p.0 in t.memories)
    && OwnedIn(t.evidence, t.memories.Keys)
    && OwnedIn(t.links, t.memories.Keys)
    && UniqueRows(t.links)
  }

  /** The counter has passed every stored id. */
  ghost predicate Numbered(t: Tables) {
    && t.memSeq <= MAX_INT64
    && forall id :: id in t.memories ==> 0 < id <= t.memSeq
  }

  ghost predicate SpellsTags(text: string, tags: seq<string>) {
    exists ts :: text == Join(ts, " ") && forall x :: x in ts <==> x in tags
  }

  ghost predicate Describes(row: FtsRow, m: Memory) {
    row.title == m.row.title && row.body == m.row.body && SpellsTags(row.tags, m.tags)
  }

  /** memory_fts holds exactly one row per memory, with its title, its body and its set of tags. */
  ghost predicate FtsAgrees(v: View, fts: map<Id, FtsRow>) {
    && (forall r :: r in fts ==> fts[r].memory in v && Describes(fts[r], v[fts[r].memory]))
    && (forall id :: id in v ==> exists r :: r in fts && fts[r].memory == id)
    && (forall r, q :: r in fts && q in fts && fts[r].memory == fts[q].memory ==> r == q)
  }

  ghost predicate Consistent(t: Tables) {
    Linked(t) && Numbered(t) && FtsAgrees(ViewOf(t), t.fts)
  }

  lemma ReindexAgrees(v: View, fts: map<Id, FtsRow>, row: FtsRow, m: Memory)
    requires FtsAgrees(v, fts) && Describes(row, m)
    ensures FtsAgrees(v[row.memory := m], Reindexed(fts, row))
  {
    var fts', v', rest := Reindexed(fts, row), v[row.memory := m], FtsWithout(fts, row.memory);
    var n := NextId(rest.Keys);
    hide Describes;
    forall id | id in v' ensures exists r :: r in fts' && fts'[r].memory == id {
      if id == row.memory {
        assert n in fts' && fts'[n].memory == id;
      } else {
        var r :| r in fts && fts[r].memory == id;
        assert r in rest && r != n;
        assert r in fts' && fts'[r].memory == id;
      }
    }
  }

  lemma DeleteAgrees(v: View, fts: map<Id, FtsRow>, id: Id)
    requires FtsAgrees(v, fts)
    ensures FtsAgrees(v - {id}, FtsWithout(fts, id))
  {
    var fts' := FtsWithout(fts, id);
    hide Describes;
    forall i | i in v - {id} ensures exists r :: r in fts' && fts'[r].memory == i {
      var r :| r in fts && fts[r].memory == i;
      assert r in fts' && fts'[r].memory == i;
    }
  }

  lemma TagsAtTagged(tags: set<(Id, string)>, id: Id, xs: seq<string>, p: Id)
    ensures TagsAt(tags + Tagged(id, xs), p) == if p == id then TagsAt(tags, p) + Members(xs) else TagsAt(tags, p)
    ensures TagsAt(tags - Tagged(id, xs), p) == if p == id then TagsAt(tags, p) - Members(xs) else TagsAt(tags, p)
  {
    forall x ensures x in TagsAt(tags + Tagged(id, xs), p) <==> x in if p == id then TagsAt(tags, p) + Members(xs) else TagsAt(tags, p) {
      assert x in TagsAt(tags, p) <==> (p, x) in tags;
      assert x in TagsAt(tags + Tagged(id, xs), p) <==> (p, x) in tags + Tagged(id, xs);
    }
    forall x ensures x in TagsAt(tags - Tagged(id, xs), p) <==> x in if p == id then TagsAt(tags, p) - Members(xs) else TagsAt(tags, p) {
      assert x in TagsAt(tags, p) <==> (p, x) in tags;
      assert x in TagsAt(tags - Tagged(id, xs), p) <==> (p, x) in tags - Tagged(id, xs);
    }
  }

  lemma NoTagsYet(t: Tables, id: Id)
    requires Linked(t) && id !in t.memories
    ensures TagsAt(t.tags, id) == {}
  {
  }

  lemma WrittenTags(t: Tables, id: Id, m: Memory, p: Id)
    requires Linked(t) && id !in t.memories
    ensures TagsAt(Written(t, id, m).tags, p) == if p == id then Members(m.tags) else TagsAt(t.tags, p)
  {
    NoTagsYet(t, id);
    hide Linked, AppendAll, InsertIgnoreAll, Reindexed, TagsAt, Tagged, Members;
    TagsAtTagged(t.tags, id, m.tags, p);
    assert {} + Members(m.tags) == Members(m.tags);
  }

  lemma WrittenEvidence(t: Tables, id: Id, m: Memory, p: Id)
    requires Linked(t) && id !in t.memories
    ensures ListedBy(Written(t, id, m).evidence, p) == if p == id then m.evidence else ListedBy(t.evidence, p)
  {
    hide ListedBy, AppendAll, InsertIgnoreAll, Reindexed;
    UnownedEmpty(t.evidence, t.memories.Keys, id);
    AppendAllListed(t.evidence, id, m.evidence, p);
    assert [] + m.evidence == m.evidence;
  }

  lemma WrittenLinks(t: Tables, id: Id, m: Memory, p: Id)
    requires Linked(t) && id !in t.memories
    ensures ListedBy(Written(t, id, m).links, p) == if p == id then Dedupe(m.links) else ListedBy(t.links, p)
  {
    hide ListedBy, AppendAll, InsertIgnoreAll, Reindexed, Unite, Dedupe;
    UnownedEmpty(t.links, t.memories.Keys, id);
    InsertIgnoreAllListed(t.links, id, m.links, p);
    UniteEmpty(m.links);
  }

  /** Writing a memory under a new id adds it, read back, and changes no other. */
  lemma WrittenView(t: Tables, id: Id, m: Memory)
    requires Linked(t) && id !in t.memories
    ensures ViewOf(Written(t, id, m)) == ViewOf(t)[id := ReadBack(m)]
  {
    var u := Written(t, id, m);
    hide Linked, ListedBy, AppendAll, InsertIgnoreAll, SortedTags, TagsAt, Tagged, Reindexed, Dedupe, Members;
    forall p | p in u.memories ensures Full(u, p) == if p == id then ReadBack(m) else Full(t, p) {
      WrittenTags(t, id, m, p);
      WrittenEvidence(t, id, m, p);
      WrittenLinks(t, id, m, p);
    }
  }

  lemma WrittenLinked(t: Tables, id: Id, m: Memory)
    requires Linked(t)
    ensures Linked(Written(t, id, m))
  {
    AppendAllOwned(t.evidence, id, m.evidence, t.memories.Keys + {id});
    InsertIgnoreAllKeeps(t.links, id, m.links, t.memories.Keys + {id});
    hide AppendAll, InsertIgnoreAll, Reindexed;
    assert Written(t, id, m).memories.Keys == t.memories.Keys + {id};
  }

  lemma ReadBackDescribed(m: Memory, id: Id)
    ensures Describes(FtsRow(m.row.title, m.row.body, Join(m.tags, " "), id), ReadBack(m))
  {
    SortedTagsIs(Members(m.tags));
    hide Join, SortedTags;
    assert forall x :: x in m.tags <==> x in ReadBack(m).tags;
  }

  lemma WrittenAgrees(t: Tables, id: Id, m: Memory)
    requires Linked(t) && FtsAgrees(ViewOf(t), t.fts) && id !in t.memories
    ensures FtsAgrees(ViewOf(Written(t, id, m)), Written(t, id, m).fts)
  {
    var row := FtsRow(m.row.title, m.row.body, Join(m.tags, " "), id);
    assert Written(t, id, m).fts == Reindexed(t.fts, row);
    hide *;
    WrittenView(t, id, m);
    ReadBackDescribed(m, id);
    assert row.memory == id;
    ReindexAgrees(ViewOf(t), t.fts, row, ReadBack(m));
  }

  lemma WrittenConsistent(t: Tables, id: Id, m: Memory)
    requires Consistent(t) && id !in t.memories && 0 < id <= t.memSeq
    ensures Consistent(Written(t, id, m))
  {
    WrittenLinked(t, id, m);
    WrittenAgrees(t, id, m);
    hide Linked, FtsAgrees, ViewOf, Reindexed, Tagged, AppendAll, InsertIgnoreAll;
  }

  /** Deleting removes one memory and changes no other. */
  lemma DeletedView(t: Tables, id: Id)
    ensures ViewOf(Deleted(t, id)) == ViewOf(t) - {id}
  {
    var u := Deleted(t, id);
    hide ListedBy, SortedTags;
    forall p | p in u.memories ensures Full(u, p) == Full(t, p) {
      assert TagsAt(u.tags, p) == TagsAt(t.tags, p) by {
        forall x ensures x in TagsAt(u.tags, p) <==> x in TagsAt(t.tags, p) {
          assert x in TagsAt(t.tags, p) <==> (p, x) in t.tags;
          assert x in TagsAt(u.tags, p) <==> (p, x) in u.tags;
        }
      }
      DisownListed(t.evidence, id, p);
      DisownListed(t.links, id, p);
    }
  }

  lemma DeletedLinked(t: Tables, id: Id)
    requires Linked(t) && Numbered(t)
    ensures Linked(Deleted(t, id)) && Numbered(Deleted(t, id))
  {
    hide FtsWithout;
  }

  lemma DeletedConsistent(t: Tables, id: Id)
    requires Consistent(t)
    ensures Consistent(Deleted(t, id))
  {
    DeletedView(t, id);
    DeletedLinked(t, id);
    DeleteAgrees(ViewOf(t), t.fts, id);
    hide FtsAgrees, ViewOf, FtsWithout, Linked, Numbered;
  }

  lemma EditedView(t: Tables, id: Id, c: Changes, now: string)
    requires id in t.memories
    ensures ViewOf(Edited(t, id, c, now)) == ViewOf(t)[id := EditedMemory(ViewOf(t)[id], c, now)]
  {
    var u := Edited(t, id, c, now);
    forall p | p in u.memories ensures Full(u, p) == if p == id then EditedMemory(Full(t, id), c, now) else Full(t, p) {
      EditedTags(t, id, c, now, p);
      EditedEvidence(t, id, c, now, p);
      EditedLinks(t, id, c, now, p);
    }
  }

  lemma EditedTags(t: Tables, id: Id, c: Changes, now: string, p: Id)
    requires id in t.memories && p in t.memories
    ensures SortedTags(TagsAt(Edited(t, id, c, now).tags, p)) ==
            if p == id then EditedMemory(Full(t, id), c, now).tags else Full(t, p).tags
  {
    hide ListedBy, AppendAll, InsertIgnoreAll, Unite, Drop, Without;
    TagsAtTagged(t.tags, id, c.removeTags, p);
    TagsAtTagged(t.tags - Tagged(id, c.removeTags), id, c.addTags, p);
    SortedTagsIs(TagsAt(t.tags, id));
    assert Members(Full(t, id).tags) == TagsAt(t.tags, id);
  }

  lemma EditedEvidence(t: Tables, id: Id, c: Changes, now: string, p: Id)
    requires id in t.memories && p in t.memories
    ensures ListedBy(Edited(t, id, c, now).evidence, p) ==
            if p == id then EditedMemory(Full(t, id), c, now).evidence else Full(t, p).evidence
  {
    hide ListedBy, AppendAll, InsertIgnoreAll, SortedTags, TagsAt, Tagged, Unite, Drop, Without;
    WithoutListed(t.evidence, id, Naming(c.removeEvidence), p);
    AppendAllListed(Without(t.evidence, id, Naming(c.removeEvidence)), id, c.addEvidence, p);
  }

  lemma EditedLinks(t: Tables, id: Id, c: Changes, now: string, p: Id)
    requires id in t.memories && p in t.memories
    ensures ListedBy(Edited(t, id, c, now).links, p) ==
            if p == id then EditedMemory(Full(t, id), c, now).links else Full(t, p).links
  {
    hide ListedBy, AppendAll, InsertIgnoreAll, SortedTags, TagsAt, Tagged, Unite, Drop, Without;
    WithoutListed(t.links, id, Among(c.removeLinks), p);
    InsertIgnoreAllListed(Without(t.links, id, Among(c.removeLinks)), id, c.addLinks, p);
  }

  lemma EditedLinked(t: Tables, id: Id, c: Changes, now: string)
    requires Linked(t) && id in t.memories
    ensures Linked(Edited(t, id, c, now))
  {
    var e, l := Without(t.evidence, id, Naming(c.removeEvidence)), Without(t.links, id, Among(c.removeLinks));
    WithoutKeeps(t.evidence, id, Naming(c.removeEvidence), t.memories.Keys);
    WithoutKeeps(t.links, id, Among(c.removeLinks), t.memories.Keys);
    AppendAllOwned(e, id, c.addEvidence, t.memories.Keys);
    InsertIgnoreAllKeeps(l, id, c.addLinks, t.memories.Keys);
    hide AppendAll, InsertIgnoreAll, Without, OwnedIn, UniqueRows;
    assert Edited(t, id, c, now).memories.Keys == t.memories.Keys;
  }

  /** The index row that MemoryFull's answer makes describes the memory. */
  lemma FullDescribed(t: Tables, id: Id)
    requires id in t.memories
    ensures var m := Full(t, id); Describes(FtsRow(m.row.title, m.row.body, Join(m.tags, " "), id), m)
  {
    hide Join, SortedTags, ListedBy;
  }

  lemma EditedConsistent(t: Tables, id: Id, c: Changes, now: string)
    requires Consistent(t) && id in t.memories
    ensures Consistent(EditedIndexed(t, id, c, now))
    ensures ViewOf(EditedIndexed(t, id, c, now)) == ViewOf(t)[id := EditedMemory(ViewOf(t)[id], c, now)]
  {
    var u, w := Edited(t, id, c, now), EditedIndexed(t, id, c, now);
    EditedLinked(t, id, c, now);
    EditedView(t, id, c, now);
    EditedNumbered(t, id, c, now);
    FullDescribed(u, id);
    SameView(u, w);
    var m := Full(u, id);
    var row := FtsRow(m.row.title, m.row.body, Join(m.tags, " "), id);
    assert w.fts == Reindexed(t.fts, row);
    assert m == ViewOf(u)[id];
    hide *;
    ReindexAgrees(ViewOf(t), t.fts, row, m);
  }

  lemma EditedNumbered(t: Tables, id: Id, c: Changes, now: string)
    requires id in t.memories && Linked(Edited(t, id, c, now)) && Numbered(t)
    ensures Linked(EditedIndexed(t, id, c, now)) && Numbered(EditedIndexed(t, id, c, now))
  {
    hide AppendAll, InsertIgnoreAll, Without, OwnedIn, UniqueRows, Reindexed;
  }

  /** The view does not look at the index or the counter. */
  lemma SameView(t: Tables, u: Tables)
    requires t.memories == u.memories && t.tags == u.tags && t.evidence == u.evidence && t.links == u.links
    ensures ViewOf(t) == ViewOf(u)
  {
  }

  lemma EmptyConsistent()
    ensures Consistent(EMPTY) && ViewOf(EMPTY) == map[]
  {
  }
}
