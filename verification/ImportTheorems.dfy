/** What import and export promise: idempotent dedupe, exact conditions for restoring ids, and the round trip. */
module ImportTheorems {
  import opened Base
  import opened Ids
  import opened Digests
  import opened Decimal
  import opened MemoryText
  import opened Lists
  import opened RowTables
  import opened TagOrder
  import opened MemoryTables
  import opened MemoryRecords
  import opened MemoryOps

  // ---- the hash index ----

  ghost predicate HasContent(v: View, h: Digest) {
    exists id :: id in v && RecordHash(v[id]) == h
  }

  lemma {:induction false} IndexHashesKeys(t: Tables, ids: seq<Id>, h: Digest)
    requires forall i :: 0 <= i < |ids| ==> ids[i] in t.memories
    ensures h in IndexHashes(t, ids) <==> exists i :: 0 <= i < |ids| && RecordHash(Full(t, ids[i])) == h
  {
    hide RecordHash, Full;
    if ids != [] {
      IndexHashesKeys(t, ids[..|ids| - 1], h);
    }
  }

  /** The index read up front holds exactly the hashes of the stored memories. */
  lemma ExistingHashesAre(t: Tables, h: Digest)
    ensures h in ExistingHashes(t) <==> HasContent(ViewOf(t), h)
  {
    AllListed(t);
    var ids := Ascending(t.memories.Keys);
    IndexHashesKeys(t, ids, h);
    AscendingMembers(t.memories.Keys);
    hide RecordHash, Full, Ascending, IndexHashes;
    if HasContent(ViewOf(t), h) {
      var id :| id in ViewOf(t) && RecordHash(ViewOf(t)[id]) == h;
      assert id in ids;
    }
    if i :| 0 <= i < |ids| && RecordHash(Full(t, ids[i])) == h {
      assert ids[i] in ViewOf(t);
    }
  }

  // ---- reassigning import ----

  ghost predicate AllDistinct(recs: seq<Record>) {
    forall i :: 0 <= i < |recs| ==> DistinctLists(recs[i].m)
  }

  ghost predicate AllSeen(recs: seq<Record>, seen: HashIndex) {
    forall i :: 0 <= i < |recs| ==> RecordHash(recs[i].m) in seen
  }

  /** Every hash in the index belongs to a memory in the tables. */
  ghost predicate Covered(st: Importing) {
    forall h :: h in st.seen ==> HasContent(ViewOf(st.t), h)
  }

  lemma StartCovered(t: Tables)
    ensures Covered(ImportStart(t))
  {
    hide ViewOf, ExistingHashes, HasContent;
    forall h | h in ImportStart(t).seen ensures HasContent(ViewOf(t), h) {
      ExistingHashesAre(t, h);
    }
  }

  lemma StepCovered(st: Importing, r: Record)
    requires Consistent(st.t) && Covered(st) && DistinctLists(r.m) && ReassignStep(st, r).Ok?
    ensures Covered(ReassignStep(st, r).value)
  {
    hide Consistent, ViewOf, Numbering, RecordHash, ReadBack, DistinctLists;
    if RecordHash(r.m) !in st.seen {
      var s := ReassignStep(st, r).value;
      NumberingConsistent(st.t, r.m);
      NotViewed(st.t, st.t.memSeq + 1);
      ReadBackHash(r.m);
      assert RecordHash(ViewOf(s.t)[st.t.memSeq + 1]) == RecordHash(r.m);
      forall h | h in s.seen ensures HasContent(ViewOf(s.t), h) {
        if h != RecordHash(r.m) {
          var id :| id in ViewOf(st.t) && RecordHash(ViewOf(st.t)[id]) == h;
          assert ViewOf(s.t)[id] == ViewOf(st.t)[id];
        }
      }
    }
  }

  lemma {:induction false} ImportSeen(t: Tables, recs: seq<Record>)
    requires Consistent(t) && ImportAll(ImportStart(t), recs, false).Ok?
    ensures AllSeen(recs, ImportAll(ImportStart(t), recs, false).value.seen)
    ensures AllDistinct(recs) ==> Covered(ImportAll(ImportStart(t), recs, false).value)
  {
    hide Consistent, ImportStart, RecordHash, DistinctLists, Covered, Numbering;
    if recs == [] {
      StartCovered(t);
    } else {
      var init, r := recs[..|recs| - 1], recs[|recs| - 1];
      ImportSeen(t, init);
      ImportAllInv(t, init, false);
      var st := ImportAll(ImportStart(t), init, false).value;
      assert Consistent(st.t);
      if AllDistinct(recs) {
        assert AllDistinct(init);
        StepCovered(st, r);
      }
    }
  }

  /** After an import of records without repeated tags or links, each record has a stored memory of equal hash. */
  lemma ImportedAreStored(t: Tables, doc: Doc, i: int)
    requires Consistent(t) && ImportSpec(t, doc, false).Ok? && AllDistinct(doc.memories) && 0 <= i < |doc.memories|
    ensures HasContent(ViewOf(ImportSpec(t, doc, false).value.t), RecordHash(doc.memories[i].m))
  {
    hide Consistent, ImportStart, RecordHash, ViewOf, ImportAll, AllDistinct, HasContent;
    ImportSeen(t, doc.memories);
  }

  lemma {:induction false} SeenAreSkipped(st: Importing, recs: seq<Record>)
    requires AllSeen(recs, st.seen)
    ensures ImportAll(st, recs, false) == Ok(st.(skipped := st.skipped + |recs|))
  {
    hide RecordHash;
    if recs != [] {
      SeenAreSkipped(st, recs[..|recs| - 1]);
    }
  }

  lemma {:induction false} ImportedGrows(st: Importing, recs: seq<Record>)
    requires ImportAll(st, recs, false).Ok?
    ensures var s := ImportAll(st, recs, false).value;
            s.imported >= st.imported && (s.imported == st.imported ==> AllSeen(recs, st.seen) && s.seen == st.seen)
  {
    hide RecordHash, Numbering;
    if recs != [] {
      ImportedGrows(st, recs[..|recs| - 1]);
    }
  }

  /** An import changes nothing exactly when it finds the hash of every record. */
  lemma IdleImport(t: Tables, doc: Doc)
    requires doc.schemaVersion == SCHEMA_VERSION
    ensures ImportSpec(t, doc, false) == Ok(Imported(t, 0, |doc.memories|))
            <==> forall i :: 0 <= i < |doc.memories| ==> HasContent(ViewOf(t), RecordHash(doc.memories[i].m))
  {
    var st := ImportStart(t);
    hide RecordHash, ViewOf, ExistingHashes, HasContent, ImportAll;
    forall i | 0 <= i < |doc.memories| ensures RecordHash(doc.memories[i].m) in st.seen <==> HasContent(ViewOf(t), RecordHash(doc.memories[i].m)) {
      ExistingHashesAre(t, RecordHash(doc.memories[i].m));
    }
    if AllSeen(doc.memories, st.seen) {
      SeenAreSkipped(st, doc.memories);
    }
    if ImportAll(st, doc.memories, false).Ok? {
      ImportedGrows(st, doc.memories);
    }
  }

  /** Importing a document again skips every record and changes nothing, if no record repeats a tag or a link. */
  lemma ReimportIsIdle(t: Tables, doc: Doc)
    requires Consistent(t) && ImportSpec(t, doc, false).Ok? && AllDistinct(doc.memories)
    ensures var u := ImportSpec(t, doc, false).value.t;
            ImportSpec(u, doc, false) == Ok(Imported(u, 0, |doc.memories|))
  {
    var u := ImportSpec(t, doc, false).value.t;
    assert doc.schemaVersion == SCHEMA_VERSION;
    hide Consistent, ImportSpec, ViewOf, RecordHash, HasContent;
    forall i | 0 <= i < |doc.memories| ensures HasContent(ViewOf(u), RecordHash(doc.memories[i].m)) {
      ImportedAreStored(t, doc, i);
    }
    IdleImport(u, doc);
  }

  // ---- when re-import is not idle ----

  ghost predicate ViewFree(v: View) {
    forall id :: id in v ==> DelimiterFree(v[id])
  }

  ghost predicate RecordsFree(recs: seq<Record>) {
    forall i :: 0 <= i < |recs| ==> DelimiterFree(recs[i].m)
  }

  lemma {:induction false} ImportStaysFree(t: Tables, recs: seq<Record>)
    requires Consistent(t) && ImportAll(ImportStart(t), recs, false).Ok? && ViewFree(ViewOf(t)) && RecordsFree(recs)
    ensures ViewFree(ViewOf(ImportAll(ImportStart(t), recs, false).value.t))
  {
    hide Consistent, RecordHash, DelimiterFree, ViewOf, Numbering, ReadBack, ExistingHashes;
    if recs != [] {
      var init, r := recs[..|recs| - 1], recs[|recs| - 1];
      ImportStaysFree(t, init);
      ImportAllInv(t, init, false);
      var st := ImportAll(ImportStart(t), init, false).value;
      if RecordHash(r.m) !in st.seen {
        NumberingConsistent(st.t, r.m);
        ReadBackFree(r.m);
      }
    }
  }

  lemma StoredListsDistinct(t: Tables, id: Id)
    requires Linked(t) && id in t.memories
    ensures DistinctLists(Full(t, id)) && ReadBack(Full(t, id)) == Full(t, id)
  {
    var m := Full(t, id);
    SortedTagsIs(TagsAt(t.tags, id));
    ListedDistinct(t.links, id);
    DedupeIs(m.links);
    hide SortedTags, ListedBy, Dedupe, Linked, TagsAt;
    assert Members(m.tags) == TagsAt(t.tags, id);
  }

  lemma {:induction false} ListedDistinct<T>(t: Table<T>, o: Id)
    requires UniqueRows(t)
    ensures Distinct(ListedBy(t, o))
    decreases |t|
  {
    if t == map[] {
      EmptyListed<T>(o);
    } else {
      var rest, n, row := SplitMax(t);
      assert UniqueRows(rest) by {
        forall r, q | r in rest && q in rest && rest[r] == rest[q] ensures r == q {
          assert t[r] == t[q];
        }
      }
      ListedDistinct(rest, o);
      ListedSnoc(rest, n, row, o);
      ListedMembers(rest, o, row.value);
      LastUnique(t, rest, n, row);
      hide ListedBy;
    }
  }

  lemma LastUnique<T>(t: Table<T>, rest: Table<T>, n: Id, row: Owned<T>)
    requires UniqueRows(t) && t == rest[n := row] && n !in rest
    ensures forall r :: r in rest ==> rest[r] != row
  {
    forall r | r in rest ensures rest[r] != row {
      assert t[r] == rest[r] && t[n] == row;
    }
  }

  /** A stored memory has the hash of a delimiter-free record only if the record repeats nothing. */
  lemma StoredHashDistinct(t: Tables, m: Memory)
    requires Linked(t) && ViewFree(ViewOf(t)) && DelimiterFree(m) && HasContent(ViewOf(t), RecordHash(m))
    ensures DistinctLists(m)
  {
    var id :| id in ViewOf(t) && RecordHash(ViewOf(t)[id]) == RecordHash(m);
    var s := ViewOf(t)[id];
    StoredListsDistinct(t, id);
    HashDecidesContent(s, m);
    hide RecordHash, ViewOf, Linked, DelimiterFree, Full, Dedupe;
    DistinctPermutes(s.tags, m.tags);
    DistinctPermutes(s.links, m.links);
  }

  /** Without separators inside fields the condition is exact: a second import is idle if and only if no record
      repeats a tag or a link. A record that does is written again every time. */
  lemma ReimportIdleExactly(t: Tables, doc: Doc)
    requires Consistent(t) && ImportSpec(t, doc, false).Ok? && ViewFree(ViewOf(t)) && RecordsFree(doc.memories)
    ensures var u := ImportSpec(t, doc, false).value.t;
            ImportSpec(u, doc, false) == Ok(Imported(u, 0, |doc.memories|)) <==> AllDistinct(doc.memories)
  {
    var u := ImportSpec(t, doc, false).value.t;
    assert doc.schemaVersion == SCHEMA_VERSION;
    ImportStaysFree(t, doc.memories);
    ImportSpecIs(t, doc, false);
    ImportAllInv(t, doc.memories, false);
    assert Linked(u) && ViewFree(ViewOf(u)) by { hide ImportAll, ImportStart; }
    hide Consistent, Linked, ImportSpec, ViewOf, RecordHash, HasContent, DistinctLists, DelimiterFree, ViewFree, ImportInv, ImportAll;
    if AllDistinct(doc.memories) {
      ReimportIsIdle(t, doc);
    }
    IdleImport(u, doc);
    if ImportSpec(u, doc, false) == Ok(Imported(u, 0, |doc.memories|)) {
      forall i | 0 <= i < |doc.memories| ensures DistinctLists(doc.memories[i].m) {
        StoredHashDistinct(u, doc.memories[i].m);
      }
    }
  }

  ghost predicate HasSameContent(v: View, m: Memory) {
    exists id :: id in v && SameContent(v[id], m)
  }

  /** After such an import each record has a stored memory of equal content. */
  lemma ImportedContent(t: Tables, doc: Doc, i: int)
    requires Consistent(t) && ImportSpec(t, doc, false).Ok? && AllDistinct(doc.memories) && 0 <= i < |doc.memories|
    requires ViewFree(ViewOf(t)) && RecordsFree(doc.memories)
    ensures HasSameContent(ViewOf(ImportSpec(t, doc, false).value.t), doc.memories[i].m)
  {
    var v, m := ViewOf(ImportSpec(t, doc, false).value.t), doc.memories[i].m;
    ImportedAreStored(t, doc, i);
    ImportSpecIs(t, doc, false);
    ImportStaysFree(t, doc.memories);
    hide RecordHash, SameContent, ViewOf, ImportSpec, ImportAll, ImportStart, DelimiterFree, Consistent;
    var id :| id in v && RecordHash(v[id]) == RecordHash(m);
    HashDecidesContent(v[id], m);
  }

  /** A record with a repeated tag is stored without the repetition, so the next import does not recognise it. */
  lemma RepeatedTagIsWrittenAgain() returns (doc: Doc)
    ensures ImportSpec(EMPTY, doc, false).Ok?
    ensures var u := ImportSpec(EMPTY, doc, false).value.t; ImportSpec(u, doc, false) != Ok(Imported(u, 0, |doc.memories|))
  {
    var r := Record("mem_001", Memory(Row("adr", "title", "", "", ""), ["a", "a"], [], []));
    doc := Doc(SCHEMA_VERSION, [r]);
    EmptyConsistent();
    assert !Distinct(r.m.tags) by { assert r.m.tags[0] == r.m.tags[1]; }
    assert !DistinctLists(doc.memories[0].m);
    assert DelimiterFree(r.m);
    hide DistinctLists, DelimiterFree, RecordHash, Written;
    OneRecord(EMPTY, r);
    ReimportIdleExactly(EMPTY, doc);
  }

  lemma OneRecord(t: Tables, r: Record)
    requires t.memSeq < MAX_INT64
    ensures ImportAll(ImportStart(t), [r], false).Ok?
  {
    assert [r][..0] == [];
    hide RecordHash, Numbering, ExistingHashes;
  }

  // ---- restoring ids ----

  ghost predicate Parses(recs: seq<Record>) {
    forall i :: 0 <= i < |recs| ==> ParseID(recs[i].id).Some?
  }

  ghost predicate Restorable(t: Tables, recs: seq<Record>) {
    && Parses(recs)
    && (forall i :: 0 <= i < |recs| ==> ParseID(recs[i].id).value !in t.memories)
    && (forall i, j :: 0 <= i < j < |recs| ==> ParseID(recs[i].id) != ParseID(recs[j].id))
  }

  /** The restored memories, by parsed id. */
  ghost predicate Restored(v: View, recs: seq<Record>, w: View)
    requires Parses(recs)
  {
    && Extends(v, w)
    && (forall i :: 0 <= i < |recs| ==> ParseID(recs[i].id).value in w && w[ParseID(recs[i].id).value] == ReadBack(recs[i].m))
    && (forall id :: id in w ==> id in v || exists i :: 0 <= i < |recs| && ParseID(recs[i].id).value == id)
  }

  lemma RestoredSnoc(v: View, recs: seq<Record>, w: View, r: Record)
    requires Parses(recs) && Restored(v, recs, w) && ParseID(r.id).Some? && ParseID(r.id).value !in w
    ensures Parses(recs + [r]) && Restored(v, recs + [r], w[ParseID(r.id).value := ReadBack(r.m)])
  {
    var all, w' := recs + [r], w[ParseID(r.id).value := ReadBack(r.m)];
    hide ParseID, ReadBack;
    forall id | id in w' ensures id in v || exists i :: 0 <= i < |all| && ParseID(all[i].id).value == id {
      if id == ParseID(r.id).value {
        assert all[|recs|] == r;
      } else if id !in v {
        var i :| 0 <= i < |recs| && ParseID(recs[i].id).value == id;
        assert all[i] == recs[i];
      }
    }
  }

  lemma RestorableSnoc(t: Tables, recs: seq<Record>, r: Record, w: View)
    requires Restorable(t, recs) && Restored(ViewOf(t), recs, w)
    ensures Restorable(t, recs + [r]) <==> ParseID(r.id).Some? && ParseID(r.id).value !in w
  {
    var all := recs + [r];
    hide ParseID, ReadBack;
    assert forall i :: 0 <= i < |recs| ==> all[i] == recs[i];
    assert all[|recs|] == r;
    if ParseID(r.id).Some? && ParseID(r.id).value in w && ParseID(r.id).value !in ViewOf(t) {
      var i :| 0 <= i < |recs| && ParseID(recs[i].id).value == ParseID(r.id).value;
      assert ParseID(all[i].id) == ParseID(all[|recs|].id);
    }
  }

  lemma PreserveStepExactly(t: Tables, st: Importing, recs: seq<Record>, r: Record)
    requires ImportInv(t, st, |recs|, true) && Restorable(t, recs) && Restored(ViewOf(t), recs, ViewOf(st.t))
    ensures PreserveStep(st, r).Ok? <==> Restorable(t, recs + [r])
    ensures PreserveStep(st, r).Ok? ==> Restored(ViewOf(t), recs + [r], ViewOf(PreserveStep(st, r).value.t))
  {
    hide ParseID, ViewOf, ReadBack, Written, Pending, Restorable, Restored, Extends;
    RestorableSnoc(t, recs, r, ViewOf(st.t));
    if ParseID(r.id).Some? {
      NotViewed(st.t, ParseID(r.id).value);
    }
    if PreserveStep(st, r).Ok? {
      PreserveStepPending(st, r);
      RestorableParses(t, recs);
      RestoredSnoc(ViewOf(t), recs, ViewOf(st.t), r);
    }
  }

  lemma RestorableParses(t: Tables, recs: seq<Record>)
    requires Restorable(t, recs)
    ensures Parses(recs)
  {
  }

  /** Restoring succeeds exactly for parseable ids that clash neither with the store nor with each other. */
  lemma {:induction false} PreserveExactly(t: Tables, recs: seq<Record>)
    requires Consistent(t)
    ensures ImportAll(ImportStart(t), recs, true).Ok? <==> Restorable(t, recs)
    ensures Restorable(t, recs) ==> Restored(ViewOf(t), recs, ViewOf(ImportAll(ImportStart(t), recs, true).value.t))
  {
    if recs == [] {
      hide ViewOf;
    } else {
      var init, r := recs[..|recs| - 1], recs[|recs| - 1];
      assert recs == init + [r];
      PreserveExactly(t, init);
      RestorablePrefix(t, init, r);
      hide ViewOf, Consistent, Restorable, Restored, ImportStart, PreserveStep, ImportInv;
      if Restorable(t, init) {
        ImportAllInv(t, init, true);
        PreserveStepExactly(t, ImportAll(ImportStart(t), init, true).value, init, r);
      }
    }
  }

  lemma RestorablePrefix(t: Tables, init: seq<Record>, r: Record)
    ensures Restorable(t, init + [r]) ==> Restorable(t, init)
  {
    var all := init + [r];
    hide ParseID;
    assert forall i :: 0 <= i < |init| ==> all[i] == init[i];
  }

  /** An id-preserving import succeeds exactly when the document can be restored; otherwise it is refused whole. */
  lemma PreserveImportExactly(t: Tables, doc: Doc)
    requires Consistent(t)
    ensures ImportSpec(t, doc, true).Ok? <==> doc.schemaVersion == SCHEMA_VERSION && Restorable(t, doc.memories)
    ensures ImportSpec(t, doc, true).Ok? ==>
      Parses(doc.memories) && Restored(ViewOf(t), doc.memories, ViewOf(ImportSpec(t, doc, true).value.t))
  {
    PreserveExactly(t, doc.memories);
    ImportSpecIs(t, doc, true);
    if ImportAll(ImportStart(t), doc.memories, true).Ok? {
      var s := ImportAll(ImportStart(t), doc.memories, true).value;
      SameView(s.t, Raised(s.t, s.maxMem));
    }
    hide Restored, ImportAll, ViewOf, ImportStart, ParseID;
  }

  // ---- the round trip ----

  lemma ExportRestorable(t: Tables, kind: string, tag: string)
    requires Consistent(t)
    ensures Restorable(EMPTY, ExportOf(t, kind, tag).memories)
    ensures var ids := Ascending(Selected(t, kind, tag));
            |ExportOf(t, kind, tag).memories| == |ids|
            && forall i :: 0 <= i < |ids| ==> ParseID(ExportOf(t, kind, tag).memories[i].id) == Some(ids[i])
  {
    SelectedListed(t, kind, tag);
    AscendingSorted(Selected(t, kind, tag));
    var ids, recs := Ascending(Selected(t, kind, tag)), ExportOf(t, kind, tag).memories;
    hide Ascending, FormatID, ParseID, Full, Linked, FtsAgrees;
    forall i | 0 <= i < |ids| ensures ParseID(recs[i].id) == Some(ids[i]) {
      assert ids[i] in t.memories;
      ParseFormatID(ids[i]);
    }
  }

  lemma SelectAll(t: Tables)
    ensures Selected(t, "", "") == t.memories.Keys
  {
  }

  /** Records of equal views at equal ids are equal. */
  lemma RecordsFromView(t: Tables, u: Tables, ids: seq<Id>)
    requires forall i :: 0 <= i < |ids| ==> ids[i] in t.memories && ids[i] in u.memories && Full(u, ids[i]) == Full(t, ids[i])
    ensures RecordsAt(u, ids) == RecordsAt(t, ids)
  {
    hide Full, FormatID;
  }

  /** A full or filtered export, restored into an empty store, exports as the identical document: ids, tags,
      evidence order, link order and timestamps. */
  lemma ExportRoundTrip(t: Tables, kind: string, tag: string)
    requires Consistent(t)
    ensures var doc := ExportOf(t, kind, tag);
            && ImportSpec(EMPTY, doc, true).Ok?
            && ExportOf(ImportSpec(EMPTY, doc, true).value.t, "", "") == doc
  {
    var doc, ids := ExportOf(t, kind, tag), Ascending(Selected(t, kind, tag));
    EmptyConsistent();
    ExportRestorable(t, kind, tag);
    PreserveImportExactly(EMPTY, doc);
    var u := ImportSpec(EMPTY, doc, true).value.t;
    RestoredViews(t, kind, tag, u);
    RestoredKeys(t, kind, tag, u);
    SelectAll(u);
    SelectedListed(t, kind, tag);
    hide Ascending, FormatID, ParseID, Full, Consistent, Restored, ViewOf, ImportSpec, Selected;
    RecordsFromView(t, u, ids);
  }

  lemma RestoredViews(t: Tables, kind: string, tag: string, u: Tables)
    requires Consistent(t) && Parses(ExportOf(t, kind, tag).memories)
    requires Restored(ViewOf(EMPTY), ExportOf(t, kind, tag).memories, ViewOf(u))
    ensures var ids := Ascending(Selected(t, kind, tag));
            forall i :: 0 <= i < |ids| ==> ids[i] in t.memories && ids[i] in u.memories && Full(u, ids[i]) == Full(t, ids[i])
  {
    var ids, recs := Ascending(Selected(t, kind, tag)), ExportOf(t, kind, tag).memories;
    ExportRestorable(t, kind, tag);
    SelectedListed(t, kind, tag);
    hide Ascending, FormatID, ParseID, Full, FtsAgrees, Numbered, Linked, ReadBack;
    forall i | 0 <= i < |ids| ensures ids[i] in t.memories && ids[i] in u.memories && Full(u, ids[i]) == Full(t, ids[i]) {
      assert ids[i] in t.memories;
      StoredListsDistinct(t, ids[i]);
      assert ParseID(recs[i].id).value == ids[i];
      assert ViewOf(u)[ids[i]] == ReadBack(recs[i].m);
    }
  }

  lemma RestoredKey(v: View, recs: seq<Record>, ids: seq<Id>, id: Id)
    requires Parses(recs) && Restored(map[], recs, v) && |recs| == |ids|
    requires forall i :: 0 <= i < |ids| ==> ParseID(recs[i].id) == Some(ids[i])
    ensures id in v <==> id in ids
  {
    hide ParseID, ReadBack;
    if id in v {
      var i :| 0 <= i < |recs| && ParseID(recs[i].id).value == id;
      assert ids[i] == id;
    }
    if id in ids {
      var i :| 0 <= i < |ids| && ids[i] == id;
      assert ParseID(recs[i].id).value == id;
    }
  }

  lemma RestoredKeys(t: Tables, kind: string, tag: string, u: Tables)
    requires Consistent(t) && Parses(ExportOf(t, kind, tag).memories)
    requires Restored(ViewOf(EMPTY), ExportOf(t, kind, tag).memories, ViewOf(u))
    ensures u.memories.Keys == Selected(t, kind, tag)
  {
    var ids, recs := Ascending(Selected(t, kind, tag)), ExportOf(t, kind, tag).memories;
    var v, selected := ViewOf(u), Selected(t, kind, tag);
    assert v.Keys == u.memories.Keys;
    hide *;
    EmptyConsistent();
    ExportRestorable(t, kind, tag);
    AscendingMembers(selected);
    forall id ensures id in v <==> id in selected {
      RestoredKey(v, recs, ids, id);
    }
    assert v.Keys == selected;
  }
}
