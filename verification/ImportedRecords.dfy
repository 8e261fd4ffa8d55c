/** Which records a reassigning import writes, under which ids and with which fields. */
module ImportedRecords {
  import opened Base
  import opened Sorting
  import opened Text
  import opened Lists
  import opened RowTables
  import opened TagOrder
  import opened Decimal
  import opened MemoryTables
  import opened MemoryRecords
  import opened MemoryOps
  import opened MemoryEdits
  import opened ImportTheorems

  /** The store has no memory of the record's content, and neither has an earlier record of the document. */
  ghost predicate IsNew(v: View, recs: seq<Record>, i: int)
    requires 0 <= i < |recs|
  {
    !HasContent(v, RecordHash(recs[i].m)) && forall j :: 0 <= j < i ==> RecordHash(recs[j].m) != RecordHash(recs[i].m)
  }

  /** The positions of the new records. */
  ghost function NewRecords(v: View, recs: seq<Record>): seq<int> {
    if recs == [] then []
    else NewRecords(v, recs[..|recs| - 1]) + if IsNew(v, recs, |recs| - 1) then [|recs| - 1] else []
  }

  lemma {:induction false} NewRecordsAre(v: View, recs: seq<Record>)
    ensures Ascends(NewRecords(v, recs), |recs|)
    ensures forall i :: 0 <= i < |recs| ==> (i in NewRecords(v, recs) <==> IsNew(v, recs, i))
  {
    hide *;
    if recs == [] {
      NoneNew(v);
    } else {
      var n := |recs| - 1;
      var at := NewRecords(v, recs[..n]);
      NewRecordsAre(v, recs[..n]);
      assert recs == recs[..n] + [recs[n]];
      NewRecordsSnoc(v, recs[..n], recs[n]);
      AscendsMore(at, n);
      forall i | 0 <= i < n ensures IsNew(v, recs[..n], i) <==> IsNew(v, recs, i) {
        SameNew(v, recs, i);
      }
      assert forall i :: i in at + [n] <==> i in at || i == n;
      assert at + [] == at;
    }
  }

  lemma NoneNew(v: View)
    ensures NewRecords(v, []) == [] && Ascends([], 0)
  {
  }

  lemma AscendsMore(at: seq<int>, n: nat)
    requires Ascends(at, n)
    ensures Ascends(at, n + 1) && Ascends(at + [n], n + 1) && n !in at
  {
  }

  lemma SameNew(v: View, recs: seq<Record>, i: int)
    requires 0 <= i < |recs| - 1
    ensures IsNew(v, recs[..|recs| - 1], i) <==> IsNew(v, recs, i)
  {
    hide RecordHash, HasContent;
    assert forall j :: 0 <= j <= i ==> recs[..|recs| - 1][j] == recs[j];
  }

  lemma NewRecordsSnoc(v: View, init: seq<Record>, r: Record)
    ensures NewRecords(v, init + [r]) == NewRecords(v, init) + if IsNew(v, init + [r], |init|) then [|init|] else []
  {
    hide IsNew;
    assert (init + [r])[..|init|] == init;
  }

  /** The fields of a record as the store keeps them. */
  ghost predicate KeptAs(m: Memory, m': Memory) {
    && m'.row == m.row && m'.evidence == m.evidence
    && Sorted(m'.tags, StringLeq) && Distinct(m'.tags) && (forall x :: x in m'.tags <==> x in m.tags)
    && MemoryEdits.Extends([], m.links, m'.links) && Distinct(m'.links) && (forall l :: l in m'.links <==> l in m.links)
  }

  lemma ReadBackKept(m: Memory)
    ensures KeptAs(m, ReadBack(m))
  {
    SortedTagsIs(Members(m.tags));
    LinksOnce(m.links);
    hide Lists.Dedupe, SortedTags, MemoryEdits.Extends, Distinct;
  }

  /** v' is v with the records at these positions under the numbers behind base, in this order. */
  ghost predicate Gains(v: View, base: nat, recs: seq<Record>, at: seq<int>, v': View) {
    && Ascends(at, |recs|)
    && (forall id :: id in v' <==> id in v || base < id <= base + |at|)
    && (forall id :: id in v ==> id <= base && v'[id] == v[id])
    && (forall k :: 0 <= k < |at| ==> KeptAs(recs[at[k]].m, v'[base + 1 + k]))
  }

  ghost predicate SeenAre(v: View, recs: seq<Record>, st: Importing) {
    forall h :: h in st.seen <==> HasContent(v, h) || exists j :: 0 <= j < |recs| && RecordHash(recs[j].m) == h
  }

  ghost predicate Underway(t: Tables, recs: seq<Record>, st: Importing) {
    var at := NewRecords(ViewOf(t), recs);
    && Consistent(st.t) && SeenAre(ViewOf(t), recs, st)
    && st.imported == |at| && st.skipped == |recs| - |at| && st.t.memSeq == t.memSeq + |at|
    && Gains(ViewOf(t), t.memSeq, recs, at, ViewOf(st.t))
  }

  lemma SeenTells(v: View, init: seq<Record>, r: Record, st: Importing)
    requires SeenAre(v, init, st)
    ensures IsNew(v, init + [r], |init|) <==> RecordHash(r.m) !in st.seen
  {
    hide RecordHash, HasContent;
    assert forall j :: 0 <= j < |init| ==> (init + [r])[j] == init[j];
  }

  lemma SeenMore(v: View, init: seq<Record>, r: Record, st: Importing, s: Importing)
    requires SeenAre(v, init, st) && s.seen.Keys == st.seen.Keys + {RecordHash(r.m)}
    ensures SeenAre(v, init + [r], s)
  {
    hide RecordHash, HasContent;
    var recs := init + [r];
    forall h ensures h in s.seen <==> HasContent(v, h) || exists j :: 0 <= j < |recs| && RecordHash(recs[j].m) == h {
      if j :| 0 <= j < |init| && RecordHash(init[j].m) == h {
        assert recs[j] == init[j];
      }
      if h == RecordHash(r.m) {
        assert recs[|init|] == r;
      }
    }
  }

  lemma GainsSame(v: View, base: nat, init: seq<Record>, r: Record, at: seq<int>, v': View)
    requires Gains(v, base, init, at, v')
    ensures Gains(v, base, init + [r], at, v')
  {
    hide KeptAs;
    assert forall k :: 0 <= k < |at| ==> (init + [r])[at[k]] == init[at[k]];
  }

  lemma GainsMore(v: View, base: nat, init: seq<Record>, r: Record, at: seq<int>, v': View)
    requires Gains(v, base, init, at, v')
    ensures Gains(v, base, init + [r], at + [|init|], v'[base + |at| + 1 := ReadBack(r.m)])
  {
    ReadBackKept(r.m);
    hide KeptAs, ReadBack;
    var recs, more := init + [r], at + [|init|];
    assert recs[|init|] == r;
    assert forall k :: 0 <= k < |at| ==> more[k] == at[k] && recs[at[k]] == init[at[k]];
  }

  lemma StepUnderway(t: Tables, init: seq<Record>, r: Record, st: Importing)
    requires Underway(t, init, st)
    ensures ReassignStep(st, r).Ok? <==> t.memSeq + |NewRecords(ViewOf(t), init + [r])| <= MAX_INT64
    ensures ReassignStep(st, r).Ok? ==> Underway(t, init + [r], ReassignStep(st, r).value)
  {
    UnderwayIs(t, init, st);
    hide *;
    NewRecordsSnoc(ViewOf(t), init, r);
    SeenTells(ViewOf(t), init, r, st);
    CounterBound(st.t);
    StepIs(st, r);
    if RecordHash(r.m) in st.seen {
      StepSkips(t, init, r, st);
    } else if st.t.memSeq < MAX_INT64 {
      StepWrites(t, init, r, st);
    }
  }

  lemma UnderwayIs(t: Tables, recs: seq<Record>, st: Importing)
    requires Underway(t, recs, st)
    ensures var at := NewRecords(ViewOf(t), recs);
            && Consistent(st.t) && SeenAre(ViewOf(t), recs, st) && st.t.memSeq == t.memSeq + |at|
            && st.imported == |at| && st.skipped == |recs| - |at|
            && Gains(ViewOf(t), t.memSeq, recs, at, ViewOf(st.t))
  {
    hide ViewOf, Consistent, NewRecords, SeenAre, Gains;
  }

  lemma StepIs(st: Importing, r: Record)
    ensures ReassignStep(st, r).Ok? <==> RecordHash(r.m) in st.seen || st.t.memSeq < MAX_INT64
  {
    hide RecordHash, Numbering;
  }

  lemma SkipIs(st: Importing, r: Record)
    requires RecordHash(r.m) in st.seen
    ensures ReassignStep(st, r) == Ok(st.(skipped := st.skipped + 1))
  {
    hide RecordHash, Numbering;
  }

  lemma WriteIs(st: Importing, r: Record)
    requires RecordHash(r.m) !in st.seen && st.t.memSeq < MAX_INT64
    ensures ReassignStep(st, r) ==
            Ok(st.(t := Numbering(st.t, r.m), seen := st.seen[RecordHash(r.m) := st.t.memSeq + 1], imported := st.imported + 1))
  {
    hide RecordHash, Numbering;
  }

  lemma StepSkips(t: Tables, init: seq<Record>, r: Record, st: Importing)
    requires Underway(t, init, st) && RecordHash(r.m) in st.seen
    ensures ReassignStep(st, r).Ok? && Underway(t, init + [r], ReassignStep(st, r).value)
  {
    hide *;
    var v, at, s := ViewOf(t), NewRecords(ViewOf(t), init), st.(skipped := st.skipped + 1);
    UnderwayIs(t, init, st);
    SkipIs(st, r);
    NewRecordsSnoc(v, init, r);
    SeenTells(v, init, r, st);
    assert at + [] == at;
    SeenMore(v, init, r, st, s);
    GainsSame(v, t.memSeq, init, r, at, ViewOf(st.t));
    ThenUnderway(t, init + [r], s);
  }

  lemma ThenUnderway(t: Tables, recs: seq<Record>, s: Importing)
    requires var at := NewRecords(ViewOf(t), recs);
             && Consistent(s.t) && SeenAre(ViewOf(t), recs, s)
             && s.imported == |at| && s.skipped == |recs| - |at| && s.t.memSeq == t.memSeq + |at|
             && Gains(ViewOf(t), t.memSeq, recs, at, ViewOf(s.t))
    ensures Underway(t, recs, s)
  {
    hide ViewOf, Consistent, NewRecords, SeenAre, Gains;
  }

  lemma StepWrites(t: Tables, init: seq<Record>, r: Record, st: Importing)
    requires Underway(t, init, st) && RecordHash(r.m) !in st.seen && st.t.memSeq < MAX_INT64
    ensures ReassignStep(st, r).Ok? && Underway(t, init + [r], ReassignStep(st, r).value)
  {
    hide *;
    var v, at := ViewOf(t), NewRecords(ViewOf(t), init);
    UnderwayIs(t, init, st);
    var s := st.(t := Numbering(st.t, r.m), seen := st.seen[RecordHash(r.m) := st.t.memSeq + 1], imported := st.imported + 1);
    WriteIs(st, r);
    NewRecordsSnoc(v, init, r);
    SeenTells(v, init, r, st);
    NumberingConsistent(st.t, r.m);
    SeenMore(v, init, r, st, s);
    GainsMore(v, t.memSeq, init, r, at, ViewOf(st.t));
    ThenUnderway(t, init + [r], s);
  }

  lemma CounterBound(t: Tables)
    requires Consistent(t)
    ensures t.memSeq <= MAX_INT64
  {
    hide Linked, FtsAgrees;
  }

  lemma NothingUnderway(t: Tables)
    requires Consistent(t)
    ensures Underway(t, [], ImportStart(t))
  {
    hide ViewOf, ExistingHashes, HasContent, Linked, FtsAgrees;
    forall h ensures h in ImportStart(t).seen <==> HasContent(ViewOf(t), h) {
      ExistingHashesAre(t, h);
    }
    Counted(t);
  }

  lemma Counted(t: Tables)
    requires Numbered(t)
    ensures forall id :: id in ViewOf(t) ==> id <= t.memSeq
  {
    hide Full;
  }

  lemma {:induction false} AllUnderway(t: Tables, recs: seq<Record>)
    requires Consistent(t)
    ensures ImportAll(ImportStart(t), recs, false).Ok? <==> t.memSeq + |NewRecords(ViewOf(t), recs)| <= MAX_INT64
    ensures ImportAll(ImportStart(t), recs, false).Ok? ==> Underway(t, recs, ImportAll(ImportStart(t), recs, false).value)
  {
    hide *;
    if recs == [] {
      NothingUnderway(t);
      NothingNew(t);
    } else {
      var init, r := recs[..|recs| - 1], recs[|recs| - 1];
      assert recs == init + [r];
      AllUnderway(t, init);
      ImportSnoc(ImportStart(t), init, r);
      NewRecordsSnoc(ViewOf(t), init, r);
      if ImportAll(ImportStart(t), init, false).Ok? {
        StepUnderway(t, init, r, ImportAll(ImportStart(t), init, false).value);
      }
    }
  }

  lemma NothingNew(t: Tables)
    requires Consistent(t)
    ensures |NewRecords(ViewOf(t), [])| == 0 && ImportAll(ImportStart(t), [], false) == Ok(ImportStart(t)) && t.memSeq <= MAX_INT64
  {
    CounterBound(t);
    hide ImportStart, ViewOf, Consistent;
  }

  lemma ImportSnoc(st: Importing, init: seq<Record>, r: Record)
    ensures ImportAll(st, init + [r], false) ==
      match ImportAll(st, init, false)
      case Ok(s) => ReassignStep(s, r)
      case Err(e) => Err(e)
  {
    assert (init + [r])[..|init|] == init;
    hide ReassignStep;
  }

  /** A reassigning import succeeds exactly for the right schema and when the counter has room for the new records. It then
      stores exactly those, in order, under the next numbers and with all their fields, times included; it counts them, skips
      the others and changes no memory. */
  lemma ReassignedExactly(t: Tables, doc: Doc)
    requires Consistent(t)
    ensures var at := NewRecords(ViewOf(t), doc.memories);
            ImportSpec(t, doc, false).Ok? <==> doc.schemaVersion == 4 && t.memSeq + |at| <= 0x7FFF_FFFF_FFFF_FFFF
    ensures ImportSpec(t, doc, false).Ok? ==>
      var at, x := NewRecords(ViewOf(t), doc.memories), ImportSpec(t, doc, false).value;
      && (forall i :: 0 <= i < |doc.memories| ==> (i in at <==> IsNew(ViewOf(t), doc.memories, i)))
      && x.imported == |at| && x.skipped == |doc.memories| - |at| && x.t.memSeq == t.memSeq + |at|
      && Gains(ViewOf(t), t.memSeq, doc.memories, at, ViewOf(x.t))
  {
    NewRecordsAre(ViewOf(t), doc.memories);
    AllUnderway(t, doc.memories);
    ImportSpecIs(t, doc, false);
    hide IsNew, ImportSpec, ImportAll, ImportStart, NewRecords, ViewOf, Gains, Consistent, SeenAre;
  }
}
