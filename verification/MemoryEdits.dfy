/** What adding, editing and exporting mean for the memories as they are read. */
module MemoryEdits {
  import opened Base
  import opened Ids
  import opened Sorting
  import opened Text
  import opened Lists
  import opened RowTables
  import opened TagOrder
  import opened Decimal
  import opened MemoryText
  import opened MemoryTables
  import opened MemoryRecords
  import opened MemoryOps
  import ImportTheorems

  // ---- what is left of a list, by position ----

  ghost predicate Ascends(at: seq<int>, n: int) {
    && (forall i :: 0 <= i < |at| ==> 0 <= at[i] < n)
    && forall i, j :: 0 <= i < j < |at| ==> at[i] < at[j]
  }

  /** r holds the elements of s at these positions, in order. */
  ghost predicate Picks<T>(s: seq<T>, at: seq<int>, r: seq<T>) {
    Ascends(at, |s|) && |r| == |at| && forall k :: 0 <= k < |r| ==> r[k] == s[at[k]]
  }

  ghost function Positions<T>(s: seq<T>, gone: T -> bool): (at: seq<int>)
    ensures Ascends(at, |s|)
    ensures forall i :: 0 <= i < |s| ==> (i in at <==> !gone(s[i]))
  {
    if s == [] then []
    else
      var n := |s| - 1;
      var at := Positions(s[..n], gone);
      assert forall i :: 0 <= i < n ==> s[..n][i] == s[i];
      if gone(s[n]) then at else at + [n]
  }

  lemma {:induction false} DropPicks<T>(s: seq<T>, gone: T -> bool)
    ensures Picks(s, Positions(s, gone), Drop(s, gone))
  {
    if s != [] {
      DropPicks(s[..|s| - 1], gone);
    }
  }

  /** The first occurrences in xs of what is not in s. */
  ghost predicate NewAt<T>(s: seq<T>, xs: seq<T>, i: int)
    requires 0 <= i < |xs|
  {
    xs[i] !in s && xs[i] !in xs[..i]
  }

  /** s with these first occurrences behind it. */
  ghost predicate Extends<T>(s: seq<T>, xs: seq<T>, r: seq<T>) {
    exists at :: ExtendsAt(s, xs, at, r)
  }

  ghost predicate ExtendsAt<T>(s: seq<T>, xs: seq<T>, at: seq<int>, r: seq<T>) {
    && s <= r && Picks(xs, at, r[|s|..])
    && forall i :: 0 <= i < |xs| ==> (i in at <==> NewAt(s, xs, i))
  }

  lemma {:induction false} UniteExtends<T>(s: seq<T>, xs: seq<T>)
    ensures Extends(s, xs, Unite(s, xs))
    ensures forall x :: x in Unite(s, xs) <==> x in s || x in xs
  {
    if xs == [] {
      assert ExtendsAt(s, xs, [], s);
    } else {
      var n := |xs| - 1;
      UniteExtends(s, xs[..n]);
      var u := Unite(s, xs[..n]);
      var at :| ExtendsAt(s, xs[..n], at, u);
      assert xs == xs[..n] + [xs[n]];
      ExtendsMore(s, xs, at, u);
    }
  }

  lemma ExtendsMore<T>(s: seq<T>, xs: seq<T>, at: seq<int>, u: seq<T>)
    requires xs != [] && ExtendsAt(s, xs[..|xs| - 1], at, u)
    requires forall x :: x in u <==> x in s || x in xs[..|xs| - 1]
    ensures Extends(s, xs, if xs[|xs| - 1] in u then u else u + [xs[|xs| - 1]])
  {
    var n := |xs| - 1;
    forall i | 0 <= i < n ensures NewAt(s, xs[..n], i) <==> NewAt(s, xs, i) {
      assert xs[..n][..i] == xs[..i];
    }
    hide NewAt;
    assert NewAt(s, xs, n) <==> xs[n] !in u by { NewIs(s, xs, n); }
    if xs[n] in u {
      assert ExtendsAt(s, xs, at, u);
    } else {
      assert (u + [xs[n]])[|s|..] == u[|s|..] + [xs[n]];
      assert ExtendsAt(s, xs, at + [n], u + [xs[n]]);
    }
  }

  lemma NewIs<T>(s: seq<T>, xs: seq<T>, i: int)
    requires 0 <= i < |xs|
    ensures NewAt(s, xs, i) <==> xs[i] !in s && xs[i] !in xs[..i]
  {
  }

  // ---- editing ----

  /** The anchors an edit names. */
  ghost predicate Named(specs: seq<(string, int, int)>, e: Evidence) {
    exists j :: 0 <= j < |specs| && specs[j] == (e.path, e.start, e.end)
  }

  /** The stored anchors that are not named, in order, and behind them the added ones. */
  ghost predicate EvidenceEdited(was: seq<Evidence>, c: Changes, now: seq<Evidence>) {
    exists at, kept :: Picks(was, at, kept) && (forall i :: 0 <= i < |was| ==> (i in at <==> !Named(c.removeEvidence, was[i])))
                       && now == kept + c.addEvidence
  }

  /** The stored links that are not named, in order, and behind them those of the added ones that are new, once each. */
  ghost predicate LinksEdited(was: seq<Link>, c: Changes, now: seq<Link>) {
    exists at, kept :: Picks(was, at, kept) && (forall i :: 0 <= i < |was| ==> (i in at <==> was[i] !in c.removeLinks))
                       && Extends(kept, c.addLinks, now)
  }

  ghost predicate EditedAs(m: Memory, c: Changes, now: string, m': Memory) {
    && (m'.row.kind == match c.kind case Some(k) => k case None => m.row.kind)
    && (m'.row.title == match c.title case Some(s) => s case None => m.row.title)
    && (m'.row.body == match c.body case Some(b) => b case None => m.row.body)
    && m'.row.created == m.row.created && m'.row.updated == now
    && Sorted(m'.tags, StringLeq) && Distinct(m'.tags)
    && (forall x :: x in m'.tags <==> x in c.addTags || (x in m.tags && x !in c.removeTags))
    && EvidenceEdited(m.evidence, c, m'.evidence)
    && LinksEdited(m.links, c, m'.links) && Distinct(m'.links)
  }

  lemma NamingIs(specs: seq<(string, int, int)>, e: Evidence)
    ensures Naming(specs)(e) <==> Named(specs, e)
  {
  }

  lemma EditedEvidence(was: seq<Evidence>, c: Changes)
    ensures EvidenceEdited(was, c, Drop(was, Naming(c.removeEvidence)) + c.addEvidence)
  {
    var gone := Naming(c.removeEvidence);
    DropPicks(was, gone);
    hide Drop, Positions, Naming;
    var at, kept := Positions(was, gone), Drop(was, gone);
    forall i | 0 <= i < |was| ensures i in at <==> !Named(c.removeEvidence, was[i]) {
      NamingIs(c.removeEvidence, was[i]);
    }
  }

  lemma EditedLinks(was: seq<Link>, c: Changes)
    ensures LinksEdited(was, c, Unite(Drop(was, Among(c.removeLinks)), c.addLinks))
  {
    var gone := Among(c.removeLinks);
    DropPicks(was, gone);
    UniteExtends(Drop(was, gone), c.addLinks);
    assert forall i :: 0 <= i < |was| ==> (gone(was[i]) <==> was[i] in c.removeLinks);
    hide Drop, Positions, Among, Unite, Extends;
    var at, kept := Positions(was, gone), Drop(was, gone);
    assert forall i :: 0 <= i < |was| ==> (i in at <==> was[i] !in c.removeLinks);
  }

  lemma {:induction false} DropDistinct<T>(s: seq<T>, gone: T -> bool)
    requires Distinct(s)
    ensures Distinct(Drop(s, gone))
  {
    DropPicks(s, gone);
  }

  lemma EditedMemoryAs(m: Memory, c: Changes, now: string)
    requires Distinct(m.links)
    ensures EditedAs(m, c, now, EditedMemory(m, c, now))
  {
    EditedEvidence(m.evidence, c);
    EditedLinks(m.links, c);
    DropDistinct(m.links, Among(c.removeLinks));
    SortedTagsIs(Members(m.tags) - Members(c.removeTags) + Members(c.addTags));
    hide Drop, Unite, SortedTags, EvidenceEdited, LinksEdited;
    UniteDistinct(Drop(m.links, Among(c.removeLinks)), c.addLinks);
  }

  lemma {:induction false} UniteDistinct<T>(s: seq<T>, xs: seq<T>)
    requires Distinct(s)
    ensures Distinct(Unite(s, xs))
  {
    if xs != [] {
      UniteDistinct(s, xs[..|xs| - 1]);
    }
  }

  lemma StoredLinksDistinct(t: Tables, n: Id)
    requires Linked(t) && n in t.memories
    ensures n in ViewOf(t) && Distinct(ViewOf(t)[n].links)
  {
    ImportTheorems.ListedDistinct(t.links, n);
    hide ListedBy, Distinct, SortedTags;
  }

  lemma ConsistentLinks(t: Tables)
    requires Consistent(t)
    ensures Linked(t)
  {
  }

  /** An edit succeeds exactly for a stored id, at least one change and a known kind if one is given. It does to the memory
      what it was asked, sets the time of the update, and leaves every other memory as it was. */
  lemma EditChanges(t: Tables, id: string, c: Changes, now: string)
    requires Consistent(t)
    ensures EditSpec(t, id, c, now).Ok? <==>
      && ParseID(id).Some? && ParseID(id).value in ViewOf(t) && !NoChanges(c)
      && (c.kind.Some? ==> c.kind.value == "adr" || c.kind.value == "plan" || c.kind.value == "documentation")
    ensures EditSpec(t, id, c, now).Ok? ==>
      var n, v, v' := ParseID(id).value, ViewOf(t), ViewOf(EditSpec(t, id, c, now).value);
      && v'.Keys == v.Keys && n in v && EditedAs(v[n], c, now, v'[n])
      && forall p :: p in v && p != n ==> v'[p] == v[p]
  {
    hide *;
    KindsAre();
    EditSpecIs(t, id, c, now);
    if EditSpec(t, id, c, now).Ok? {
      EditedIndexedAs(t, ParseID(id).value, c, now);
    }
  }

  lemma EditedIndexedAs(t: Tables, n: Id, c: Changes, now: string)
    requires Consistent(t) && n in t.memories
    ensures var v, v' := ViewOf(t), ViewOf(EditedIndexed(t, n, c, now));
            && n in v && v'.Keys == v.Keys && EditedAs(v[n], c, now, v'[n])
            && forall p :: p in v && p != n ==> v'[p] == v[p]
  {
    ConsistentLinks(t);
    hide *;
    StoredLinksDistinct(t, n);
    EditedConsistent(t, n, c, now);
    EditedMemoryAs(ViewOf(t)[n], c, now);
    OneChanged(ViewOf(t), n, EditedMemory(ViewOf(t)[n], c, now));
  }

  lemma OneChanged(v: View, n: Id, m: Memory)
    requires n in v
    ensures v[n := m].Keys == v.Keys && v[n := m][n] == m && forall p :: p in v && p != n ==> v[n := m][p] == v[p]
  {
  }

  lemma KindsAre()
    ensures forall k :: ValidKind(k) <==> k == "adr" || k == "plan" || k == "documentation"
  {
    assert KINDS[0] == "adr" && KINDS[1] == "plan" && KINDS[2] == "documentation";
  }

  lemma EditSpecIs(t: Tables, id: string, c: Changes, now: string)
    ensures EditSpec(t, id, c, now).Ok? <==>
      ParseID(id).Some? && ParseID(id).value in ViewOf(t) && !NoChanges(c) && (c.kind.Some? ==> ValidKind(c.kind.value))
    ensures EditSpec(t, id, c, now).Ok? ==>
      ParseID(id).value in t.memories && EditSpec(t, id, c, now).value == EditedIndexed(t, ParseID(id).value, c, now)
  {
    hide ParseID, EditedIndexed, ValidKind, NoChanges, Full;
  }

  // ---- adding ----

  /** The stored form of an added memory: its tags without empty ones, sorted; its links once each, in order. */
  ghost predicate AddedAs(m: Memory, now: string, m': Memory) {
    && m'.row.kind == m.row.kind && m'.row.title == m.row.title && m'.row.body == m.row.body
    && m'.row.created == now && m'.row.updated == now
    && Sorted(m'.tags, StringLeq) && Distinct(m'.tags)
    && (forall x :: x in m'.tags <==> x in m.tags && x != "")
    && m'.evidence == m.evidence
    && Extends([], m.links, m'.links) && Distinct(m'.links) && (forall l :: l in m'.links <==> l in m.links)
  }

  /** An add succeeds exactly for a known kind, a title that is not blank and a counter that is not at its end. It stores the
      memory under the next number and leaves every other as it was. */
  lemma AddStores(t: Tables, m: Memory, now: string)
    requires Consistent(t)
    ensures AddSpec(t, m, now).Ok? <==>
      && (m.row.kind == "adr" || m.row.kind == "plan" || m.row.kind == "documentation")
      && (exists i :: 0 <= i < |m.row.title| && !IsSpace(m.row.title[i])) && t.memSeq < 0x7FFF_FFFF_FFFF_FFFF
    ensures AddSpec(t, m, now).Ok? ==>
      var n, v, v' := t.memSeq + 1, ViewOf(t), ViewOf(AddSpec(t, m, now).value);
      && n !in v && v'.Keys == v.Keys + {n} && AddedAs(m, now, v'[n])
      && forall p :: p in v ==> v'[p] == v[p]
  {
    hide *;
    KindsAre();
    BlankIs(m.row.title);
    AddSpecIs(t, m, now);
    if AddSpec(t, m, now).Ok? {
      NumberingConsistent(t, NewMemory(m, now));
      NewMemoryAs(m, now);
      NotStored(t, t.memSeq + 1);
    }
  }

  lemma NotStored(t: Tables, n: Id)
    ensures n in ViewOf(t) <==> n in t.memories
  {
    hide Full;
  }

  lemma BlankIs(s: string)
    ensures Blank(s) <==> !exists i :: 0 <= i < |s| && !IsSpace(s[i])
  {
  }

  lemma AddSpecIs(t: Tables, m: Memory, now: string)
    ensures AddSpec(t, m, now).Ok? <==> ValidKind(m.row.kind) && !Blank(m.row.title) && t.memSeq < 0x7FFF_FFFF_FFFF_FFFF
    ensures AddSpec(t, m, now).Ok? ==> t.memSeq < MAX_INT64 && AddSpec(t, m, now).value == Numbering(t, NewMemory(m, now))
  {
    hide ValidKind, Blank, Numbering, NewMemory;
  }

  lemma NewMemoryAs(m: Memory, now: string)
    ensures AddedAs(m, now, ReadBack(NewMemory(m, now)))
  {
    CleanTagsAre(m.tags);
    SortedTagsIs(Members(CleanTags(m.tags)));
    LinksOnce(m.links);
    hide Lists.Dedupe, SortedTags, CleanTags, Extends, Distinct;
  }

  lemma CleanTagsAre(tags: seq<string>)
    ensures forall x :: x in CleanTags(tags) <==> x in tags && x != ""
  {
    DedupeIs(Drop(tags, Empty()));
    hide Drop, Lists.Dedupe;
    forall x ensures x in CleanTags(tags) <==> x in tags && x != "" {
      DropMembers(tags, Empty(), x);
    }
  }

  lemma LinksOnce(links: seq<Link>)
    ensures var once := Lists.Dedupe(links); Extends([], links, once) && Distinct(once) && forall l :: l in once <==> l in links
  {
    hide *;
    DedupeIs(links);
    UniteEmpty(links);
    UniteExtends([], links);
  }

  // ---- exporting ----

  /** An export holds the memories of the kind, or of any, with the tag, or with any, in the order of their ids, each under
      its printed id as it is read back; it fails for an unknown kind only. */
  lemma ExportSelects(t: Tables, kind: string, tag: string)
    requires Consistent(t)
    ensures ExportSpec(t, kind, tag).Ok? <==> kind == "" || kind == "adr" || kind == "plan" || kind == "documentation"
    ensures ExportSpec(t, kind, tag).Ok? ==> ExportSpec(t, kind, tag).value.schemaVersion == 4
    ensures ExportSpec(t, kind, tag).Ok? ==> exists ids :: ExportedAs(ViewOf(t), kind, tag, ids, ExportSpec(t, kind, tag).value.memories)
  {
    hide *;
    KindsAre();
    ExportSpecIs(t, kind, tag);
    if ExportSpec(t, kind, tag).Ok? {
      SelectedAs(t, kind, tag);
    }
  }

  ghost predicate ExportedAs(v: View, kind: string, tag: string, ids: seq<Id>, records: seq<Record>) {
    && StrictlyAscending(ids)
    && (forall n :: n in ids <==> n in v && (kind == "" || v[n].row.kind == kind) && (tag == "" || tag in v[n].tags))
    && |records| == |ids|
    && forall i :: 0 <= i < |ids| ==> ids[i] in v && records[i].id == FormatID(ids[i]) && records[i].m == v[ids[i]]
  }

  lemma ExportSpecIs(t: Tables, kind: string, tag: string)
    ensures ExportSpec(t, kind, tag).Ok? <==> kind == "" || ValidKind(kind)
    ensures ExportSpec(t, kind, tag).Ok? ==>
      && ExportSpec(t, kind, tag).value == ExportOf(t, kind, tag)
      && ExportOf(t, kind, tag).schemaVersion == 4
  {
    hide ValidKind, Selected, Ascending, RecordsAt;
  }

  lemma SelectedAs(t: Tables, kind: string, tag: string)
    ensures exists ids :: ExportedAs(ViewOf(t), kind, tag, ids, ExportOf(t, kind, tag).memories)
  {
    var ids := Ascending(Selected(t, kind, tag));
    AscendingMembers(Selected(t, kind, tag));
    AscendingSorted(Selected(t, kind, tag));
    SelectedListed(t, kind, tag);
    hide Ascending, FormatID, ListedBy, SortedTags;
    forall n ensures n in Selected(t, kind, tag) <==>
      n in ViewOf(t) && (kind == "" || ViewOf(t)[n].row.kind == kind) && (tag == "" || tag in ViewOf(t)[n].tags)
    {
      if n in t.memories {
        SortedTagsIs(TagsAt(t.tags, n));
        assert tag in TagsAt(t.tags, n) <==> (n, tag) in t.tags;
      }
    }
    hide Selected, TagsAt;
    assert ExportedAs(ViewOf(t), kind, tag, ids, ExportOf(t, kind, tag).memories);
  }
}
