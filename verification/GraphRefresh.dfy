/** The stored dependency graph after a run, by row id and by path. */
module GraphRefresh {
  import opened Base
  import opened Ids
  import opened CodeTables
  import opened CodeView
  import opened CodeStore
  import opened Resolve
  import opened Indexing

  // ---- the reads ----

  function MetaOf(t: Tables, id: Id): FileMeta
    requires id in t.files
  {
    FileMeta(id, t.files[id].path, t.files[id].role)
  }

  /** SELECT ... FROM files ORDER BY id. */
  function FilesOf(t: Tables): (r: seq<FileMeta>)
    ensures |r| == |Ascending(t.files.Keys)|
    ensures forall i :: 0 <= i < |r| ==> r[i].id in t.files && r[i] == MetaOf(t, r[i].id) && r[i].id == Ascending(t.files.Keys)[i]
  {
    AscendingMembers(t.files.Keys);
    var ids := Ascending(t.files.Keys);
    seq(|ids|, i requires 0 <= i < |ids| => MetaOf(t, ids[i]))
  }

  function RowsFor(id: Id, specifiers: seq<string>): (r: seq<ImportRow>)
    ensures |r| == |specifiers|
    ensures forall i :: 0 <= i < |r| ==> r[i] == ImportRow(id, specifiers[i])
  {
    seq(|specifiers|, i requires 0 <= i < |specifiers| => ImportRow(id, specifiers[i]))
  }

  function ImportsFor(derived: map<Id, Derived>, ids: seq<Id>): seq<ImportRow> {
    if ids == [] then [] else
    var last := ids[|ids| - 1];
    ImportsFor(derived, ids[..|ids| - 1]) + (if last in derived then RowsFor(last, derived[last].imports) else [])
  }

  /** Every import row with its file id. */
  function ImportsOf(t: Tables): seq<ImportRow> {
    ImportsFor(t.derived, Ascending(t.derived.Keys))
  }

  // ---- the graph the tables call for ----

  function Paths(t: Tables): set<Path> {
    set id | id in t.files :: t.files[id].path
  }

  /** Some relative import of a resolves to b. */
  ghost predicate EdgeAt(t: Tables, a: Id, b: Id) {
    && a in t.files && b in t.files && a in t.derived && a != b
    && exists s :: s in t.derived[a].imports && Relative(s)
         && ResolvePath(t.files[a].path, s, Paths(t)) == Some(t.files[b].path)
  }

  ghost predicate LinkAt(t: Tables, impl: Id, test: Id) {
    && impl in t.files && test in t.files && t.files[test].role == "test"
    && FirstIn(ImplCandidates(t.files[test].path), Paths(t) - {t.files[test].path}) == Some(t.files[impl].path)
  }

  ghost function EdgeSet(t: Tables): set<(Id, Id)> {
    set a, b | a in t.files && b in t.files && EdgeAt(t, a, b) :: (a, b)
  }

  ghost function LinkSet(t: Tables): set<(Id, Id)> {
    set a, b | a in t.files && b in t.files && LinkAt(t, a, b) :: (a, b)
  }

  ghost function WithGraph(t: Tables): Tables {
    t.(depEdges := EdgeSet(t), testLinks := LinkSet(t))
  }

  // ---- the same graph by path ----

  ghost predicate PathEdge(v: View, p: Path, q: Path) {
    && p in v && q in v && p != q
    && exists s :: s in v[p].derived.imports && Relative(s) && ResolvePath(p, s, v.Keys) == Some(q)
  }

  ghost predicate PathLink(v: View, impl: Path, test: Path) {
    && impl in v && test in v && v[test].file.role == "test"
    && FirstIn(ImplCandidates(test), v.Keys - {test}) == Some(impl)
  }

  lemma PathsAreViewed(t: Tables)
    requires Linked(t)
    ensures Paths(t) == ViewOf(t).Keys
  {
    ViewEntries(t);
    forall p | p in ViewOf(t) ensures p in Paths(t) {
      assert t.files[IdAt(t, p)].path == p;
    }
    forall p | p in Paths(t) ensures p in ViewOf(t) {
      var id :| id in t.files && t.files[id].path == p;
      ViewAt(t, id);
    }
  }

  /** Row ids aside, the graph is a function of the view: any two stores with the same view have the same graph. */
  lemma GraphIsViewed(t: Tables, a: Id, b: Id)
    requires Linked(t) && a in t.files && b in t.files
    ensures EdgeAt(t, a, b) <==> PathEdge(ViewOf(t), t.files[a].path, t.files[b].path)
    ensures LinkAt(t, a, b) <==> PathLink(ViewOf(t), t.files[a].path, t.files[b].path)
  {
    PathsAreViewed(t);
    ViewAt(t, a);
    ViewAt(t, b);
    hide ViewOf, ResolvePath, ImplCandidates, FirstIn, Relative, SymbolIds, RecordsOf;
  }

  // ---- the loops compute it ----

  ghost predicate IndexesAll(files: seq<FileMeta>, t: Tables) {
    && (forall f :: f in files ==> f.id in t.files && f == MetaOf(t, f.id))
  }

  lemma {:induction false} IndexesCorrect(files: seq<FileMeta>, t: Tables)
    requires Linked(t) && IndexesAll(files, t)
    ensures forall p :: p in PathIndex(files) <==> exists f :: f in files && f.path == p
    ensures forall f :: f in files ==> f.path in PathIndex(files) && PathIndex(files)[f.path] == f.id
    ensures forall f :: f in files ==> f.id in IdIndex(files) && IdIndex(files)[f.id] == f.path
  {
    if files != [] {
      var n := |files| - 1;
      IndexesCorrect(files[..n], t);
      assert files == files[..n] + [files[n]];
      assert UniquePaths(t.files);
      hide Linked;
    }
  }

  /** The indexes built over the file rows are the lookups by path and by id. */
  lemma TableIndexes(t: Tables)
    requires Linked(t)
    ensures PathIndex(FilesOf(t)).Keys == Paths(t)
    ensures forall id :: id in t.files ==> t.files[id].path in PathIndex(FilesOf(t)) && PathIndex(FilesOf(t))[t.files[id].path] == id
    ensures forall id :: id in t.files ==> PathOfId(IdIndex(FilesOf(t)), id) == t.files[id].path
  {
    var files := FilesOf(t);
    forall f | f in files ensures f.id in t.files && f == MetaOf(t, f.id) {
      var i :| 0 <= i < |files| && files[i] == f;
    }
    IndexesCorrect(files, t);
    forall id | id in t.files ensures MetaOf(t, id) in files {
      FileListed(t, id);
    }
    hide PathIndex, IdIndex, Linked, FilesOf;
    assert forall id :: id in t.files ==> MetaOf(t, id) in files && MetaOf(t, id).path == t.files[id].path;
    IndexedPaths(t, files);
  }

  lemma IndexedPaths(t: Tables, files: seq<FileMeta>)
    requires forall f :: f in files ==> f.id in t.files && f == MetaOf(t, f.id)
    requires forall id :: id in t.files ==> MetaOf(t, id) in files
    requires forall p :: p in PathIndex(files) <==> exists f :: f in files && f.path == p
    ensures PathIndex(files).Keys == Paths(t)
  {
    hide PathIndex;
    forall p ensures p in PathIndex(files) <==> p in Paths(t) {
      if p in PathIndex(files) {
        var f :| f in files && f.path == p;
        assert t.files[f.id].path == p;
      }
      if p in Paths(t) {
        var id :| id in t.files && t.files[id].path == p;
        assert MetaOf(t, id) in files;
      }
    }
  }

  lemma FileListed(t: Tables, id: Id)
    requires id in t.files
    ensures MetaOf(t, id) in FilesOf(t)
  {
    AscendingMembers(t.files.Keys);
    var ids := Ascending(t.files.Keys);
    var i :| 0 <= i < |ids| && ids[i] == id;
    assert FilesOf(t)[i] == MetaOf(t, id);
  }

  lemma {:induction false} ImportsListed(derived: map<Id, Derived>, ids: seq<Id>, row: ImportRow)
    ensures row in ImportsFor(derived, ids) <==>
            row.fileId in ids && row.fileId in derived && row.specifier in derived[row.fileId].imports
  {
    if ids != [] {
      var n := |ids| - 1;
      ImportsListed(derived, ids[..n], row);
      assert ids == ids[..n] + [ids[n]];
      if ids[n] in derived {
        var rows := RowsFor(ids[n], derived[ids[n]].imports);
        if row.fileId == ids[n] && row.specifier in derived[ids[n]].imports {
          var k :| 0 <= k < |derived[ids[n]].imports| && derived[ids[n]].imports[k] == row.specifier;
          assert rows[k] == row;
        }
      }
    }
  }

  /** The edges the loop produces are the edges the tables call for. */
  lemma EdgesMatch(t: Tables, e: (Id, Id))
    requires Linked(t)
    ensures SomeYields(PathIndex(FilesOf(t)), IdIndex(FilesOf(t)), ImportsOf(t), e) <==> EdgeAt(t, e.0, e.1)
  {
    var byPath, pathOf, rows := PathIndex(FilesOf(t)), IdIndex(FilesOf(t)), ImportsOf(t);
    hide PathIndex, IdIndex, FilesOf, ImportsOf, ResolvePath, Relative, EdgeAt, Yields;
    if i :| 0 <= i < |rows| && Yields(byPath, pathOf, rows[i], e) {
      RowListed(t, rows[i]);
      YieldIsEdge(t, rows[i], e);
    }
    if EdgeAt(t, e.0, e.1) {
      var s := EdgeIsYield(t, e);
      RowListed(t, ImportRow(e.0, s));
      var i :| 0 <= i < |rows| && rows[i] == ImportRow(e.0, s);
      assert Yields(byPath, pathOf, rows[i], e);
    }
  }

  lemma YieldIsEdge(t: Tables, row: ImportRow, e: (Id, Id))
    requires Linked(t) && row.fileId in t.derived && row.specifier in t.derived[row.fileId].imports
    requires Yields(PathIndex(FilesOf(t)), IdIndex(FilesOf(t)), row, e)
    ensures EdgeAt(t, e.0, e.1)
  {
    TableIndexes(t);
    hide PathIndex, IdIndex, FilesOf, ResolvePath, Relative;
    var p := ResolvePath(t.files[e.0].path, row.specifier, Paths(t)).value;
    assert p in Paths(t);
    var id :| id in t.files && t.files[id].path == p;
    assert id == e.1;
  }

  lemma EdgeIsYield(t: Tables, e: (Id, Id)) returns (s: string)
    requires Linked(t) && EdgeAt(t, e.0, e.1)
    ensures e.0 in t.derived && s in t.derived[e.0].imports
    ensures Yields(PathIndex(FilesOf(t)), IdIndex(FilesOf(t)), ImportRow(e.0, s), e)
  {
    TableIndexes(t);
    hide PathIndex, IdIndex, FilesOf, ResolvePath, Relative;
    s :| s in t.derived[e.0].imports && Relative(s) && ResolvePath(t.files[e.0].path, s, Paths(t)) == Some(t.files[e.1].path);
  }

  lemma RowListed(t: Tables, row: ImportRow)
    ensures row in ImportsOf(t) <==> row.fileId in t.derived && row.specifier in t.derived[row.fileId].imports
  {
    AscendingMembers(t.derived.Keys);
    ImportsListed(t.derived, Ascending(t.derived.Keys), row);
  }

  /** Skipping the candidate whose id is the test's own is skipping the test's own path. */
  lemma {:induction false} FirstOtherIs(cands: seq<Path>, byPath: map<Path, Id>, t: Tables, test: Id)
    requires test in t.files && UniquePaths(t.files) && byPath.Keys == Paths(t)
    requires forall id :: id in t.files ==> t.files[id].path in byPath && byPath[t.files[id].path] == id
    ensures var r := FirstIn(cands, Paths(t) - {t.files[test].path});
            FirstOther(cands, byPath, test) == if r.Some? then Some(byPath[r.value]) else None
  {
    if cands != [] {
      FirstOtherIs(cands[1..], byPath, t, test);
      if cands[0] in byPath {
        var id :| id in t.files && t.files[id].path == cands[0];
        assert byPath[cands[0]] == test <==> cands[0] == t.files[test].path;
      }
    }
  }

  lemma LinksMatch(t: Tables, l: (Id, Id))
    requires Linked(t)
    ensures SomeLinks(PathIndex(FilesOf(t)), FilesOf(t), l) <==> LinkAt(t, l.0, l.1)
  {
    var byPath, files := PathIndex(FilesOf(t)), FilesOf(t);
    TableIndexes(t);
    assert UniquePaths(t.files);
    hide PathIndex, ImplCandidates, Linked, FirstIn, FirstOther;
    if SomeLinks(byPath, files, l) {
      var i :| 0 <= i < |files| && Links(byPath, files[i], l);
      FirstOtherIs(ImplCandidates(files[i].path), byPath, t, files[i].id);
      var p := FirstIn(ImplCandidates(files[i].path), Paths(t) - {files[i].path}).value;
      var id :| id in t.files && t.files[id].path == p;
      assert byPath[p] == id;
    }
    if LinkAt(t, l.0, l.1) {
      FirstOtherIs(ImplCandidates(t.files[l.1].path), byPath, t, l.1);
      FileListed(t, l.1);
      var i :| 0 <= i < |files| && files[i] == MetaOf(t, l.1);
      assert Links(byPath, files[i], l);
    }
  }

  /** Recomputes the graph from the committed tables, in a transaction of its own. */
  method ResolveGraphEdges(db: CodeDb)
    requires Linked(db.Snapshot())
    modifies db
    ensures db.Snapshot() == WithGraph(old(db.Snapshot()))
  {
    ghost var t := db.Snapshot();
    var files, imports := FilesOf(db.Snapshot()), ImportsOf(db.Snapshot());
    hide Linked, FilesOf, ImportsOf, SomeYields, SomeLinks, PathIndex, IdIndex;
    var edges, links := ResolveGraph(files, imports);
    forall e { EdgesMatch(t, e); }
    forall l { LinksMatch(t, l); }
    db.ReplaceGraph(edges, links);
    hide EdgeAt, LinkAt;
    EdgeSetIs(t);
    assert db.depEdges == EdgeSet(t);
    assert db.testLinks == LinkSet(t);
  }

  lemma EdgeSetIs(t: Tables)
    ensures forall e :: e in EdgeSet(t) <==> EdgeAt(t, e.0, e.1)
    ensures forall l :: l in LinkSet(t) <==> LinkAt(t, l.0, l.1)
  {
  }

  /** The graph transaction keeps every table consistent: its edges join live files. */
  lemma WithGraphConsistent(t: Tables)
    requires Consistent(t)
    ensures Consistent(WithGraph(t)) && ViewOf(WithGraph(t)) == ViewOf(t)
    ensures CountsAgree(t) ==> CountsAgree(WithGraph(t))
  {
    var u := WithGraph(t);
    EdgeSetIs(t);
    hide EdgeSet, LinkSet;
    assert EdgesLive(u.depEdges, u.files) && EdgesLive(u.testLinks, u.files);
    assert Linked(u);
    forall row ensures Listed(u.fts, row) <==> Resolves(u, row) {
      assert Listed(t.fts, row) <==> Resolves(t, row);
    }
    SameView(t, u);
  }
}
