/** What `show graph` reads from the tables, and why the graph it shows does not depend on row ids. */
module GraphReads {
  import opened Base
  import opened Sorting
  import opened Lists
  import opened GraphProjection
  import GraphTheorems
  import opened CodeTables
  import opened CodeView
  import opened CodeStore
  import Scanning
  import Indexing
  import GraphRefresh
  import MetadataTheorems

  // ---- two inputs with the same rows ----

  /** The same rows in any order. Import rows may repeat. */
  ghost predicate SameRows(a: Input, b: Input) {
    && (forall f :: f in a.files <==> f in b.files)
    && Distinct(a.deps) && Distinct(b.deps) && (forall e :: e in a.deps <==> e in b.deps)
    && Distinct(a.tests) && Distinct(b.tests) && (forall e :: e in a.tests <==> e in b.tests)
    && (forall i :: i in a.imports <==> i in b.imports)
  }

  lemma {:induction false} InducedDistinct(pairs: seq<(string, string)>, kind: EdgeKind, sel: set<string>)
    requires Distinct(pairs)
    ensures Distinct(Induced(pairs, kind, sel))
  {
    if pairs != [] {
      var init, p := pairs[..|pairs| - 1], pairs[|pairs| - 1];
      InducedDistinct(init, kind, sel);
      InducedMembers(init, kind, sel, Edge(p.0, p.1, kind));
    }
  }

  lemma {:induction false} ExternalDistinct(imports: seq<(string, string)>, sel: set<string>)
    ensures Distinct(External(imports, sel))
  {
    if imports != [] {
      ExternalDistinct(imports[..|imports| - 1], sel);
    }
  }

  lemma DistinctConcat<T>(a: seq<T>, b: seq<T>)
    requires Distinct(a) && Distinct(b) && forall x :: x in a ==> x !in b
    ensures Distinct(a + b)
  {
    assert forall i :: 0 <= i < |a| ==> a[i] in a;
    assert forall i :: 0 <= i < |b| ==> b[i] in b;
  }

  lemma FullDistinct(inp: Input, sel: set<string>)
    requires Distinct(inp.deps) && Distinct(inp.tests)
    ensures Distinct(Full(inp, sel))
  {
    var d, t, x := Induced(inp.deps, ImportEdge, sel), Induced(inp.tests, TestEdge, sel), External(inp.imports, sel);
    InducedDistinct(inp.deps, ImportEdge, sel);
    InducedDistinct(inp.tests, TestEdge, sel);
    ExternalDistinct(inp.imports, sel);
    forall e ensures (e in d ==> e.kind == ImportEdge) && (e in t ==> e.kind == TestEdge) && (e in x ==> e.kind == ExternalEdge) {
      InducedMembers(inp.deps, ImportEdge, sel, e);
      InducedMembers(inp.tests, TestEdge, sel, e);
      ExternalMembers(inp.imports, sel, e);
    }
    hide Induced, External, Imports;
    DistinctConcat(d, t);
    DistinctConcat(d + t, x);
  }

  lemma ImportsSame(a: seq<(string, string)>, b: seq<(string, string)>, from: string, to: string)
    requires forall i :: i in a <==> i in b
    ensures Imports(a, from, to) <==> Imports(b, from, to)
  {
  }

  lemma FullSame(a: Input, b: Input, sel: set<string>)
    requires SameRows(a, b)
    ensures multiset(Full(a, sel)) == multiset(Full(b, sel))
  {
    FullDistinct(a, sel);
    FullDistinct(b, sel);
    hide Full, Distinct;
    forall e ensures e in Full(a, sel) <==> e in Full(b, sel) {
      FullMembers(a, sel, e);
      FullMembers(b, sel, e);
      ImportsSame(a.imports, b.imports, e.from, e.to);
      hide Imports;
    }
    DistinctSameMembers(Full(a, sel), Full(b, sel));
  }

  lemma {:induction false} PrunedPermutes(a: seq<Edge>, b: seq<Edge>, kept: set<string>)
    requires multiset(a) == multiset(b)
    ensures multiset(Pruned(a, kept)) == multiset(Pruned(b, kept))
    decreases |a|
  {
    PermutationMembers(a, b);
    if a != [] {
      var init, e := a[..|a| - 1], a[|a| - 1];
      assert e in b;
      var i :| 0 <= i < |b| && b[i] == e;
      RemoveLast(a);
      RemoveAt(b, i);
      PrunedPermutes(init, b[..i] + b[i + 1..], kept);
      PrunedRemove(b, i, kept);
    }
  }

  lemma {:induction false} PrunedConcat(a: seq<Edge>, b: seq<Edge>, kept: set<string>)
    ensures Pruned(a + b, kept) == Pruned(a, kept) + Pruned(b, kept)
  {
    if b == [] {
      assert a + b == a;
    } else {
      PrunedConcat(a, b[..|b| - 1], kept);
      assert (a + b)[..|a + b| - 1] == a + b[..|b| - 1];
    }
  }

  lemma PrunedRemove(b: seq<Edge>, i: nat, kept: set<string>)
    requires i < |b|
    ensures multiset(Pruned(b, kept)) ==
            multiset(Pruned(b[..i] + b[i + 1..], kept)) + if Visible(b[i], kept) then multiset{b[i]} else multiset{}
  {
    assert b == b[..i] + [b[i]] + b[i + 1..];
    assert [b[i]][..0] == [];
    PrunedConcat(b[..i] + [b[i]], b[i + 1..], kept);
    PrunedConcat(b[..i], [b[i]], kept);
    PrunedConcat(b[..i], b[i + 1..], kept);
  }

  lemma SelectedSame(a: seq<FileRow>, b: seq<FileRow>, o: Options)
    requires forall f :: f in a <==> f in b
    ensures Selected(a, o) == Selected(b, o)
  {
    hide Keep;
  }

  lemma CutSame(a: seq<Edge>, b: seq<Edge>, sel: set<string>, cap: nat, kept: set<string>)
    requires multiset(a) == multiset(b) && IsCut(a, sel, cap, kept)
    ensures IsCut(b, sel, cap, kept)
  {
    forall f, g | f in kept && g in sel && g !in kept ensures Outranks(b, f, g) {
      assert Outranks(a, f, g);
      CountPermute(a, b, ToOf, f);
      CountPermute(a, b, ToOf, g);
      DegreesAre(a, f);
      DegreesAre(a, g);
      DegreesAre(b, f);
      DegreesAre(b, g);
      hide In;
    }
  }

  lemma NodesSame(a: Input, b: Input, edges: seq<Edge>, nodes: seq<Node>)
    requires SameRows(a, b) && NodesFit(a, edges, nodes)
    ensures NodesFit(b, edges, nodes)
  {
    hide In, Out, OnceEach, Distinct;
    forall n | n in nodes ensures NodeFits(b, edges, n) {
      assert NodeFits(a, edges, n);
    }
  }

  /** A projection of some rows is a projection of the same rows in any other order. */
  lemma ProjectsSame(a: Input, b: Input, o: Options, g: Graph)
    requires SameRows(a, b) && Projects(a, o, g)
    ensures Projects(b, o, g)
  {
    hide Full, Pruned, NodesFit, IsCut, Distinct, Kept, Sorted, Selected;
    var sel := Selected(a.files, o);
    SelectedSame(a.files, b.files, o);
    FullSame(a, b, sel);
    CutSame(Full(a, sel), Full(b, sel), sel, CapOf(o), Kept(g.nodes));
    PrunedPermutes(Full(a, sel), Full(b, sel), Kept(g.nodes));
    NodesSame(a, b, g.edges, g.nodes);
  }

  // ---- the readers ----

  function RowOf(f: FileRecord): FileRow {
    FileRow(f.path, f.role, f.language, f.pkg)
  }

  /** The rows that AllFiles, AllDepEdges, AllTestLinks and UnresolvedImports return, in some order. */
  ghost predicate Reads(t: Tables, inp: Input) {
    && DistinctPaths(inp.files)
    && (forall f :: f in inp.files <==> exists id :: id in t.files && f == RowOf(t.files[id]))
    && PairsRead(t.files, t.depEdges, inp.deps) && PairsRead(t.files, t.testLinks, inp.tests)
    && (forall i :: i in inp.imports <==> Imported(t, i))
  }

  /** A stored pair of ids, joined with the file rows. */
  ghost predicate Joined(files: map<Id, FileRecord>, edges: set<(Id, Id)>, e: (Path, Path)) {
    exists a, b :: (a, b) in edges && a in files && b in files && e == (files[a].path, files[b].path)
  }

  ghost predicate Imported(t: Tables, i: (Path, string)) {
    exists id :: id in t.files && id in t.derived && i.0 == t.files[id].path && i.1 in t.derived[id].imports
  }

  method ReadGraph(db: CodeDb) returns (inp: Input)
    requires Linked(db.Snapshot())
    ensures Reads(db.Snapshot(), inp)
  {
    ghost var t := db.Snapshot();
    var files := ReadFiles(db);
    var deps := ReadPairs(db.files, db.depEdges);
    var tests := ReadPairs(db.files, db.testLinks);
    var imports := ReadImports(db);
    inp := Input(files, deps, tests, imports);
  }

  method ReadFiles(db: CodeDb) returns (rows: seq<FileRow>)
    requires Linked(db.Snapshot())
    ensures DistinctPaths(rows)
    ensures forall f :: f in rows <==> exists id :: id in db.files && f == RowOf(db.files[id])
  {
    rows := [];
    assert UniquePaths(db.files);
    NoRows(db.files);
    hide FilesRead, UniquePaths;
    var todo := db.files.Keys;
    while todo != {}
      invariant todo <= db.files.Keys && FilesRead(db.files, todo, rows)
      decreases |todo|
    {
      var id :| id in todo;
      OneRowMore(db.files, todo, rows, id);
      rows := rows + [RowOf(db.files[id])];
      todo := todo - {id};
    }
    AllRows(db.files, rows);
  }

  /** The rows of all files but these, once each. */
  ghost predicate FilesRead(files: map<Id, FileRecord>, todo: set<Id>, rows: seq<FileRow>) {
    && DistinctPaths(rows)
    && forall f :: f in rows <==> RowRead(files, todo, f)
  }

  ghost predicate RowRead(files: map<Id, FileRecord>, todo: set<Id>, f: FileRow) {
    exists id :: id in files && id !in todo && f == RowOf(files[id])
  }

  lemma NoRows(files: map<Id, FileRecord>)
    ensures FilesRead(files, files.Keys, [])
  {
  }

  lemma OneRowMore(files: map<Id, FileRecord>, todo: set<Id>, rows: seq<FileRow>, id: Id)
    requires FilesRead(files, todo, rows) && UniquePaths(files) && id in todo && id in files
    ensures FilesRead(files, todo - {id}, rows + [RowOf(files[id])])
  {
    var row := RowOf(files[id]);
    forall f | f in rows ensures f.path != row.path {
      var x :| x in files && x !in todo && f == RowOf(files[x]);
    }
    forall f ensures RowRead(files, todo - {id}, f) <==> RowRead(files, todo, f) || f == row {
    }
    hide RowRead, RowOf, UniquePaths;
    assert forall i :: 0 <= i < |rows| ==> rows[i] in rows;
  }

  lemma AllRows(files: map<Id, FileRecord>, rows: seq<FileRow>)
    requires FilesRead(files, {}, rows)
    ensures DistinctPaths(rows) && forall f :: f in rows <==> exists id :: id in files && f == RowOf(files[id])
  {
    forall f ensures RowRead(files, {}, f) <==> exists id :: id in files && f == RowOf(files[id]) {
    }
  }

  ghost predicate PairsRead(files: map<Id, FileRecord>, edges: set<(Id, Id)>, rows: seq<(Path, Path)>) {
    Distinct(rows) && forall e :: e in rows <==> Joined(files, edges, e)
  }

  method ReadPairs(files: map<Id, FileRecord>, edges: set<(Id, Id)>) returns (rows: seq<(Path, Path)>)
    requires UniquePaths(files) && EdgesLive(edges, files)
    ensures PairsRead(files, edges, rows)
  {
    hide PairsRead, UniquePaths;
    rows := [];
    NoPairsRead(files);
    var todo := edges;
    ghost var done: set<(Id, Id)> := {};
    while todo != {}
      invariant todo + done == edges && todo * done == {} && PairsRead(files, done, rows)
      decreases |todo|
    {
      var e :| e in todo;
      PairsReadMore(files, done, rows, e);
      rows := rows + [(files[e.0].path, files[e.1].path)];
      todo, done := todo - {e}, done + {e};
    }
  }

  lemma NoPairsRead(files: map<Id, FileRecord>)
    ensures PairsRead(files, {}, [])
  {
  }

  lemma PairsReadMore(files: map<Id, FileRecord>, edges: set<(Id, Id)>, rows: seq<(Path, Path)>, e: (Id, Id))
    requires PairsRead(files, edges, rows) && UniquePaths(files) && e.0 in files && e.1 in files && e !in edges
    ensures PairsRead(files, edges + {e}, rows + [(files[e.0].path, files[e.1].path)])
  {
    JoinedMore(files, edges, e);
    hide Joined, Distinct, UniquePaths;
    DistinctSnoc(rows, (files[e.0].path, files[e.1].path));
  }

  lemma DistinctSnoc<T>(s: seq<T>, x: T)
    requires Distinct(s) && x !in s
    ensures Distinct(s + [x])
  {
    assert forall i :: 0 <= i < |s| ==> s[i] in s;
  }

  lemma JoinedMore(files: map<Id, FileRecord>, edges: set<(Id, Id)>, e: (Id, Id))
    requires UniquePaths(files) && e.0 in files && e.1 in files && e !in edges
    ensures !Joined(files, edges, (files[e.0].path, files[e.1].path))
    ensures forall p :: Joined(files, edges + {e}, p) <==> Joined(files, edges, p) || p == (files[e.0].path, files[e.1].path)
  {
    var row := (files[e.0].path, files[e.1].path);
    forall p ensures Joined(files, edges + {e}, p) <==> Joined(files, edges, p) || p == row {
      if Joined(files, edges, p) {
        var a, b :| (a, b) in edges && a in files && b in files && p == (files[a].path, files[b].path);
        assert (a, b) in edges + {e};
      }
      if p == row {
        assert (e.0, e.1) in edges + {e};
      }
    }
  }

  method ReadImports(db: CodeDb) returns (rows: seq<(Path, string)>)
    ensures forall i :: i in rows <==> Imported(db.Snapshot(), i)
  {
    rows := [];
    var todo := db.files.Keys;
    while todo != {}
      invariant todo <= db.files.Keys
      invariant forall i :: i in rows <==> ImportedBut(db.Snapshot(), todo, i)
      decreases |todo|
    {
      var id :| id in todo;
      var more := ReadSpecifiers(db, id);
      rows := rows + more;
      todo := todo - {id};
    }
  }

  ghost predicate ImportedBut(t: Tables, todo: set<Id>, i: (Path, string)) {
    exists id :: id in t.files && id !in todo && id in t.derived && i.0 == t.files[id].path && i.1 in t.derived[id].imports
  }

  method ReadSpecifiers(db: CodeDb, id: Id) returns (rows: seq<(Path, string)>)
    requires id in db.files
    ensures forall i :: i in rows <==> id in db.derived && i.0 == db.files[id].path && i.1 in db.derived[id].imports
  {
    rows := [];
    if id in db.derived {
      var specs, k := db.derived[id].imports, 0;
      while k < |specs|
        invariant 0 <= k <= |specs|
        invariant forall i :: i in rows <==> i.0 == db.files[id].path && i.1 in specs[..k]
      {
        rows := rows + [(db.files[id].path, specs[k])];
        assert specs[..k + 1] == specs[..k] + [specs[k]];
        k := k + 1;
      }
      assert specs[..k] == specs;
    }
  }

  // ---- equal views show equal graphs ----

  lemma FilesViewed(t: Tables, f: FileRow)
    requires Linked(t)
    ensures (exists id :: id in t.files && f == RowOf(t.files[id])) <==> f.path in ViewOf(t) && f == RowOf(ViewOf(t)[f.path].file)
  {
    ViewEntries(t);
    if id :| id in t.files && f == RowOf(t.files[id]) {
      ViewAt(t, id);
    }
  }

  lemma ImportsViewed(t: Tables, i: (Path, string))
    requires Linked(t)
    ensures Imported(t, i) <==> i.0 in ViewOf(t) && i.1 in ViewOf(t)[i.0].derived.imports
  {
    ViewEntries(t);
    if id :| id in t.files && id in t.derived && i.0 == t.files[id].path && i.1 in t.derived[id].imports {
      ViewAt(t, id);
    }
  }

  /** Pairs of live ids read by path are the pairs of viewed paths that satisfy the same relation. */
  lemma PairsViewed(t: Tables, edges: set<(Id, Id)>, e: (Path, Path), ids: (Id, Id) -> bool, paths: (Path, Path) -> bool)
    requires Linked(t)
    requires forall a, b :: (a, b) in edges <==> a in t.files && b in t.files && ids(a, b)
    requires forall a, b :: a in t.files && b in t.files ==> (ids(a, b) <==> paths(t.files[a].path, t.files[b].path))
    ensures Joined(t.files, edges, e) <==> e.0 in ViewOf(t) && e.1 in ViewOf(t) && paths(e.0, e.1)
  {
    ViewEntries(t);
    hide Linked, ViewOf;
    if Joined(t.files, edges, e) {
      var a, b :| (a, b) in edges && a in t.files && b in t.files && e == (t.files[a].path, t.files[b].path);
      assert HasPath(t, e.0) && HasPath(t, e.1);
    }
    if e.0 in ViewOf(t) && e.1 in ViewOf(t) && paths(e.0, e.1) {
      var a, b := IdAt(t, e.0), IdAt(t, e.1);
      assert (a, b) in edges;
    }
  }

  ghost function EdgeIds(t: Tables): (Id, Id) -> bool {
    (a: Id, b: Id) => GraphRefresh.EdgeAt(t, a, b)
  }

  ghost function EdgePaths(v: View): (Path, Path) -> bool {
    (p: Path, q: Path) => GraphRefresh.PathEdge(v, p, q)
  }

  ghost function LinkIds(t: Tables): (Id, Id) -> bool {
    (a: Id, b: Id) => GraphRefresh.LinkAt(t, a, b)
  }

  ghost function LinkPaths(v: View): (Path, Path) -> bool {
    (p: Path, q: Path) => GraphRefresh.PathLink(v, p, q)
  }

  lemma DepsViewed(t: Tables, e: (Path, Path))
    requires Linked(t) && MetadataTheorems.GraphCurrent(t)
    ensures Joined(t.files, t.depEdges, e) <==> e.0 in ViewOf(t) && e.1 in ViewOf(t) && GraphRefresh.PathEdge(ViewOf(t), e.0, e.1)
    ensures Joined(t.files, t.testLinks, e) <==> e.0 in ViewOf(t) && e.1 in ViewOf(t) && GraphRefresh.PathLink(ViewOf(t), e.0, e.1)
  {
    GraphRefresh.EdgeSetIs(t);
    forall a, b | a in t.files && b in t.files
      ensures GraphRefresh.EdgeAt(t, a, b) <==> GraphRefresh.PathEdge(ViewOf(t), t.files[a].path, t.files[b].path)
      ensures GraphRefresh.LinkAt(t, a, b) <==> GraphRefresh.PathLink(ViewOf(t), t.files[a].path, t.files[b].path)
    {
      GraphRefresh.GraphIsViewed(t, a, b);
    }
    hide Linked, ViewOf, Joined, GraphRefresh.EdgeAt, GraphRefresh.LinkAt, GraphRefresh.PathEdge, GraphRefresh.PathLink;
    hide GraphRefresh.EdgeSet, GraphRefresh.LinkSet;
    PairsViewed(t, t.depEdges, e, EdgeIds(t), EdgePaths(ViewOf(t)));
    PairsViewed(t, t.testLinks, e, LinkIds(t), LinkPaths(ViewOf(t)));
  }

  /** Over a current graph the readers return each file of the view with its role, language and package, the resolved
      imports and the tests of the view, and its specifiers. */
  lemma RowsViewed(t: Tables, inp: Input)
    requires Linked(t) && MetadataTheorems.GraphCurrent(t) && Reads(t, inp)
    ensures forall f :: f in inp.files <==>
      f.path in ViewOf(t) && var r := ViewOf(t)[f.path].file; f.role == r.role && f.language == r.language && f.pkg == r.pkg && f.path == r.path
    ensures forall e :: e in inp.deps <==> GraphRefresh.PathEdge(ViewOf(t), e.0, e.1)
    ensures forall e :: e in inp.tests <==> GraphRefresh.PathLink(ViewOf(t), e.0, e.1)
    ensures forall i :: i in inp.imports <==> i.0 in ViewOf(t) && i.1 in ViewOf(t)[i.0].derived.imports
  {
    hide Linked, MetadataTheorems.GraphCurrent, ViewOf, Joined, Imported, Distinct, GraphRefresh.PathEdge, GraphRefresh.PathLink;
    forall f ensures f in inp.files <==>
      f.path in ViewOf(t) && var r := ViewOf(t)[f.path].file; f.role == r.role && f.language == r.language && f.pkg == r.pkg && f.path == r.path
    {
      FilesViewed(t, f);
    }
    forall e ensures (e in inp.deps <==> GraphRefresh.PathEdge(ViewOf(t), e.0, e.1)) && (e in inp.tests <==> GraphRefresh.PathLink(ViewOf(t), e.0, e.1)) {
      DepsViewed(t, e);
      EndsViewed(ViewOf(t), e.0, e.1);
    }
    forall i ensures i in inp.imports <==> i.0 in ViewOf(t) && i.1 in ViewOf(t)[i.0].derived.imports {
      ImportsViewed(t, i);
    }
  }

  lemma EndsViewed(v: View, p: Path, q: Path)
    ensures GraphRefresh.PathEdge(v, p, q) || GraphRefresh.PathLink(v, p, q) ==> p in v && q in v
  {
  }

  lemma SameViewsSameRows(t: Tables, u: Tables, a: Input, b: Input)
    requires Linked(t) && Linked(u) && MetadataTheorems.GraphCurrent(t) && MetadataTheorems.GraphCurrent(u)
    requires ViewOf(t) == ViewOf(u) && Reads(t, a) && Reads(u, b)
    ensures SameRows(a, b)
  {
    hide Linked, MetadataTheorems.GraphCurrent, ViewOf, Joined, Imported, Distinct, GraphRefresh.PathEdge, GraphRefresh.PathLink;
    forall f ensures f in a.files <==> f in b.files {
      FilesViewed(t, f);
      FilesViewed(u, f);
    }
    forall e ensures (e in a.deps <==> e in b.deps) && (e in a.tests <==> e in b.tests) {
      DepsViewed(t, e);
      DepsViewed(u, e);
    }
    forall i ensures i in a.imports <==> i in b.imports {
      ImportsViewed(t, i);
      ImportsViewed(u, i);
    }
  }

  /** The graph shown after an incremental run is the graph shown after a full rebuild of the same tree. */
  lemma ShownGraphSame(t: Tables, w: Scanning.World, cands: seq<Scanning.Candidate>, s: Indexing.Stamp, o: Options,
                       a: Input, b: Input, g: Graph, h: Graph)
    requires Consistent(t) && MetadataTheorems.Sound(w.registry, ViewOf(t)) && Scanning.DistinctRels(cands)
    requires forall c :: c in cands ==> MetadataTheorems.UpToDate(t, w, c)
    requires Reads(MetadataTheorems.AfterRun(t, w, Indexing.Incremental, cands, s), a) && Projects(a, o, g)
    requires Reads(MetadataTheorems.AfterRun(t, w, Indexing.Full, cands, s), b) && Projects(b, o, h)
    requires GraphTheorems.NoClash(a, o)
    ensures g == h
  {
    var inc := MetadataTheorems.AfterRun(t, w, Indexing.Incremental, cands, s);
    var full := MetadataTheorems.AfterRun(t, w, Indexing.Full, cands, s);
    assert DistinctPaths(a.files);
    assert Linked(t);
    hide *;
    MetadataTheorems.IncrementalRefinesFull(t, w, cands, s);
    MetadataTheorems.RunView(t, w, Indexing.Incremental, cands, s);
    MetadataTheorems.RunView(t, w, Indexing.Full, cands, s);
    SameViewsSameRows(inc, full, a, b);
    SameRowsSym(a, b);
    ProjectsSame(b, a, o, h);
    GraphTheorems.UnclashedUnique(a, o, g, h);
  }

  lemma SameRowsSym(a: Input, b: Input)
    requires SameRows(a, b)
    ensures SameRows(b, a)
  {
    hide Distinct;
  }
}
