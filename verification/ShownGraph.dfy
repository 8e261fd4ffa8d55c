/** What `show graph` shows, in terms of its rows and options alone. */
module ShownGraph {
  import opened Base
  import opened Sorting
  import opened Text
  import opened StringOrder
  import opened Lists
  import opened PathSegments
  import opened GraphProjection
  import opened GraphTheorems
  import GraphReads

  /** The file is in the asked part of the tree, has the asked role and the asked language; what is not asked is "". */
  ghost predicate Asked(f: FileRow, o: Options) {
    && (exists before, after :: f.path == before + o.within + after)
    && (o.role != "" ==> f.role == o.role)
    && (o.lang != "" ==> f.language == o.lang)
  }

  lemma KeptIsAsked(f: FileRow, o: Options)
    ensures Keep(f, o) <==> Asked(f, o)
  {
    if o.within == "" {
      assert f.path == "" + o.within + f.path;
    } else {
      if Contains(f.path, o.within) {
        var before, after := Occurs(f.path, o.within);
      }
      if before, after :| f.path == before + o.within + after {
        OccursContains(before, o.within, after);
      }
    }
    hide Contains;
  }

  ghost function AskedFiles(inp: Input, o: Options): set<FileRow> {
    set f | f in inp.files && Asked(f, o)
  }

  ghost function AskedPaths(inp: Input, o: Options): set<string> {
    set f | f in AskedFiles(inp, o) :: f.path
  }

  lemma SelectedAre(inp: Input, o: Options)
    ensures Selected(inp.files, o) == AskedPaths(inp, o)
  {
    forall f ensures Keep(f, o) <==> Asked(f, o) {
      KeptIsAsked(f, o);
    }
    hide Keep, Asked;
  }

  lemma {:induction false} PathsCounted(files: set<FileRow>)
    requires forall f, g :: f in files && g in files && f.path == g.path ==> f == g
    ensures |set f | f in files :: f.path| == |files|
  {
    var paths := set f | f in files :: f.path;
    if files == {} {
      assert paths == {};
    } else {
      var x :| x in files;
      var rest := files - {x};
      PathsCounted(rest);
      var others := set f | f in rest :: f.path;
      assert paths == others + {x.path};
      assert x.path !in others;
    }
  }

  lemma AskedCounted(inp: Input, o: Options)
    requires DistinctPaths(inp.files)
    ensures |AskedPaths(inp, o)| == |AskedFiles(inp, o)|
  {
    hide Asked;
    forall f, g | f in AskedFiles(inp, o) && g in AskedFiles(inp, o) && f.path == g.path ensures f == g {
      var i :| 0 <= i < |inp.files| && inp.files[i] == f;
      var j :| 0 <= j < |inp.files| && inp.files[j] == g;
    }
    PathsCounted(AskedFiles(inp, o));
  }

  /** The node shows this file row. */
  ghost predicate Shows(inp: Input, n: Node, f: FileRow) {
    && n.kind == FileNode && n.id == f.path && n.role == f.role && n.language == f.language && n.pkg == f.pkg
    && (n.hasTests <==> exists t :: (f.path, t) in inp.tests)
  }

  /** Every file shown was asked for; all are shown unless they are more than the cap, which is 200 by default, and then as
      many as the cap. The total counts them all. */
  lemma FilesShown(inp: Input, o: Options, g: Graph)
    requires Projects(inp, o, g) && DistinctPaths(inp.files)
    ensures var cap := if o.max <= 0 then 200 else o.max;
            && g.total == |AskedFiles(inp, o)| && (g.capped <==> g.total > cap)
            && |Kept(g.nodes)| == if g.capped then cap else g.total
    ensures forall n :: n in g.nodes && n.kind == FileNode ==> exists f :: f in AskedFiles(inp, o) && Shows(inp, n, f)
    ensures !g.capped ==> forall f :: f in AskedFiles(inp, o) ==> exists n :: n in g.nodes && Shows(inp, n, f)
  {
    SelectedAre(inp, o);
    AskedCounted(inp, o);
    ShownParts(inp, o, g);
    hide AskedFiles, Kept, Shows, Projects;
    forall n | n in g.nodes && n.kind == FileNode ensures exists f :: f in AskedFiles(inp, o) && Shows(inp, n, f) {
      var f := NodeShows(inp, o, g, n);
    }
    if !g.capped {
      SubsetEqual(Kept(g.nodes), AskedPaths(inp, o));
      forall f | f in AskedFiles(inp, o) ensures exists n :: n in g.nodes && Shows(inp, n, f) {
        var n := NodeOfFile(inp, o, g, f);
      }
    }
  }

  lemma ShownParts(inp: Input, o: Options, g: Graph)
    requires Projects(inp, o, g)
    ensures var sel, cap := Selected(inp.files, o), if o.max <= 0 then 200 else o.max;
            && g.total == |sel| && (g.capped <==> |sel| > cap)
            && Kept(g.nodes) <= sel && |Kept(g.nodes)| == if |sel| > cap then cap else |sel|
    ensures forall n :: n in g.nodes && n.kind == FileNode ==> DescribesFile(inp, n)
  {
    hide Full, Pruned, Selected, In, Out, DescribesFile, Kept, Sorted;
  }

  lemma NodeShows(inp: Input, o: Options, g: Graph, n: Node) returns (f: FileRow)
    requires Kept(g.nodes) <= AskedPaths(inp, o) && DistinctPaths(inp.files) && n in g.nodes && n.kind == FileNode
    requires DescribesFile(inp, n)
    ensures f in AskedFiles(inp, o) && Shows(inp, n, f)
  {
    hide Asked;
    assert n.id in Kept(g.nodes);
    f :| f in AskedFiles(inp, o) && f.path == n.id;
    var e :| e in inp.files && e.path == n.id && e.role == n.role && e.language == n.language && e.pkg == n.pkg;
    var i :| 0 <= i < |inp.files| && inp.files[i] == f;
    var j :| 0 <= j < |inp.files| && inp.files[j] == e;
    assert i == j;
    if n.hasTests {
      var l :| l in inp.tests && l.0 == n.id;
      assert (f.path, l.1) in inp.tests;
    }
  }

  lemma NodeOfFile(inp: Input, o: Options, g: Graph, f: FileRow) returns (n: Node)
    requires Kept(g.nodes) == AskedPaths(inp, o) && DistinctPaths(inp.files) && f in AskedFiles(inp, o)
    requires forall n :: n in g.nodes && n.kind == FileNode ==> DescribesFile(inp, n)
    ensures n in g.nodes && Shows(inp, n, f)
  {
    assert f.path in Kept(g.nodes);
    n :| n in g.nodes && n.kind == FileNode && n.id == f.path;
    assert DescribesFile(inp, n);
    hide Asked, DescribesFile;
    var e := NodeShows(inp, o, g, n);
    var i :| 0 <= i < |inp.files| && inp.files[i] == f;
    var j :| 0 <= j < |inp.files| && inp.files[j] == e;
    assert i == j;
  }

  // ---- degrees ----

  ghost function Ends(edges: set<Edge>, end: Edge -> string, id: string): set<Edge> {
    set e | e in edges && e.kind != TestEdge && end(e) == id
  }

  /** Counting distinct edges gives the size of the set. */
  lemma {:induction false} CountIsSize(edges: seq<Edge>, end: Edge -> string, id: string)
    requires Distinct(edges)
    ensures Count(edges, end, id) == |Ends((set e | e in edges), end, id)|
  {
    var all := set e | e in edges;
    if edges == [] {
      assert Ends(all, end, id) == {};
    } else {
      var init, x := edges[..|edges| - 1], edges[|edges| - 1];
      CountIsSize(init, end, id);
      var rest := set e | e in init;
      assert edges == init + [x];
      assert x !in init;
      assert all == rest + {x};
      hide Ends;
      EndsMore(rest, x, end, id);
    }
  }

  lemma EndsMore(rest: set<Edge>, x: Edge, end: Edge -> string, id: string)
    requires x !in rest
    ensures |Ends(rest + {x}, end, id)| == |Ends(rest, end, id)| + if x.kind != TestEdge && end(x) == id then 1 else 0
  {
    if x.kind != TestEdge && end(x) == id {
      assert Ends(rest + {x}, end, id) == Ends(rest, end, id) + {x};
    } else {
      assert Ends(rest + {x}, end, id) == Ends(rest, end, id);
    }
  }

  lemma {:induction false} PrunedDistinct(edges: seq<Edge>, kept: set<string>)
    requires Distinct(edges)
    ensures Distinct(Pruned(edges, kept))
  {
    if edges != [] {
      var init, x := edges[..|edges| - 1], edges[|edges| - 1];
      PrunedDistinct(init, kept);
      PrunedMembers(init, kept, x);
      assert x !in init;
    }
  }

  /** Without repeated rows no edge is shown twice. */
  lemma EdgesDistinct(inp: Input, o: Options, g: Graph)
    requires Projects(inp, o, g) && Distinct(inp.deps) && Distinct(inp.tests)
    ensures Distinct(g.edges)
  {
    var sel := Selected(inp.files, o);
    GraphReads.FullDistinct(inp, sel);
    PrunedDistinct(Full(inp, sel), Kept(g.nodes));
    hide Full, Pruned, Selected, Distinct, Kept;
    DistinctPermutes(Pruned(Full(inp, sel), Kept(g.nodes)), g.edges);
  }

  /** A node's degrees are the numbers of shown edges into and out of it that are not test links. */
  lemma DegreesShown(inp: Input, o: Options, g: Graph, n: Node)
    requires Projects(inp, o, g) && Distinct(inp.deps) && Distinct(inp.tests) && n in g.nodes
    ensures n.inDegree == |set e | e in g.edges && e.kind != TestEdge && e.to == n.id|
    ensures n.outDegree == |set e | e in g.edges && e.kind != TestEdge && e.from == n.id|
  {
    EdgesDistinct(inp, o, g);
    FitEach(inp, o, g);
    hide Projects, Distinct;
    CountIsSize(g.edges, ToOf, n.id);
    CountIsSize(g.edges, FromOf, n.id);
    var all := set e | e in g.edges;
    assert Ends(all, ToOf, n.id) == set e | e in g.edges && e.kind != TestEdge && e.to == n.id;
    assert Ends(all, FromOf, n.id) == set e | e in g.edges && e.kind != TestEdge && e.from == n.id;
  }

  // ---- the cap ----

  /** The asked files that import p. */
  ghost function Importers(inp: Input, o: Options, p: string): set<string> {
    set a | a in AskedPaths(inp, o) && (a, p) in inp.deps
  }

  lemma InIsImporters(inp: Input, o: Options, p: string)
    requires Distinct(inp.deps) && Distinct(inp.tests) && p in AskedPaths(inp, o) && forall q :: !Imports(inp.imports, q, p)
    ensures In(Full(inp, Selected(inp.files, o)), p) == |Importers(inp, o, p)|
  {
    var sel := Selected(inp.files, o);
    var full := Full(inp, sel);
    SelectedAre(inp, o);
    GraphReads.FullDistinct(inp, sel);
    CountIsSize(full, ToOf, p);
    hide Full, Selected, AskedPaths, Distinct, Count;
    var into := Ends((set e | e in full), ToOf, p);
    forall e ensures e in into <==> e.kind == ImportEdge && e.to == p && e.from in Importers(inp, o, p) {
      FullMembers(inp, sel, e);
      hide Imports;
    }
    EdgesFrom(into, Importers(inp, o, p), p);
  }

  lemma {:induction false} EdgesFrom(into: set<Edge>, from: set<string>, p: string)
    requires forall e :: e in into <==> e.kind == ImportEdge && e.to == p && e.from in from
    ensures |into| == |from|
    decreases |from|
  {
    if from == {} {
      assert into == {};
    } else {
      var a :| a in from;
      var e := Edge(a, p, ImportEdge);
      EdgesFrom(into - {e}, from - {a}, p);
      assert e in into;
    }
  }

  /** When the cap leaves an asked file out, every file shown has more importers among the asked files, or as many and a
      smaller path. */
  lemma CapLeavesLeast(inp: Input, o: Options, g: Graph, f: string, h: string)
    requires Projects(inp, o, g) && Distinct(inp.deps) && Distinct(inp.tests)
    requires f in Kept(g.nodes) && h in AskedPaths(inp, o) && h !in Kept(g.nodes)
    requires forall q :: !Imports(inp.imports, q, f) && !Imports(inp.imports, q, h)
    ensures var m, n := |Importers(inp, o, f)|, |Importers(inp, o, h)|;
            m > n || (m == n && f != h && StringLeq(f, h))
  {
    SelectedAre(inp, o);
    ShownParts(inp, o, g);
    OutranksShown(inp, o, g, f, h);
    hide *;
    InIsImporters(inp, o, f);
    InIsImporters(inp, o, h);
  }

  lemma OutranksShown(inp: Input, o: Options, g: Graph, f: string, h: string)
    requires Projects(inp, o, g) && f in Kept(g.nodes) && h in Selected(inp.files, o) && h !in Kept(g.nodes)
    ensures var full := Full(inp, Selected(inp.files, o));
            In(full, f) > In(full, h) || (In(full, f) == In(full, h) && f != h && StringLeq(f, h))
  {
    hide Full, Pruned, Selected, In, Kept, NodesFit, StringLeq;
  }

  // ---- the order ----

  /** Nodes stand by their ids, edges by their start, their end and their kind. */
  lemma ShownInOrder(inp: Input, o: Options, g: Graph)
    requires Projects(inp, o, g)
    ensures forall i, j :: 0 <= i < j < |g.nodes| ==> StringLeq(g.nodes[i].id, g.nodes[j].id)
    ensures forall i, j :: 0 <= i < j < |g.edges| ==> EdgeBefore(g.edges[i], g.edges[j])
  {
    hide Full, Pruned, Selected, In, Kept, NodesFit, StringLeq;
    forall i, j | 0 <= i < j < |g.edges| ensures EdgeBefore(g.edges[i], g.edges[j]) {
      assert EdgeLeq(g.edges[i], g.edges[j]);
    }
    forall i, j | 0 <= i < j < |g.nodes| ensures StringLeq(g.nodes[i].id, g.nodes[j].id) {
      assert IdLeq(g.nodes[i], g.nodes[j]);
    }
  }

  ghost predicate EdgeBefore(d: Edge, e: Edge) {
    || (d.from != e.from && StringLeq(d.from, e.from))
    || (d.from == e.from && d.to != e.to && StringLeq(d.to, e.to))
    || (d.from == e.from && d.to == e.to && (d.kind == e.kind || d.kind == ExternalEdge || e.kind == TestEdge))
  }
}
