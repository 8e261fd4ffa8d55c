/** What the graph of `show graph` promises: when its degrees add up, and when it is the only one. */
module GraphTheorems {
  import opened Base
  import opened Sorting
  import opened Text
  import opened StringOrder
  import opened Lists
  import TagOrder
  import opened ExternalPackages
  import opened GraphProjection

  // ---- which files survive the cap, from the input ----

  function RankBy(full: seq<Edge>): (string, string) -> bool {
    (f: string, g: string) => In(full, f) > In(full, g) || (In(full, f) == In(full, g) && StringLeq(f, g))
  }

  lemma RankByOrder(full: seq<Edge>)
    ensures TotalPreorder(RankBy(full))
  {
    var leq := RankBy(full);
    forall f, g ensures leq(f, g) || leq(g, f) {
      StringLeqTotal(f, g);
    }
    forall f, g, h | leq(f, g) && leq(g, h) ensures leq(f, h) {
      if In(full, f) == In(full, g) == In(full, h) {
        StringLeqTransitive(f, g, h);
      }
    }
  }

  /** The selected files, best first. */
  function Ranking(inp: Input, o: Options): seq<string> {
    var sel := Selected(inp.files, o);
    Sort(TagOrder.SortedTags(sel), RankBy(Full(inp, sel)))
  }

  function CutOf(inp: Input, o: Options): set<string> {
    var r := Ranking(inp, o);
    var first := if |r| > CapOf(o) then r[..CapOf(o)] else r;
    set f | f in first
  }

  lemma RankingIs(inp: Input, o: Options)
    ensures var r, sel := Ranking(inp, o), Selected(inp.files, o);
            && Distinct(r) && |r| == |sel| && (forall f :: f in r <==> f in sel)
            && Sorted(r, RankBy(Full(inp, sel)))
  {
    var sel := Selected(inp.files, o);
    var tags, leq, r := TagOrder.SortedTags(sel), RankBy(Full(inp, sel)), Ranking(inp, o);
    TagOrder.SortedTagsIs(sel);
    RankByOrder(Full(inp, sel));
    SortPermutes(tags, leq);
    SortSorted(tags, leq);
    hide Sort, RankBy, Full, Selected, Sorted, Distinct, TagOrder.SortedTags, TotalPreorder;
    DistinctPermutes(tags, r);
    PermutationMembers(tags, r);
    DistinctSize(r);
    assert (set f | f in r) == sel;
  }

  lemma CutOfIs(inp: Input, o: Options)
    ensures IsCut(Full(inp, Selected(inp.files, o)), Selected(inp.files, o), CapOf(o), CutOf(inp, o))
  {
    var r, sel, cut := Ranking(inp, o), Selected(inp.files, o), CutOf(inp, o);
    var full := Full(inp, sel);
    var k := if |r| > CapOf(o) then CapOf(o) else |r|;
    RankingIs(inp, o);
    hide Ranking, Full, Selected, In;
    assert r[..|r|] == r;
    DistinctSize(r[..k]);
    assert cut == set f | f in r[..k];
    forall j | 0 <= j < k ensures r[j] in cut {
      assert r[..k][j] == r[j];
    }
    forall f, g | f in cut && g in sel && g !in cut ensures Outranks(full, f, g) {
      var i :| 0 <= i < k && r[..k][i] == f;
      var j :| 0 <= j < |r| && r[j] == g;
      assert RankBy(full)(r[i], r[j]);
    }
  }

  lemma KeptIsCut(inp: Input, o: Options, g: Graph)
    requires Projects(inp, o, g)
    ensures Kept(g.nodes) == CutOf(inp, o)
  {
    hide CutOf, Kept, Full, IsCut, Selected, Pruned, NodesFit, Sorted;
    var sel := Selected(inp.files, o);
    CutOfIs(inp, o);
    GraphProjection.CutUnique(Full(inp, sel), sel, CapOf(o), Kept(g.nodes), CutOf(inp, o));
  }

  // ---- a file that is named like a package ----

  /** No file that survives is named like a package that a surviving file imports. */
  ghost predicate NoClash(inp: Input, o: Options) {
    forall p, q :: p in CutOf(inp, o) && q in CutOf(inp, o) ==> !Imports(inp.imports, p, q)
  }

  /** The file has an edge out of it that counts. */
  ghost predicate HasOut(inp: Input, o: Options, q: string) {
    (exists r :: r in CutOf(inp, o) && (q, r) in inp.deps) || exists x :: Imports(inp.imports, q, x)
  }

  /** No file that is named like a package has an edge out of it. */
  ghost predicate ClashesAreSinks(inp: Input, o: Options) {
    forall p, q :: p in CutOf(inp, o) && q in CutOf(inp, o) && Imports(inp.imports, p, q) ==> !HasOut(inp, o, q)
  }

  lemma PackageIds(imports: seq<(string, string)>, p: string, q: string)
    ensures Imports(imports, p, q) ==> "ext:" <= q
  {
    hide ExternalPackage;
  }

  /** Package ids begin with ext:, so only a file whose path does can clash. */
  lemma OrdinaryPaths(inp: Input, o: Options)
    requires forall f :: f in inp.files ==> !("ext:" <= f.path)
    ensures NoClash(inp, o)
  {
    hide CutOf, Imports, Full, Keep;
    CutOfIs(inp, o);
    forall p, q | p in CutOf(inp, o) && q in CutOf(inp, o) ensures !Imports(inp.imports, p, q) {
      assert q in Selected(inp.files, o);
      PackageIds(inp.imports, p, q);
    }
  }

  lemma ClashIs(inp: Input, o: Options, g: Graph)
    requires Projects(inp, o, g)
    ensures Kept(g.nodes) !! ExternalIds(g.edges) <==> NoClash(inp, o)
    ensures (forall e :: e in g.edges && e.kind != TestEdge ==> e.from !in ExternalIds(g.edges)) <==> ClashesAreSinks(inp, o)
  {
    KeptIsCut(inp, o, g);
    forall e ensures EdgeIs(inp, o, g, e) {
      EdgesExactly(inp, o, g, e);
    }
    hide Kept, CutOf, Projects, Imports, ExternalIds;
    ExternalIdsAre(inp, o, g);
    SinksAre(inp, o, g);
  }

  /** What EdgesExactly says, with the cut. */
  ghost predicate EdgeIs(inp: Input, o: Options, g: Graph, e: Edge) {
    e in g.edges <==>
      && e.from in CutOf(inp, o)
      && match e.kind
         case ImportEdge => (e.from, e.to) in inp.deps && e.to in CutOf(inp, o)
         case TestEdge => (e.from, e.to) in inp.tests && e.to in CutOf(inp, o)
         case ExternalEdge => Imports(inp.imports, e.from, e.to)
  }

  lemma ExternalIdsAre(inp: Input, o: Options, g: Graph)
    requires forall e :: EdgeIs(inp, o, g, e)
    ensures forall x :: x in ExternalIds(g.edges) <==> exists p :: p in CutOf(inp, o) && Imports(inp.imports, p, x)
  {
    hide CutOf, Imports;
    forall x ensures x in ExternalIds(g.edges) <==> exists p :: p in CutOf(inp, o) && Imports(inp.imports, p, x) {
      if x in ExternalIds(g.edges) {
        var e :| e in g.edges && e.kind == ExternalEdge && e.to == x;
        assert EdgeIs(inp, o, g, e);
      }
      if p :| p in CutOf(inp, o) && Imports(inp.imports, p, x) {
        assert EdgeIs(inp, o, g, Edge(p, x, ExternalEdge));
      }
    }
  }

  lemma SinksAre(inp: Input, o: Options, g: Graph)
    requires forall e :: EdgeIs(inp, o, g, e)
    requires forall x :: x in ExternalIds(g.edges) <==> exists p :: p in CutOf(inp, o) && Imports(inp.imports, p, x)
    ensures (forall e :: e in g.edges && e.kind != TestEdge ==> e.from !in ExternalIds(g.edges)) <==> ClashesAreSinks(inp, o)
  {
    hide CutOf, Imports, ExternalIds;
    forall q | q in CutOf(inp, o) ensures HasOut(inp, o, q) <==> exists e :: e in g.edges && e.kind != TestEdge && e.from == q {
      if r :| r in CutOf(inp, o) && (q, r) in inp.deps {
        assert EdgeIs(inp, o, g, Edge(q, r, ImportEdge));
      }
      if x :| Imports(inp.imports, q, x) {
        assert EdgeIs(inp, o, g, Edge(q, x, ExternalEdge));
      }
      if e :| e in g.edges && e.kind != TestEdge && e.from == q {
        assert EdgeIs(inp, o, g, e);
      }
    }
    hide HasOut;
    forall e | e in g.edges ensures e.from in CutOf(inp, o) {
      assert EdgeIs(inp, o, g, e);
    }
  }

  // ---- degree sums ----

  function NonTest(edges: seq<Edge>): nat {
    if edges == [] then 0 else NonTest(edges[..|edges| - 1]) + if edges[|edges| - 1].kind != TestEdge then 1 else 0
  }

  function Total(edges: seq<Edge>, end: Edge -> string, ids: seq<string>): nat {
    if ids == [] then 0 else Total(edges, end, ids[..|ids| - 1]) + Count(edges, end, ids[|ids| - 1])
  }

  lemma {:induction false} TotalNone(end: Edge -> string, ids: seq<string>)
    ensures Total([], end, ids) == 0
  {
    if ids != [] {
      TotalNone(end, ids[..|ids| - 1]);
    }
  }

  /** A new edge adds one for every node that bears the id of its end. */
  lemma {:induction false} TotalSnoc(edges: seq<Edge>, e: Edge, end: Edge -> string, ids: seq<string>)
    ensures Total(edges + [e], end, ids) == Total(edges, end, ids) + if e.kind != TestEdge then multiset(ids)[end(e)] else 0
  {
    if ids != [] {
      var init, id := ids[..|ids| - 1], ids[|ids| - 1];
      TotalSnoc(edges, e, end, init);
      assert ids == init + [id];
      assert (edges + [e])[..|edges|] == edges;
    }
  }

  ghost predicate EndsOnce(edges: seq<Edge>, end: Edge -> string, ids: seq<string>) {
    forall e :: e in edges && e.kind != TestEdge ==> multiset(ids)[end(e)] == 1
  }

  /** If every end bears some node's id, the degrees add up to the number of edges exactly when no end bears two. */
  lemma {:induction false} TotalBalances(edges: seq<Edge>, end: Edge -> string, ids: seq<string>)
    requires forall e :: e in edges && e.kind != TestEdge ==> multiset(ids)[end(e)] >= 1
    ensures Total(edges, end, ids) >= NonTest(edges)
    ensures Total(edges, end, ids) == NonTest(edges) <==> EndsOnce(edges, end, ids)
  {
    if edges == [] {
      TotalNone(end, ids);
    } else {
      var init, e := edges[..|edges| - 1], edges[|edges| - 1];
      assert edges == init + [e];
      TotalBalances(init, end, ids);
      TotalSnoc(init, e, end, ids);
      hide Total;
    }
  }

  ghost function Bearers(nodes: seq<Node>, x: string): nat {
    (if HasNode(nodes, FileNode, x) then 1 else 0) + (if HasNode(nodes, ExternalNode, x) then 1 else 0)
  }

  /** An id is borne at most once by a file and once by a package. */
  lemma {:induction false} IdsBorne(nodes: seq<Node>, x: string)
    requires OnceEach(nodes)
    ensures multiset(Map(nodes, IdOf))[x] == Bearers(nodes, x)
  {
    if nodes != [] {
      var init, n := nodes[..|nodes| - 1], nodes[|nodes| - 1];
      assert nodes == init + [n];
      assert Map(nodes, IdOf) == Map(init, IdOf) + [n.id];
      assert Map(nodes, KeyOf) == Map(init, KeyOf) + [KeyOf(n)];
      IdsBorne(init, x);
      assert !HasNode(init, n.kind, n.id) by {
        forall m | m in init ensures KeyOf(m) != KeyOf(n) {
          var i :| 0 <= i < |init| && init[i] == m;
          assert Map(nodes, KeyOf)[i] == KeyOf(m);
        }
      }
      HasNodeSnoc(init, n, FileNode, x);
      HasNodeSnoc(init, n, ExternalNode, x);
      hide HasNode, OnceEach;
    }
  }

  lemma HasNodeSnoc(init: seq<Node>, n: Node, kind: NodeKind, x: string)
    ensures HasNode(init + [n], kind, x) <==> HasNode(init, kind, x) || (n.kind == kind && n.id == x)
  {
    if HasNode(init, kind, x) {
      var m :| m in init && m.kind == kind && m.id == x;
      assert m in init + [n];
    }
    if n.kind == kind && n.id == x {
      assert n in init + [n];
    }
  }

  function SumIn(nodes: seq<Node>): nat {
    if nodes == [] then 0 else SumIn(nodes[..|nodes| - 1]) + nodes[|nodes| - 1].inDegree
  }

  function SumOut(nodes: seq<Node>): nat {
    if nodes == [] then 0 else SumOut(nodes[..|nodes| - 1]) + nodes[|nodes| - 1].outDegree
  }

  lemma {:induction false} SumsAreTotals(edges: seq<Edge>, nodes: seq<Node>)
    requires forall n :: n in nodes ==> n.inDegree == In(edges, n.id) && n.outDegree == Out(edges, n.id)
    ensures SumIn(nodes) == Total(edges, ToOf, Map(nodes, IdOf))
    ensures SumOut(nodes) == Total(edges, FromOf, Map(nodes, IdOf))
  {
    if nodes != [] {
      var init := nodes[..|nodes| - 1];
      SumsAreTotals(edges, init);
      assert nodes[|nodes| - 1] in nodes;
      assert Map(nodes, IdOf)[..|nodes| - 1] == Map(init, IdOf);
      hide Count;
    }
  }

  /** The in-degrees of a projection add up to its import and external edges exactly when no surviving file is named
      like a package that one imports; the out-degrees, exactly when no such file has an edge out of it. */
  lemma DegreesBalance(inp: Input, o: Options, g: Graph)
    requires Projects(inp, o, g)
    ensures SumIn(g.nodes) == NonTest(g.edges) <==> NoClash(inp, o)
    ensures SumOut(g.nodes) == NonTest(g.edges) <==> ClashesAreSinks(inp, o)
  {
    hide *;
    var ids := Map(g.nodes, IdOf);
    ProjectionSums(inp, o, g);
    EndpointsAreNodes(inp, o, g);
    KeptNodes(g.nodes);
    ClashIs(inp, o, g);
    Borne(g, ids);
    TotalBalances(g.edges, ToOf, ids);
    TotalBalances(g.edges, FromOf, ids);
    Balance(g, ids);
  }

  lemma ProjectionSums(inp: Input, o: Options, g: Graph)
    requires Projects(inp, o, g)
    ensures SumIn(g.nodes) == Total(g.edges, ToOf, Map(g.nodes, IdOf))
    ensures SumOut(g.nodes) == Total(g.edges, FromOf, Map(g.nodes, IdOf))
    ensures forall x :: multiset(Map(g.nodes, IdOf))[x] == Bearers(g.nodes, x)
  {
    hide Count, DescribesFile, Full, Pruned, Bearers, SumIn, SumOut, Total;
    assert OnceEach(g.nodes) && forall n :: n in g.nodes ==> NodeFits(inp, g.edges, n);
    SumsAreTotals(g.edges, g.nodes);
    forall x ensures multiset(Map(g.nodes, IdOf))[x] == Bearers(g.nodes, x) {
      IdsBorne(g.nodes, x);
    }
  }

  lemma KeptNodes(nodes: seq<Node>)
    ensures forall x :: x in Kept(nodes) <==> HasNode(nodes, FileNode, x)
  {
  }

  lemma Borne(g: Graph, ids: seq<string>)
    requires forall x :: multiset(ids)[x] == Bearers(g.nodes, x)
    requires forall e :: e in g.edges ==> Connects(g.nodes, e)
    ensures forall e :: e in g.edges && e.kind != TestEdge ==> multiset(ids)[ToOf(e)] >= 1
    ensures forall e :: e in g.edges && e.kind != TestEdge ==> multiset(ids)[FromOf(e)] >= 1
  {
    hide HasNode;
  }

  lemma Balance(g: Graph, ids: seq<string>)
    requires forall x :: multiset(ids)[x] == Bearers(g.nodes, x)
    requires forall x :: x in Kept(g.nodes) <==> HasNode(g.nodes, FileNode, x)
    requires forall x :: HasNode(g.nodes, ExternalNode, x) <==> x in ExternalIds(g.edges)
    requires forall e :: e in g.edges ==> Connects(g.nodes, e)
    ensures EndsOnce(g.edges, ToOf, ids) <==> Kept(g.nodes) !! ExternalIds(g.edges)
    ensures EndsOnce(g.edges, FromOf, ids) <==> forall e :: e in g.edges && e.kind != TestEdge ==> e.from !in ExternalIds(g.edges)
  {
    hide HasNode, Kept;
    if EndsOnce(g.edges, ToOf, ids) {
      forall x | x in ExternalIds(g.edges) ensures x !in Kept(g.nodes) {
        var e :| e in g.edges && e.kind == ExternalEdge && e.to == x;
        assert multiset(ids)[ToOf(e)] == 1;
      }
    }
  }

  // ---- one input, one result ----

  lemma NodeDetermined(inp: Input, edges: seq<Edge>, m: Node, n: Node)
    requires DistinctPaths(inp.files) && NodeFits(inp, edges, m) && NodeFits(inp, edges, n) && KeyOf(m) == KeyOf(n)
    ensures m == n
  {
    hide In, Out;
    if m.kind == FileNode {
      var f :| f in inp.files && f.path == m.id && f.role == m.role && f.language == m.language && f.pkg == m.pkg;
      var h :| h in inp.files && h.path == n.id && h.role == n.role && h.language == n.language && h.pkg == n.pkg;
      assert f == h;
    }
  }

  /** The kind of a node can be read off its id when no file is named like a package. */
  ghost predicate KindsKnown(nodes: seq<Node>, kept: set<string>) {
    forall n :: n in nodes ==> (n.kind == FileNode <==> n.id in kept)
  }

  lemma UnclashedKinds(inp: Input, o: Options, g: Graph)
    requires Projects(inp, o, g) && Kept(g.nodes) !! ExternalIds(g.edges)
    ensures KindsKnown(g.nodes, Kept(g.nodes))
    ensures forall x :: x in Map(g.nodes, IdOf) <==> x in Kept(g.nodes) + ExternalIds(g.edges)
    ensures Distinct(Map(g.nodes, IdOf)) && Sorted(Map(g.nodes, IdOf), StringLeq)
  {
    hide In, Out, Full, DescribesFile, StringLeq, IsCut;
    forall n | n in g.nodes ensures n.kind == FileNode <==> n.id in Kept(g.nodes) {
      assert NodeFits(inp, g.edges, n);
    }
    forall i, j | 0 <= i < j < |g.nodes| ensures g.nodes[i].id != g.nodes[j].id {
      assert Map(g.nodes, KeyOf)[i] != Map(g.nodes, KeyOf)[j];
      assert g.nodes[i] in g.nodes && g.nodes[j] in g.nodes;
    }
    MapMembers(g.nodes);
    EndpointsAreNodes(inp, o, g);
    KeptNodes(g.nodes);
    NodeIds(g.nodes);
    forall x ensures x in Map(g.nodes, IdOf) <==> x in Kept(g.nodes) + ExternalIds(g.edges) {
      assert x in (set y | y in Map(g.nodes, IdOf)) <==> x in (set n | n in g.nodes :: n.id);
    }
    forall i, j | 0 <= i < j < |g.nodes| ensures StringLeq(g.nodes[i].id, g.nodes[j].id) {
      assert IdLeq(g.nodes[i], g.nodes[j]);
    }
  }

  lemma NodeIds(nodes: seq<Node>)
    ensures forall x :: x in (set n | n in nodes :: n.id) <==> HasNode(nodes, FileNode, x) || HasNode(nodes, ExternalNode, x)
  {
    forall n | n in nodes ensures HasNode(nodes, n.kind, n.id) {
    }
  }

  lemma SameEdges(inp: Input, o: Options, g: Graph, h: Graph)
    requires Projects(inp, o, g) && Projects(inp, o, h)
    ensures Kept(g.nodes) == Kept(h.nodes) && g.edges == h.edges && g.total == h.total && g.capped == h.capped
  {
    var sel := Selected(inp.files, o);
    hide Full, Pruned, Kept, NodesFit, IsCut, EdgeLeq, IdLeq;
    GraphProjection.CutUnique(Full(inp, sel), sel, CapOf(o), Kept(g.nodes), Kept(h.nodes));
    EdgeOrder();
    SortedUnique(g.edges, h.edges, EdgeLeq);
  }

  /** Although files and packages are ranged over in no particular order and the sorts are not stable, the result is
      determined by the input, as long as no returned file is named like a returned package. */
  lemma UnclashedUnique(inp: Input, o: Options, g: Graph, h: Graph)
    requires DistinctPaths(inp.files) && Projects(inp, o, g) && Projects(inp, o, h) && NoClash(inp, o)
    ensures g == h
  {
    SameEdges(inp, o, g, h);
    ClashIs(inp, o, g);
    ClashIs(inp, o, h);
    hide NoClash;
    UnclashedKinds(inp, o, g);
    UnclashedKinds(inp, o, h);
    FitEach(inp, o, g);
    FitEach(inp, o, h);
    hide *;
    SameNodes(inp, g, h);
  }

  lemma SameNodes(inp: Input, g: Graph, h: Graph)
    requires DistinctPaths(inp.files) && g.edges == h.edges && Kept(g.nodes) == Kept(h.nodes)
    requires KindsKnown(g.nodes, Kept(g.nodes)) && KindsKnown(h.nodes, Kept(h.nodes))
    requires forall n :: n in g.nodes ==> NodeFits(inp, g.edges, n)
    requires forall n :: n in h.nodes ==> NodeFits(inp, h.edges, n)
    requires forall x :: x in Map(g.nodes, IdOf) <==> x in Map(h.nodes, IdOf)
    requires Distinct(Map(g.nodes, IdOf)) && Sorted(Map(g.nodes, IdOf), StringLeq)
    requires Distinct(Map(h.nodes, IdOf)) && Sorted(Map(h.nodes, IdOf), StringLeq)
    ensures g.nodes == h.nodes
  {
    hide Kept, ExternalIds, Sorted, NodeFits, DistinctPaths, Distinct, StringLeq;
    DistinctSameMembers(Map(g.nodes, IdOf), Map(h.nodes, IdOf));
    StringLeqOrder();
    SortedUnique(Map(g.nodes, IdOf), Map(h.nodes, IdOf), StringLeq);
    assert |g.nodes| == |Map(g.nodes, IdOf)| && |h.nodes| == |Map(h.nodes, IdOf)|;
    forall i | 0 <= i < |g.nodes| ensures g.nodes[i] == h.nodes[i] {
      assert Map(g.nodes, IdOf)[i] == Map(h.nodes, IdOf)[i];
      assert g.nodes[i] in g.nodes && h.nodes[i] in h.nodes;
      NodeDetermined(inp, g.edges, g.nodes[i], h.nodes[i]);
    }
  }

  lemma FitEach(inp: Input, o: Options, g: Graph)
    requires Projects(inp, o, g)
    ensures forall n :: n in g.nodes ==> NodeFits(inp, g.edges, n)
  {
  }

  function Swapped(nodes: seq<Node>, i: nat, j: nat): seq<Node>
    requires i < |nodes| && j < |nodes|
  {
    nodes[i := nodes[j]][j := nodes[i]]
  }

  lemma SwapPermutes(nodes: seq<Node>, i: nat, j: nat)
    requires i < |nodes| && j < |nodes| && nodes[i].id == nodes[j].id
    ensures multiset(Swapped(nodes, i, j)) == multiset(nodes)
    ensures Sorted(nodes, IdLeq) ==> Sorted(Swapped(nodes, i, j), IdLeq)
  {
    hide StringLeq;
    var t := Swapped(nodes, i, j);
    assert forall k :: 0 <= k < |nodes| ==> t[k].id == nodes[k].id;
    if Sorted(nodes, IdLeq) {
      forall k, l | 0 <= k < l < |t| ensures IdLeq(t[k], t[l]) {
        assert IdLeq(nodes[k], nodes[l]);
      }
    }
  }

  /** The sort by id may leave a file and a package of the same name either way round. */
  lemma ClashAmbiguous(inp: Input, o: Options, g: Graph) returns (h: Graph)
    requires Projects(inp, o, g) && !NoClash(inp, o)
    ensures Projects(inp, o, h) && h != g
  {
    var x := ClashingId(inp, o, g);
    hide *;
    var i := NodeIndex(g.nodes, FileNode, x);
    var j := NodeIndex(g.nodes, ExternalNode, x);
    h := SwapProjects(inp, o, g, i, j);
  }

  lemma ClashingId(inp: Input, o: Options, g: Graph) returns (x: string)
    requires Projects(inp, o, g) && !NoClash(inp, o)
    ensures HasNode(g.nodes, FileNode, x) && HasNode(g.nodes, ExternalNode, x)
  {
    ClashIs(inp, o, g);
    EndpointsAreNodes(inp, o, g);
    KeptNodes(g.nodes);
    hide Projects, Kept, NoClash, ExternalIds, HasNode, ClashesAreSinks;
    x :| x in Kept(g.nodes) && x in ExternalIds(g.edges);
  }

  lemma SwapProjects(inp: Input, o: Options, g: Graph, i: nat, j: nat) returns (h: Graph)
    requires Projects(inp, o, g) && i < |g.nodes| && j < |g.nodes|
    requires g.nodes[i].id == g.nodes[j].id && g.nodes[i].kind == FileNode && g.nodes[j].kind == ExternalNode
    ensures Projects(inp, o, h) && h != g
  {
    hide Full, Pruned, Kept, NodesFit, IsCut, EdgeLeq, IdLeq, Selected, Sorted;
    h := g.(nodes := Swapped(g.nodes, i, j));
    SwapPermutes(g.nodes, i, j);
    NodesFitPermute(inp, g.edges, g.edges, g.nodes, h.nodes);
    assert h.nodes[i] != g.nodes[i];
  }

  lemma NodeIndex(nodes: seq<Node>, kind: NodeKind, x: string) returns (i: nat)
    requires HasNode(nodes, kind, x)
    ensures i < |nodes| && nodes[i].kind == kind && nodes[i].id == x
  {
    var n :| n in nodes && n.kind == kind && n.id == x;
    i :| 0 <= i < |nodes| && nodes[i] == n;
  }

  /** The input has one result, whatever the maps' order and the sorts' choices, exactly when no name clashes. */
  lemma ProjectionUnique(inp: Input, o: Options, g: Graph)
    requires DistinctPaths(inp.files) && Projects(inp, o, g)
    ensures (forall h :: Projects(inp, o, h) ==> h == g) <==> NoClash(inp, o)
  {
    hide NoClash, Projects;
    if NoClash(inp, o) {
      forall h | Projects(inp, o, h) ensures h == g {
        UnclashedUnique(inp, o, g, h);
      }
    } else {
      var h := ClashAmbiguous(inp, o, g);
    }
  }

  // ---- an input that clashes ----

  /** A directory may be called ext:x, and then a file in it may be called like a package. */
  const CLASHING := Input([FileRow("a", "", "", ""), FileRow("ext:x", "", "", "")], [], [], [("a", "x")])

  const ALL := Options("", "", "", 0)

  lemma ClashingImports()
    ensures Imports(CLASHING.imports, "a", "ext:x")
  {
    assert IndexByte("x", '/') == -1;
    assert Split("x", '/') == ["x"];
    assert '/' !in "x" && '.' !in "x";
    assert ExternalPackage("x") == Some("x");
    assert ("a", "x") in CLASHING.imports;
  }

  /** The in-degrees of the two nodes called ext:x count the same edge twice. */
  lemma ClashingDegrees(g: Graph)
    requires Projects(CLASHING, ALL, g)
    ensures SumIn(g.nodes) != NonTest(g.edges)
    ensures exists h :: Projects(CLASHING, ALL, h) && h != g
  {
    ClashingImports();
    DegreesBalance(CLASHING, ALL, g);
    CutOfIs(CLASHING, ALL);
    ClashingCut();
    hide Projects, SumIn, NonTest, Imports, CutOf;
    assert !NoClash(CLASHING, ALL);
    var h := ClashAmbiguous(CLASHING, ALL, g);
  }

  lemma ClashingCut()
    ensures CutOf(CLASHING, ALL) == {"a", "ext:x"}
  {
    var sel := Selected(CLASHING.files, ALL);
    assert CLASHING.files[0] in CLASHING.files && CLASHING.files[1] in CLASHING.files;
    assert sel == {"a", "ext:x"};
    CutOfIs(CLASHING, ALL);
    hide CutOf, Selected, Full;
    assert |sel| == 2;
    SubsetEqual(CutOf(CLASHING, ALL), sel);
  }
}
