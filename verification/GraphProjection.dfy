/** `show graph`: the file dependency graph, filtered, capped by in-degree, pruned and recounted. */
module GraphProjection {
  import opened Base
  import opened Sorting
  import opened Text
  import opened StringOrder
  import opened Lists
  import opened ExternalPackages

  const DEFAULT_CAP := 200

  datatype FileRow = FileRow(path: string, role: string, language: string, pkg: string)

  /** In the order of their names: external, import, test. */
  datatype EdgeKind = ExternalEdge | ImportEdge | TestEdge

  datatype Edge = Edge(from: string, to: string, kind: EdgeKind)

  datatype NodeKind = FileNode | ExternalNode

  datatype Node = Node(id: string, kind: NodeKind, role: string, language: string, pkg: string,
                       inDegree: nat, outDegree: nat, hasTests: bool)

  datatype Options = Options(within: string, role: string, lang: string, max: int)

  /** The rows the store's readers return: files, import edges, test links and raw imports, by path. */
  datatype Input = Input(files: seq<FileRow>, deps: seq<(string, string)>, tests: seq<(string, string)>, imports: seq<(string, string)>)

  datatype Graph = Graph(nodes: seq<Node>, edges: seq<Edge>, total: nat, capped: bool)

  // ---- what is selected ----

  predicate Keep(f: FileRow, o: Options) {
    && (o.within == "" || Contains(f.path, o.within))
    && (o.role == "" || f.role == o.role)
    && (o.lang == "" || f.language == o.lang)
  }

  /** files.path is UNIQUE. */
  ghost predicate DistinctPaths(files: seq<FileRow>) {
    forall i, j :: 0 <= i < j < |files| ==> files[i].path != files[j].path
  }

  function Selected(files: seq<FileRow>, o: Options): set<string> {
    set f | f in files && Keep(f, o) :: f.path
  }

  function Induced(pairs: seq<(string, string)>, kind: EdgeKind, sel: set<string>): seq<Edge> {
    if pairs == [] then []
    else
      var p := pairs[|pairs| - 1];
      Induced(pairs[..|pairs| - 1], kind, sel) + if p.0 in sel && p.1 in sel then [Edge(p.0, p.1, kind)] else []
  }

  function ExtId(pkg: string): string {
    "ext:" + pkg
  }

  /** One edge per file and package. */
  function External(imports: seq<(string, string)>, sel: set<string>): seq<Edge> {
    if imports == [] then []
    else
      var rest, p := External(imports[..|imports| - 1], sel), imports[|imports| - 1];
      match ExternalPackage(p.1)
      case Some(pkg) =>
        var e := Edge(p.0, ExtId(pkg), ExternalEdge);
        if p.0 in sel && e !in rest then rest + [e] else rest
      case None => rest
  }

  /** The induced subgraph before the cap. */
  function Full(inp: Input, sel: set<string>): seq<Edge> {
    Induced(inp.deps, ImportEdge, sel) + Induced(inp.tests, TestEdge, sel) + External(inp.imports, sel)
  }

  lemma {:induction false} InducedMembers(pairs: seq<(string, string)>, kind: EdgeKind, sel: set<string>, e: Edge)
    ensures e in Induced(pairs, kind, sel) <==> e.kind == kind && (e.from, e.to) in pairs && e.from in sel && e.to in sel
  {
    if pairs != [] {
      InducedMembers(pairs[..|pairs| - 1], kind, sel, e);
      assert pairs == pairs[..|pairs| - 1] + [pairs[|pairs| - 1]];
    }
  }

  ghost predicate Imports(imports: seq<(string, string)>, from: string, to: string) {
    exists spec :: (from, spec) in imports && ExternalPackage(spec).Some? && to == ExtId(ExternalPackage(spec).value)
  }

  lemma {:induction false} ExternalMembers(imports: seq<(string, string)>, sel: set<string>, e: Edge)
    ensures e in External(imports, sel) <==> e.kind == ExternalEdge && e.from in sel && Imports(imports, e.from, e.to)
  {
    hide ExternalPackage;
    if imports != [] {
      var init, p := imports[..|imports| - 1], imports[|imports| - 1];
      ExternalMembers(init, sel, e);
      assert imports == init + [p];
      if Imports(init, e.from, e.to) {
        var spec :| (e.from, spec) in init && ExternalPackage(spec).Some? && e.to == ExtId(ExternalPackage(spec).value);
        assert (e.from, spec) in imports;
      }
      if Imports(imports, e.from, e.to) && !Imports(init, e.from, e.to) {
        var spec :| (e.from, spec) in imports && ExternalPackage(spec).Some? && e.to == ExtId(ExternalPackage(spec).value);
        assert (e.from, spec) == p;
      }
      if p.0 == e.from && ExternalPackage(p.1).Some? && ExtId(ExternalPackage(p.1).value) == e.to {
        assert (e.from, p.1) in imports;
      }
    }
  }

  /** Exactly the import edges and test links between selected files, and one edge from a selected file to each
      package it imports. */
  lemma FullMembers(inp: Input, sel: set<string>, e: Edge)
    ensures e in Full(inp, sel) <==>
      && e.from in sel
      && match e.kind
         case ImportEdge => (e.from, e.to) in inp.deps && e.to in sel
         case TestEdge => (e.from, e.to) in inp.tests && e.to in sel
         case ExternalEdge => Imports(inp.imports, e.from, e.to)
  {
    InducedMembers(inp.deps, ImportEdge, sel, e);
    InducedMembers(inp.tests, TestEdge, sel, e);
    ExternalMembers(inp.imports, sel, e);
    hide Imports;
  }

  // ---- degrees ----

  function FromOf(e: Edge): string {
    e.from
  }

  function ToOf(e: Edge): string {
    e.to
  }

  /** How many edges other than test links have the id at this end. */
  function Count(edges: seq<Edge>, end: Edge -> string, id: string): nat {
    if edges == [] then 0
    else
      var e := edges[|edges| - 1];
      Count(edges[..|edges| - 1], end, id) + if e.kind != TestEdge && end(e) == id then 1 else 0
  }

  function In(edges: seq<Edge>, id: string): nat {
    Count(edges, ToOf, id)
  }

  function Out(edges: seq<Edge>, id: string): nat {
    Count(edges, FromOf, id)
  }

  function At(m: map<string, nat>, id: string): nat {
    if id in m then m[id] else 0
  }

  lemma DegreesSnoc(edges: seq<Edge>, i: nat, id: string)
    requires i < |edges|
    ensures In(edges[..i + 1], id) == In(edges[..i], id) + if edges[i].kind != TestEdge && edges[i].to == id then 1 else 0
    ensures Out(edges[..i + 1], id) == Out(edges[..i], id) + if edges[i].kind != TestEdge && edges[i].from == id then 1 else 0
  {
    assert edges[..i + 1][..i] == edges[..i];
  }

  /** A test link is not an import and does not count. */
  method Degrees(edges: seq<Edge>) returns (inDeg: map<string, nat>, outDeg: map<string, nat>)
    ensures forall id :: At(inDeg, id) == In(edges, id) && At(outDeg, id) == Out(edges, id)
  {
    inDeg, outDeg := map[], map[];
    assert forall id :: In(edges[..0], id) == 0 && Out(edges[..0], id) == 0;
    hide In, Out;
    var i := 0;
    while i < |edges|
      invariant 0 <= i <= |edges|
      invariant forall id :: At(inDeg, id) == In(edges[..i], id) && At(outDeg, id) == Out(edges[..i], id)
    {
      forall id {
        DegreesSnoc(edges, i, id);
      }
      var e := edges[i];
      i := i + 1;
      if e.kind == TestEdge {
        continue;
      }
      outDeg := outDeg[e.from := At(outDeg, e.from) + 1];
      inDeg := inDeg[e.to := At(inDeg, e.to) + 1];
    }
    assert edges[..i] == edges;
  }

  lemma {:induction false} CountConcat(a: seq<Edge>, b: seq<Edge>, end: Edge -> string, id: string)
    ensures Count(a + b, end, id) == Count(a, end, id) + Count(b, end, id)
  {
    if b == [] {
      assert a + b == a;
    } else {
      CountConcat(a, b[..|b| - 1], end, id);
      assert (a + b)[..|a + b| - 1] == a + b[..|b| - 1];
    }
  }

  lemma CountRemove(b: seq<Edge>, i: nat, end: Edge -> string, id: string)
    requires i < |b|
    ensures Count(b, end, id) == Count(b[..i] + b[i + 1..], end, id) + if b[i].kind != TestEdge && end(b[i]) == id then 1 else 0
  {
    assert b == b[..i] + [b[i]] + b[i + 1..];
    assert [b[i]][..0] == [];
    CountConcat(b[..i] + [b[i]], b[i + 1..], end, id);
    CountConcat(b[..i], [b[i]], end, id);
    CountConcat(b[..i], b[i + 1..], end, id);
  }

  /** Counting does not depend on the order of the edges. */
  lemma {:induction false} CountPermute(a: seq<Edge>, b: seq<Edge>, end: Edge -> string, id: string)
    requires multiset(a) == multiset(b)
    ensures Count(a, end, id) == Count(b, end, id)
    decreases |a|
  {
    PermutationMembers(a, b);
    if a != [] {
      var n, e := |a| - 1, a[|a| - 1];
      assert e in b;
      var i :| 0 <= i < |b| && b[i] == e;
      RemoveLast(a);
      RemoveAt(b, i);
      CountPermute(a[..n], b[..i] + b[i + 1..], end, id);
      CountRemove(b, i, end, id);
    }
  }

  // ---- the cap ----

  predicate StringLess(a: string, b: string) {
    a != b && StringLeq(a, b)
  }

  /** (in-degree desc, path asc) over the full filtered subgraph. */
  ghost predicate Outranks(full: seq<Edge>, f: string, g: string) {
    In(full, f) > In(full, g) || (In(full, f) == In(full, g) && StringLess(f, g))
  }

  function CapOf(o: Options): nat {
    if o.max <= 0 then DEFAULT_CAP else o.max
  }

  /** The first cap files of the ranking. */
  ghost predicate IsCut(full: seq<Edge>, sel: set<string>, cap: nat, kept: set<string>) {
    && kept <= sel
    && |kept| == (if |sel| > cap then cap else |sel|)
    && forall f, g :: f in kept && g in sel && g !in kept ==> Outranks(full, f, g)
  }

  lemma SubsetEqual<T>(a: set<T>, b: set<T>)
    requires a <= b && |a| == |b|
    ensures a == b
  {
    assert b == a + (b - a);
    assert |b| == |a| + |b - a|;
  }

  lemma SameSizeDiffers<T>(a: set<T>, b: set<T>)
    requires |a| == |b| && a != b
    ensures exists x :: x in a && x !in b
  {
    if a <= b {
      SubsetEqual(a, b);
    }
  }

  lemma OutranksAsymmetric(full: seq<Edge>, f: string, g: string)
    ensures !(Outranks(full, f, g) && Outranks(full, g, f))
  {
    StringLeqTotal(f, g);
  }

  /** The ranking is total, so the cut does not depend on the order the files came in. */
  lemma CutUnique(full: seq<Edge>, sel: set<string>, cap: nat, a: set<string>, b: set<string>)
    requires IsCut(full, sel, cap, a) && IsCut(full, sel, cap, b)
    ensures a == b
  {
    hide Outranks;
    if a != b {
      SameSizeDiffers(a, b);
      SameSizeDiffers(b, a);
      var f :| f in a && f !in b;
      var g :| g in b && g !in a;
      OutranksAsymmetric(full, f, g);
    }
  }

  predicate Visible(e: Edge, kept: set<string>) {
    e.from in kept && (e.kind == ExternalEdge || e.to in kept)
  }

  function Pruned(edges: seq<Edge>, kept: set<string>): seq<Edge> {
    if edges == [] then []
    else
      Pruned(edges[..|edges| - 1], kept) + if Visible(edges[|edges| - 1], kept) then [edges[|edges| - 1]] else []
  }

  lemma {:induction false} PrunedMembers(edges: seq<Edge>, kept: set<string>, e: Edge)
    ensures e in Pruned(edges, kept) <==> e in edges && Visible(e, kept)
  {
    if edges != [] {
      PrunedMembers(edges[..|edges| - 1], kept, e);
      assert edges == edges[..|edges| - 1] + [edges[|edges| - 1]];
    }
  }

  function ExternalIds(edges: seq<Edge>): set<string> {
    set e | e in edges && e.kind == ExternalEdge :: e.to
  }

  /** pruned := edges[:0] and append: the filter writes into the array it reads. */
  method Prune(edges: array<Edge>, survivors: set<string>) returns (n: nat, keptExt: set<string>)
    modifies edges
    ensures n <= edges.Length && edges[..n] == Pruned(old(edges[..]), survivors)
    ensures keptExt == ExternalIds(edges[..n])
  {
    ghost var was := edges[..];
    n, keptExt := 0, {};
    var i := 0;
    while i < edges.Length
      invariant 0 <= n <= i <= edges.Length
      invariant edges[..n] == Pruned(was[..i], survivors)
      invariant forall k :: i <= k < edges.Length ==> edges[k] == was[k]
      invariant keptExt == ExternalIds(edges[..n])
    {
      var e := edges[i];
      assert was[..i + 1][..i] == was[..i];
      ghost var before := edges[..n];
      i := i + 1;
      if e.kind == ExternalEdge {
        if e.from !in survivors {
          continue;
        }
        keptExt := keptExt + {e.to};
      } else {
        if e.from !in survivors {
          continue;
        }
        if e.to !in survivors {
          continue;
        }
      }
      edges[n] := e;
      n := n + 1;
      assert edges[..n] == before + [e];
    }
    assert was[..i] == was;
  }

  // ---- the result ----

  predicate RankLeq(a: Node, b: Node) {
    a.inDegree > b.inDegree || (a.inDegree == b.inDegree && StringLeq(a.id, b.id))
  }

  predicate IdLeq(a: Node, b: Node) {
    StringLeq(a.id, b.id)
  }

  function KindRank(k: EdgeKind): nat {
    match k
    case ExternalEdge => 0
    case ImportEdge => 1
    case TestEdge => 2
  }

  predicate EdgeLeq(a: Edge, b: Edge) {
    if a.from != b.from then StringLeq(a.from, b.from)
    else if a.to != b.to then StringLeq(a.to, b.to)
    else KindRank(a.kind) <= KindRank(b.kind)
  }

  lemma RankOrder()
    ensures TotalPreorder(RankLeq)
  {
    forall a, b ensures RankLeq(a, b) || RankLeq(b, a) {
      StringLeqTotal(a.id, b.id);
    }
    forall a, b, c | RankLeq(a, b) && RankLeq(b, c) ensures RankLeq(a, c) {
      if a.inDegree == b.inDegree == c.inDegree {
        StringLeqTransitive(a.id, b.id, c.id);
      }
    }
  }

  lemma IdOrder()
    ensures TotalPreorder(IdLeq)
  {
    forall a, b ensures IdLeq(a, b) || IdLeq(b, a) {
      StringLeqTotal(a.id, b.id);
    }
    forall a, b, c | IdLeq(a, b) && IdLeq(b, c) ensures IdLeq(a, c) {
      StringLeqTransitive(a.id, b.id, c.id);
    }
  }

  lemma EdgeOrder()
    ensures TotalOrder(EdgeLeq)
  {
    forall a, b ensures EdgeLeq(a, b) || EdgeLeq(b, a) {
      StringLeqTotal(a.from, b.from);
      StringLeqTotal(a.to, b.to);
    }
    forall a, b | EdgeLeq(a, b) && EdgeLeq(b, a) ensures a == b {
      StringLeqTotal(a.from, b.from);
      StringLeqTotal(a.to, b.to);
    }
    forall a, b, c | EdgeLeq(a, b) && EdgeLeq(b, c) ensures EdgeLeq(a, c) {
      EdgeTransitive(a, b, c);
    }
  }

  lemma EdgeTransitive(a: Edge, b: Edge, c: Edge)
    requires EdgeLeq(a, b) && EdgeLeq(b, c)
    ensures EdgeLeq(a, c)
  {
    StringLeqTotal(a.from, b.from);
    StringLeqTotal(b.from, c.from);
    StringLeqTotal(a.to, b.to);
    StringLeqTotal(b.to, c.to);
    if StringLeq(a.from, b.from) && StringLeq(b.from, c.from) {
      StringLeqTransitive(a.from, b.from, c.from);
    }
    if StringLeq(a.to, b.to) && StringLeq(b.to, c.to) {
      StringLeqTransitive(a.to, b.to, c.to);
    }
    hide StringLeq;
  }

  /** sort.Slice: some arrangement in order, not a stable one. */
  method SortSlice<T(!new)>(s: seq<T>, leq: (T, T) -> bool) returns (t: seq<T>)
    requires TotalPreorder(leq)
    ensures multiset(t) == multiset(s) && Sorted(t, leq)
  {
    t := Sort(s, leq);
    SortPermutes(s, leq);
    SortSorted(s, leq);
  }

  /** Which files are in the result. */
  function Kept(nodes: seq<Node>): set<string> {
    set n | n in nodes && n.kind == FileNode :: n.id
  }

  ghost predicate DescribesFile(inp: Input, n: Node) {
    && n.kind == FileNode
    && (exists f :: f in inp.files && f.path == n.id && f.role == n.role && f.language == n.language && f.pkg == n.pkg)
    && (n.hasTests <==> exists l :: l in inp.tests && l.0 == n.id)
  }

  ghost predicate BareExternal(n: Node) {
    n.kind == ExternalNode && n.role == "" && n.language == "" && n.pkg == "" && !n.hasTests
  }

  function IdOf(n: Node): string {
    n.id
  }

  function KeyOf(n: Node): (string, NodeKind) {
    (n.id, n.kind)
  }

  /** No two nodes of one kind share an id. */
  ghost predicate OnceEach(nodes: seq<Node>) {
    Distinct(Map(nodes, KeyOf))
  }

  /** A file node carries its file's attributes, an external node is the end of a returned edge, and either
      counts exactly the returned import and external edges. */
  ghost predicate NodeFits(inp: Input, edges: seq<Edge>, n: Node) {
    && (if n.kind == FileNode then DescribesFile(inp, n) else BareExternal(n) && n.id in ExternalIds(edges))
    && n.inDegree == In(edges, n.id) && n.outDegree == Out(edges, n.id)
  }

  ghost predicate NodesFit(inp: Input, edges: seq<Edge>, nodes: seq<Node>) {
    && OnceEach(nodes)
    && (forall n :: n in nodes ==> NodeFits(inp, edges, n))
    && (forall x :: x in ExternalIds(edges) ==> exists n :: n in nodes && n.kind == ExternalNode && n.id == x)
  }

  /** The projection, without saying how it is computed. */
  ghost predicate Projects(inp: Input, o: Options, g: Graph) {
    var sel := Selected(inp.files, o);
    && g.total == |sel| && (g.capped <==> |sel| > CapOf(o))
    && IsCut(Full(inp, sel), sel, CapOf(o), Kept(g.nodes))
    && multiset(g.edges) == multiset(Pruned(Full(inp, sel), Kept(g.nodes))) && Sorted(g.edges, EdgeLeq)
    && NodesFit(inp, g.edges, g.nodes) && Sorted(g.nodes, IdLeq)
  }

  // ---- the computation ----

  method SelectFiles(files: seq<FileRow>, o: Options) returns (selected: map<string, FileRow>)
    ensures selected.Keys == Selected(files, o)
    ensures forall p :: p in selected ==> selected[p] in files && selected[p].path == p
  {
    hide Keep;
    selected := map[];
    var i := 0;
    while i < |files|
      invariant 0 <= i <= |files|
      invariant selected.Keys == Selected(files[..i], o)
      invariant forall p :: p in selected ==> selected[p] in files && selected[p].path == p
    {
      assert files[..i + 1] == files[..i] + [files[i]];
      if Keep(files[i], o) {
        selected := selected[files[i].path := files[i]];
      }
      i := i + 1;
    }
    assert files[..i] == files;
  }

  /** The external edges of the first i imports, their packages, and the pairs seen. */
  ghost predicate Collected(imports: seq<(string, string)>, i: nat, sel: set<string>, exts: seq<Edge>, external: set<string>, seen: set<(string, string)>)
    requires i <= |imports|
  {
    && exts == External(imports[..i], sel) && external == ExternalIds(exts)
    && (forall e :: e in exts ==> e.kind == ExternalEdge)
    && forall from, to :: (from, to) in seen <==> Edge(from, to, ExternalEdge) in exts
  }

  lemma NothingCollected(imports: seq<(string, string)>, sel: set<string>)
    ensures Collected(imports, 0, sel, [], {}, {})
  {
  }

  /** The next import: not selected, relative or seen before, it changes nothing; otherwise it is one edge more. */
  lemma CollectedNext(imports: seq<(string, string)>, i: nat, sel: set<string>, exts: seq<Edge>, external: set<string>, seen: set<(string, string)>)
    requires i < |imports| && Collected(imports, i, sel, exts, external, seen)
    ensures var u, pkg := imports[i], ExternalPackage(imports[i].1);
            if u.0 !in sel || pkg.None? || (u.0, ExtId(pkg.value)) in seen then Collected(imports, i + 1, sel, exts, external, seen)
            else
              var key := (u.0, ExtId(pkg.value));
              Collected(imports, i + 1, sel, exts + [Edge(key.0, key.1, ExternalEdge)], external + {key.1}, seen + {key})
  {
    hide ExternalPackage, ExtId;
    assert imports[..i + 1][..i] == imports[..i];
  }

  lemma CollectedAll(imports: seq<(string, string)>, sel: set<string>, exts: seq<Edge>, external: set<string>, seen: set<(string, string)>)
    requires Collected(imports, |imports|, sel, exts, external, seen)
    ensures exts == External(imports, sel) && external == ExternalIds(exts)
  {
    assert imports[..|imports|] == imports;
  }

  method CollectEdges(inp: Input, selected: set<string>) returns (edges: seq<Edge>, external: set<string>)
    ensures edges == Full(inp, selected) && external == ExternalIds(edges)
  {
    hide ExternalPackage, Collected, ExternalIds, Induced, External, ExtId;
    var deps := CollectPairs(inp.deps, ImportEdge, selected);
    var tests := CollectPairs(inp.tests, TestEdge, selected);
    var exts: seq<Edge> := [];
    var seen: set<(string, string)> := {};
    external := {};
    NothingCollected(inp.imports, selected);
    var i := 0;
    while i < |inp.imports|
      invariant 0 <= i <= |inp.imports| && Collected(inp.imports, i, selected, exts, external, seen)
    {
      CollectedNext(inp.imports, i, selected, exts, external, seen);
      var u := inp.imports[i];
      i := i + 1;
      if u.0 !in selected {
        continue;
      }
      var pkg := ExternalPackage(u.1);
      if pkg.None? {
        continue;  // a relative miss is never an external node
      }
      var key := (u.0, ExtId(pkg.value));
      if key in seen {
        continue;
      }
      seen := seen + {key};
      external := external + {key.1};
      exts := exts + [Edge(key.0, key.1, ExternalEdge)];
    }
    CollectedAll(inp.imports, selected, exts, external, seen);
    edges := deps + tests + exts;
    NoExternalPairs(inp.deps, ImportEdge, selected);
    NoExternalPairs(inp.tests, TestEdge, selected);
    ExternalIdsConcat(deps + tests, exts);
    ExternalIdsConcat(deps, tests);
  }

  lemma NoExternalPairs(pairs: seq<(string, string)>, kind: EdgeKind, sel: set<string>)
    requires kind != ExternalEdge
    ensures ExternalIds(Induced(pairs, kind, sel)) == {}
  {
    forall e | e in Induced(pairs, kind, sel) ensures e.kind != ExternalEdge {
      InducedMembers(pairs, kind, sel, e);
    }
  }

  lemma ExternalIdsConcat(a: seq<Edge>, b: seq<Edge>)
    ensures ExternalIds(a + b) == ExternalIds(a) + ExternalIds(b)
  {
  }

  method CollectPairs(pairs: seq<(string, string)>, kind: EdgeKind, sel: set<string>) returns (edges: seq<Edge>)
    ensures edges == Induced(pairs, kind, sel)
  {
    edges := [];
    var i := 0;
    while i < |pairs|
      invariant 0 <= i <= |pairs|
      invariant edges == Induced(pairs[..i], kind, sel)
    {
      assert pairs[..i + 1][..i] == pairs[..i];
      if pairs[i].0 in sel && pairs[i].1 in sel {
        edges := edges + [Edge(pairs[i].0, pairs[i].1, kind)];
      }
      i := i + 1;
    }
    assert pairs[..i] == pairs;
  }

  /** Unsorted file nodes: one per selected path, counted over the full filtered subgraph. */
  ghost predicate FileNodes(inp: Input, full: seq<Edge>, paths: set<string>, nodes: seq<Node>) {
    && Distinct(Map(nodes, IdOf))
    && (set n | n in nodes :: n.id) == paths
    && forall n :: n in nodes ==> DescribesFile(inp, n) && n.inDegree == In(full, n.id)
  }

  function FileNodeOf(f: FileRow, inDegree: nat, outDegree: nat, hasTests: bool): Node {
    Node(f.path, FileNode, f.role, f.language, f.pkg, inDegree, outDegree, hasTests)
  }

  lemma FileNodeDescribes(inp: Input, f: FileRow, inDegree: nat, outDegree: nat, hasTests: bool)
    requires f in inp.files && (hasTests <==> f.path in set l | l in inp.tests :: l.0)
    ensures var n := FileNodeOf(f, inDegree, outDegree, hasTests);
            DescribesFile(inp, n) && n.id == f.path && n.inDegree == inDegree
  {
  }

  lemma NoFileNodes(inp: Input, full: seq<Edge>)
    ensures FileNodes(inp, full, {}, [])
  {
  }

  method BuildFileNodes(inp: Input, selected: map<string, FileRow>, full: seq<Edge>) returns (nodes: seq<Node>)
    requires forall p :: p in selected ==> selected[p] in inp.files && selected[p].path == p
    ensures FileNodes(inp, full, selected.Keys, nodes)
  {
    hide *;
    var hasTests := set l | l in inp.tests :: l.0;
    nodes := [];
    NoFileNodes(inp, full);
    var inDeg, outDeg := Degrees(full);
    // a Go map is ranged over in no particular order
    var todo := selected.Keys;
    ghost var done: set<string> := {};
    while todo != {}
      invariant todo + done == selected.Keys && todo * done == {}
      invariant FileNodes(inp, full, done, nodes)
      decreases |todo|
    {
      var p :| p in todo;
      var n := FileNodeOf(selected[p], At(inDeg, p), At(outDeg, p), p in hasTests);
      FileNodeDescribes(inp, selected[p], At(inDeg, p), At(outDeg, p), p in hasTests);
      FileNodesSnoc(inp, full, done, nodes, n);
      nodes := nodes + [n];
      todo, done := todo - {p}, done + {p};
    }
  }

  lemma FileNodesSnoc(inp: Input, full: seq<Edge>, paths: set<string>, nodes: seq<Node>, n: Node)
    requires FileNodes(inp, full, paths, nodes) && n.id !in paths && DescribesFile(inp, n) && n.inDegree == In(full, n.id)
    ensures FileNodes(inp, full, paths + {n.id}, nodes + [n])
  {
    hide DescribesFile, In;
    assert Map(nodes + [n], IdOf) == Map(nodes, IdOf) + [n.id];
    assert forall i :: 0 <= i < |nodes| ==> nodes[i] in nodes;
  }

  lemma FileNodesPermute(inp: Input, full: seq<Edge>, paths: set<string>, a: seq<Node>, b: seq<Node>)
    requires FileNodes(inp, full, paths, a) && multiset(a) == multiset(b)
    ensures FileNodes(inp, full, paths, b)
  {
    hide DescribesFile, In;
    PermutationMembers(a, b);
    MapPermutes(a, b, IdOf);
    DistinctPermutes(Map(a, IdOf), Map(b, IdOf));
  }

  lemma FileNodesSize(inp: Input, full: seq<Edge>, paths: set<string>, nodes: seq<Node>)
    requires FileNodes(inp, full, paths, nodes)
    ensures |nodes| == |paths|
  {
    hide DescribesFile, In;
    DistinctSize(Map(nodes, IdOf));
    MapMembers(nodes);
  }

  lemma MapMembers(nodes: seq<Node>)
    ensures (set x | x in Map(nodes, IdOf)) == (set n | n in nodes :: n.id)
  {
    forall n | n in nodes ensures n.id in Map(nodes, IdOf) {
      var i :| 0 <= i < |nodes| && nodes[i] == n;
      assert Map(nodes, IdOf)[i] == n.id;
    }
  }

  lemma RankedBefore(inp: Input, full: seq<Edge>, sel: set<string>, nodes: seq<Node>, i: nat, j: nat)
    requires FileNodes(inp, full, sel, nodes) && Sorted(nodes, RankLeq) && i < j < |nodes|
    ensures Outranks(full, nodes[i].id, nodes[j].id)
  {
    hide In, DescribesFile, StringLeq;
    assert nodes[i] in nodes && nodes[j] in nodes;
    assert RankLeq(nodes[i], nodes[j]);
    assert Map(nodes, IdOf)[i] != Map(nodes, IdOf)[j];
  }

  /** The first cap nodes of the ranking are the cut. */
  lemma RankedCut(inp: Input, full: seq<Edge>, sel: set<string>, nodes: seq<Node>, cap: nat)
    requires FileNodes(inp, full, sel, nodes) && Sorted(nodes, RankLeq) && cap < |nodes|
    ensures FileNodes(inp, full, Kept(nodes[..cap]), nodes[..cap]) && IsCut(full, sel, cap, Kept(nodes[..cap]))
  {
    var first := nodes[..cap];
    hide FileNodes, Outranks, Sorted, Kept;
    FirstNodes(inp, full, sel, nodes, cap);
    FileNodesSize(inp, full, Kept(first), first);
    FileNodesSize(inp, full, sel, nodes);
    forall f, g | f in Kept(first) && g in sel && g !in Kept(first) ensures Outranks(full, f, g) {
      var i := FileNodeAt(inp, full, Kept(first), first, f);
      var j := FileNodeAt(inp, full, sel, nodes, g);
      RankedBefore(inp, full, sel, nodes, i, j);
    }
  }

  lemma FileNodeAt(inp: Input, full: seq<Edge>, sel: set<string>, nodes: seq<Node>, p: string) returns (i: nat)
    requires FileNodes(inp, full, sel, nodes) && p in sel
    ensures i < |nodes| && nodes[i].id == p
  {
    hide In, DescribesFile;
    var n :| n in nodes && n.id == p;
    i :| 0 <= i < |nodes| && nodes[i] == n;
  }

  lemma FirstNodes(inp: Input, full: seq<Edge>, sel: set<string>, nodes: seq<Node>, cap: nat)
    requires FileNodes(inp, full, sel, nodes) && cap <= |nodes|
    ensures FileNodes(inp, full, Kept(nodes[..cap]), nodes[..cap]) && Kept(nodes[..cap]) <= sel
    ensures forall j :: 0 <= j < cap ==> nodes[j].id in Kept(nodes[..cap])
  {
    hide In;
    assert Map(nodes[..cap], IdOf) == Map(nodes, IdOf)[..cap];
    assert forall n :: n in nodes[..cap] ==> n in nodes && n.kind == FileNode;
    forall j | 0 <= j < cap ensures nodes[j].id in Kept(nodes[..cap]) {
      assert nodes[..cap][j] == nodes[j];
      assert nodes[j] in nodes[..cap];
    }
  }

  method Cap(inp: Input, full: seq<Edge>, ghost sel: set<string>, nodes: seq<Node>, cap: nat) returns (kept: seq<Node>, capped: bool)
    requires FileNodes(inp, full, sel, nodes)
    ensures FileNodes(inp, full, Kept(kept), kept) && IsCut(full, sel, cap, Kept(kept))
    ensures capped <==> |sel| > cap
  {
    hide In, DescribesFile, RankLeq, StringLeq;
    FileNodesSize(inp, full, sel, nodes);
    if |nodes| > cap {
      RankOrder();
      var ranked := SortSlice(nodes, RankLeq);
      PermutationMembers(nodes, ranked);
      FileNodesPermute(inp, full, sel, nodes, ranked);
      RankedCut(inp, full, sel, ranked, cap);
      return ranked[..cap], true;
    }
    AllKept(inp, full, sel, nodes);
    kept, capped := nodes, false;
  }

  lemma AllKept(inp: Input, full: seq<Edge>, sel: set<string>, nodes: seq<Node>)
    requires FileNodes(inp, full, sel, nodes)
    ensures Kept(nodes) == sel
  {
  }

  /** Nodes that are right but for their degrees. */
  ghost predicate Named(inp: Input, nodes: seq<Node>, exts: set<string>) {
    && OnceEach(nodes)
    && (forall n :: n in nodes && n.kind == FileNode ==> DescribesFile(inp, n))
    && (forall n :: n in nodes && n.kind == ExternalNode ==> BareExternal(n))
    && (set n | n in nodes && n.kind == ExternalNode :: n.id) == exts
  }

  lemma FilesNamed(inp: Input, full: seq<Edge>, paths: set<string>, nodes: seq<Node>)
    requires FileNodes(inp, full, paths, nodes)
    ensures Named(inp, nodes, {})
  {
    forall i, j | 0 <= i < j < |nodes| ensures KeyOf(nodes[i]) != KeyOf(nodes[j]) {
      assert Map(nodes, IdOf)[i] != Map(nodes, IdOf)[j];
    }
  }

  lemma NamedSnoc(inp: Input, nodes: seq<Node>, exts: set<string>, x: string)
    requires Named(inp, nodes, exts) && x !in exts
    ensures Named(inp, nodes + [Bare(x)], exts + {x}) && Kept(nodes + [Bare(x)]) == Kept(nodes)
  {
    var n := Bare(x);
    assert Map(nodes + [n], KeyOf) == Map(nodes, KeyOf) + [KeyOf(n)];
    forall i | 0 <= i < |nodes| ensures KeyOf(nodes[i]) != KeyOf(n) {
      assert nodes[i] in nodes;
    }
    hide DescribesFile;
  }

  function Bare(id: string): Node {
    Node(id, ExternalNode, "", "", "", 0, 0, false)
  }

  method AppendExternals(inp: Input, files: seq<Node>, external: set<string>, keptExt: set<string>) returns (nodes: seq<Node>)
    requires Named(inp, files, {}) && keptExt <= external
    ensures Named(inp, nodes, keptExt) && Kept(nodes) == Kept(files)
  {
    hide Named, Kept;
    nodes := files;
    var todo := external;
    ghost var done: set<string> := {};
    assert done * keptExt == {};
    while todo != {}
      invariant todo + done == external && todo * done == {}
      invariant Named(inp, nodes, done * keptExt) && Kept(nodes) == Kept(files)
      decreases |todo|
    {
      var x :| x in todo;
      if x in keptExt {
        NamedSnoc(inp, nodes, done * keptExt, x);
        nodes := nodes + [Bare(x)];
        assert (done + {x}) * keptExt == done * keptExt + {x};
      } else {
        assert (done + {x}) * keptExt == done * keptExt;
      }
      todo, done := todo - {x}, done + {x};
    }
    assert external * keptExt == keptExt;
  }

  function Recounted(n: Node, inDeg: map<string, nat>, outDeg: map<string, nat>): Node {
    n.(inDegree := At(inDeg, n.id), outDegree := At(outDeg, n.id))
  }

  /** Overwrites every node's degrees with the counts over the visible edges. */
  method Recount(inp: Input, nodes0: seq<Node>, pruned: seq<Edge>) returns (nodes: seq<Node>)
    requires Named(inp, nodes0, ExternalIds(pruned))
    ensures NodesFit(inp, pruned, nodes) && Kept(nodes) == Kept(nodes0)
  {
    var finalIn, finalOut := Degrees(pruned);
    nodes := nodes0;
    var i := 0;
    while i < |nodes|
      invariant 0 <= i <= |nodes| == |nodes0|
      invariant forall k :: 0 <= k < i ==> nodes[k] == Recounted(nodes0[k], finalIn, finalOut)
      invariant forall k :: i <= k < |nodes| ==> nodes[k] == nodes0[k]
    {
      var n := nodes[i];
      nodes := nodes[i := n.(inDegree := At(finalIn, n.id), outDegree := At(finalOut, n.id))];
      i := i + 1;
    }
    hide *;
    RecountedFit(inp, nodes0, nodes, pruned, finalIn, finalOut);
  }

  lemma RecountedNode(inp: Input, m: Node, pruned: seq<Edge>, finalIn: map<string, nat>, finalOut: map<string, nat>)
    requires forall id :: At(finalIn, id) == In(pruned, id) && At(finalOut, id) == Out(pruned, id)
    requires if m.kind == FileNode then DescribesFile(inp, m) else BareExternal(m) && m.id in ExternalIds(pruned)
    ensures NodeFits(inp, pruned, Recounted(m, finalIn, finalOut))
  {
    hide In, Out, At;
  }

  lemma RecountedFit(inp: Input, nodes0: seq<Node>, nodes: seq<Node>, pruned: seq<Edge>, finalIn: map<string, nat>, finalOut: map<string, nat>)
    requires Named(inp, nodes0, ExternalIds(pruned)) && |nodes| == |nodes0|
    requires forall k :: 0 <= k < |nodes| ==> nodes[k] == Recounted(nodes0[k], finalIn, finalOut)
    requires forall id :: At(finalIn, id) == In(pruned, id) && At(finalOut, id) == Out(pruned, id)
    ensures NodesFit(inp, pruned, nodes) && Kept(nodes) == Kept(nodes0)
  {
    assert Map(nodes, KeyOf) == Map(nodes0, KeyOf);
    hide In, Out, At, DescribesFile, BareExternal, NodeFits;
    SameKeys(nodes0, nodes);
    forall n | n in nodes ensures NodeFits(inp, pruned, n) {
      var k :| 0 <= k < |nodes| && nodes[k] == n;
      assert nodes0[k] in nodes0;
      RecountedNode(inp, nodes0[k], pruned, finalIn, finalOut);
    }
    forall x | x in ExternalIds(pruned) ensures exists n :: n in nodes && n.kind == ExternalNode && n.id == x {
      assert x in (set n | n in nodes :: KeyOf(n).0);
    }
  }

  lemma SameKeys(a: seq<Node>, b: seq<Node>)
    requires Map(a, KeyOf) == Map(b, KeyOf)
    ensures Kept(a) == Kept(b)
    ensures (set n | n in a && n.kind == ExternalNode :: n.id) == (set n | n in b && n.kind == ExternalNode :: n.id)
  {
  }

  lemma PrunedExternals(edges: seq<Edge>, kept: set<string>)
    ensures ExternalIds(Pruned(edges, kept)) <= ExternalIds(edges)
  {
    forall e | e in Pruned(edges, kept) ensures e in edges {
      PrunedMembers(edges, kept, e);
    }
  }

  lemma DegreesAre(edges: seq<Edge>, id: string)
    ensures In(edges, id) == Count(edges, ToOf, id) && Out(edges, id) == Count(edges, FromOf, id)
  {
  }

  lemma NodesFitPermute(inp: Input, edges: seq<Edge>, edges': seq<Edge>, nodes: seq<Node>, nodes': seq<Node>)
    requires NodesFit(inp, edges, nodes) && multiset(edges') == multiset(edges) && multiset(nodes') == multiset(nodes)
    ensures NodesFit(inp, edges', nodes') && Kept(nodes') == Kept(nodes)
  {
    PermutationMembers(nodes', nodes);
    PermutationMembers(edges', edges);
    MapPermutes(nodes', nodes, KeyOf);
    DistinctPermutes(Map(nodes, KeyOf), Map(nodes', KeyOf));
    hide In, Out, DescribesFile, BareExternal;
    assert ExternalIds(edges') == ExternalIds(edges);
    forall n | n in nodes' ensures NodeFits(inp, edges', n) {
      assert NodeFits(inp, edges, n);
      CountPermute(edges', edges, ToOf, n.id);
      CountPermute(edges', edges, FromOf, n.id);
      DegreesAre(edges, n.id);
      DegreesAre(edges', n.id);
    }
  }

  /** The final sorts. */
  method Arrange(inp: Input, o: Options, nodes: seq<Node>, pruned: seq<Edge>, total: nat, capped: bool) returns (g: Graph)
    requires var sel := Selected(inp.files, o);
             && total == |sel| && (capped <==> |sel| > CapOf(o))
             && IsCut(Full(inp, sel), sel, CapOf(o), Kept(nodes)) && pruned == Pruned(Full(inp, sel), Kept(nodes))
    requires NodesFit(inp, pruned, nodes)
    ensures Projects(inp, o, g)
  {
    hide IdLeq, EdgeLeq, Sorted, IsCut, Full, Pruned, NodesFit, Kept, Selected, CapOf;
    IdOrder();
    EdgeOrder();
    var byId := SortSlice(nodes, IdLeq);
    var byEnds := SortSlice(pruned, EdgeLeq);
    NodesFitPermute(inp, pruned, byEnds, nodes, byId);
    g := Graph(byId, byEnds, total, capped);
  }

  method ShowGraph(inp: Input, o: Options) returns (g: Graph)
    ensures Projects(inp, o, g)
  {
    hide *;
    var selected := SelectFiles(inp.files, o);
    ghost var sel := Selected(inp.files, o);
    var edges, external := CollectEdges(inp, selected.Keys);
    var fileNodes := BuildFileNodes(inp, selected, edges);
    var total := |fileNodes|;
    FileNodesSize(inp, edges, sel, fileNodes);
    var kept, capped := Cap(inp, edges, sel, fileNodes, CapOf(o));
    FilesNamed(inp, edges, Kept(kept), kept);
    var slice := new Edge[|edges|](i requires 0 <= i < |edges| => edges[i]);
    assert slice[..] == edges;
    var n, keptExt := Prune(slice, Kept(kept));
    var pruned := slice[..n];
    PrunedExternals(edges, Kept(kept));
    var named := AppendExternals(inp, kept, external, keptExt);
    var nodes := Recount(inp, named, pruned);
    g := Arrange(inp, o, nodes, pruned, total, capped);
  }

  // ---- what the projection promises ----

  /** Every returned edge is one of the graph's, between returned nodes, and none such is missing. */
  lemma EdgesExactly(inp: Input, o: Options, g: Graph, e: Edge)
    requires Projects(inp, o, g)
    ensures e in g.edges <==>
      && e.from in Kept(g.nodes)
      && match e.kind
         case ImportEdge => (e.from, e.to) in inp.deps && e.to in Kept(g.nodes)
         case TestEdge => (e.from, e.to) in inp.tests && e.to in Kept(g.nodes)
         case ExternalEdge => Imports(inp.imports, e.from, e.to)
  {
    var sel := Selected(inp.files, o);
    PermutationMembers(g.edges, Pruned(Full(inp, sel), Kept(g.nodes)));
    PrunedMembers(Full(inp, sel), Kept(g.nodes), e);
    FullMembers(inp, sel, e);
    hide Full, Pruned, Imports, NodesFit, Kept, Selected;
  }

  ghost predicate HasNode(nodes: seq<Node>, kind: NodeKind, id: string) {
    exists n :: n in nodes && n.kind == kind && n.id == id
  }

  ghost predicate Connects(nodes: seq<Node>, e: Edge) {
    HasNode(nodes, FileNode, e.from) && HasNode(nodes, if e.kind == ExternalEdge then ExternalNode else FileNode, e.to)
  }

  /** An external package is a node exactly when a returned edge reaches it; both ends of every edge are nodes. */
  lemma EndpointsAreNodes(inp: Input, o: Options, g: Graph)
    requires Projects(inp, o, g)
    ensures forall x :: HasNode(g.nodes, ExternalNode, x) <==> x in ExternalIds(g.edges)
    ensures forall e :: e in g.edges ==> Connects(g.nodes, e)
  {
    forall x ensures HasNode(g.nodes, ExternalNode, x) <==> x in ExternalIds(g.edges) {
      if n :| n in g.nodes && n.kind == ExternalNode && n.id == x {
        assert NodeFits(inp, g.edges, n);
      }
    }
    hide In, Out, Full, Imports, DescribesFile;
    forall e | e in g.edges ensures Connects(g.nodes, e) {
      EdgesExactly(inp, o, g, e);
      if e.kind == ExternalEdge {
        assert e.to in ExternalIds(g.edges);
        assert HasNode(g.nodes, ExternalNode, e.to);
      }
    }
  }
}
