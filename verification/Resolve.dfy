/** Best-effort import resolution and test links. */
module Resolve {
  import opened Base
  import opened Lists
  import opened Text
  import opened SlashPath

  datatype FileMeta = FileMeta(id: Id, path: Path, role: string)

  datatype ImportRow = ImportRow(fileId: Id, specifier: string)

  const RESOLVE_EXTENSIONS := [".ts", ".tsx", ".js", ".jsx", ".mjs", ".cjs", ".py"]
  const IMPL_EXTENSIONS := [".ts", ".tsx", ".js", ".jsx", ".mjs", ".cjs"]

  // ---- the candidates, in the order they are tried ----

  function Candidates(importer: Path, specifier: string): seq<Path> {
    var target := Clean(JoinPath(Dir(importer), specifier));
    [target]
    + seq(|RESOLVE_EXTENSIONS|, i requires 0 <= i < |RESOLVE_EXTENSIONS| => target + RESOLVE_EXTENSIONS[i])
    + seq(|RESOLVE_EXTENSIONS|, i requires 0 <= i < |RESOLVE_EXTENSIONS| => JoinPath(target, "index" + RESOLVE_EXTENSIONS[i]))
  }

  /** The first candidate that is indexed. */
  function FirstIn(cands: seq<Path>, paths: set<Path>): (r: Option<Path>)
    ensures r.Some? ==> r.value in cands && r.value in paths
  {
    if cands == [] then None
    else if cands[0] in paths then Some(cands[0])
    else FirstIn(cands[1..], paths)
  }

  function ResolvePath(importer: Path, specifier: string, paths: set<Path>): Option<Path> {
    FirstIn(Candidates(importer, specifier), paths)
  }

  function IndexOf(s: string, sub: string): int {
    if HasPrefix(s, sub) then 0
    else if s == "" then -1
    else var r := IndexOf(s[1..], sub); if r < 0 then -1 else r + 1
  }

  function MarkerStems(base: string, marker: string): seq<string> {
    var i := IndexOf(base, marker);
    if 0 <= i <= |base| then
      seq(|IMPL_EXTENSIONS|, k requires 0 <= k < |IMPL_EXTENSIONS| => base[..i] + IMPL_EXTENSIONS[k])
    else []
  }

  function Stems(base: string): seq<string> {
    if HasSuffix(base, "_test.go") then [TrimSuffix(base, "_test.go") + ".go"]
    else if HasPrefix(base, "test_") && HasSuffix(base, ".py") then [TrimPrefix(base, "test_")]
    else if HasSuffix(base, "_test.py") then [TrimSuffix(base, "_test.py") + ".py"]
    else MarkerStems(base, ".test.") + MarkerStems(base, ".spec.")
  }

  function ImplCandidates(test: Path): seq<Path> {
    var stems := Stems(LastElement(test));
    seq(|stems|, i requires 0 <= i < |stems| => JoinPath(Dir(test), stems[i]))
  }

  predicate Relative(specifier: string) {
    HasPrefix(specifier, ".")
  }

  // ---- the two indexes over the file rows ----

  function PathIndex(files: seq<FileMeta>): map<Path, Id> {
    if files == [] then map[] else PathIndex(files[..|files| - 1])[files[|files| - 1].path := files[|files| - 1].id]
  }

  function IdIndex(files: seq<FileMeta>): map<Id, Path> {
    if files == [] then map[] else IdIndex(files[..|files| - 1])[files[|files| - 1].id := files[|files| - 1].path]
  }

  function PathOfId(pathOf: map<Id, Path>, id: Id): Path {
    if id in pathOf then pathOf[id] else ""
  }

  /** The edge an import row stands for: a relative specifier that resolves to another file. */
  predicate Yields(byPath: map<Path, Id>, pathOf: map<Id, Path>, imp: ImportRow, e: (Id, Id)) {
    && Relative(imp.specifier)
    && var r := ResolvePath(PathOfId(pathOf, imp.fileId), imp.specifier, byPath.Keys);
       r.Some? && byPath[r.value] != imp.fileId && e == (imp.fileId, byPath[r.value])
  }

  /** The link a test file stands for: the first implementation candidate that is another file. */
  predicate Links(byPath: map<Path, Id>, test: FileMeta, link: (Id, Id)) {
    && test.role == "test"
    && var r := FirstOther(ImplCandidates(test.path), byPath, test.id);
       r.Some? && link == (r.value, test.id)
  }

  function FirstOther(cands: seq<Path>, byPath: map<Path, Id>, self: Id): (r: Option<Id>)
    ensures r.Some? ==> r.value != self && r.value in byPath.Values
  {
    if cands == [] then None
    else if cands[0] in byPath && byPath[cands[0]] != self then Some(byPath[cands[0]])
    else FirstOther(cands[1..], byPath, self)
  }

  method BuildIndexes(files: seq<FileMeta>) returns (byPath: map<Path, Id>, pathOf: map<Id, Path>)
    ensures byPath == PathIndex(files) && pathOf == IdIndex(files)
  {
    byPath, pathOf := map[], map[];
    var i := 0;
    while i < |files|
      invariant 0 <= i <= |files|
      invariant byPath == PathIndex(files[..i]) && pathOf == IdIndex(files[..i])
    {
      assert files[..i + 1][..i] == files[..i];
      byPath := byPath[files[i].path := files[i].id];
      pathOf := pathOf[files[i].id := files[i].path];
      i := i + 1;
    }
    assert files[..i] == files;
  }

  /** The loop over the candidates. */
  method ResolveRelative(importer: Path, specifier: string, byPath: map<Path, Id>) returns (to: Option<Id>)
    ensures var r := ResolvePath(importer, specifier, byPath.Keys);
            to == if r.Some? then Some(byPath[r.value]) else None
  {
    var cands := Candidates(importer, specifier);
    var i := 0;
    while i < |cands|
      invariant 0 <= i <= |cands|
      invariant FirstIn(cands, byPath.Keys) == FirstIn(cands[i..], byPath.Keys)
    {
      if cands[i] in byPath {
        return Some(byPath[cands[i]]);
      }
      i := i + 1;
    }
    to := None;
  }

  ghost predicate SomeYields(byPath: map<Path, Id>, pathOf: map<Id, Path>, imports: seq<ImportRow>, e: (Id, Id)) {
    exists i :: 0 <= i < |imports| && Yields(byPath, pathOf, imports[i], e)
  }

  ghost predicate SomeLinks(byPath: map<Path, Id>, files: seq<FileMeta>, link: (Id, Id)) {
    exists i :: 0 <= i < |files| && Links(byPath, files[i], link)
  }

  lemma YieldsSnoc(byPath: map<Path, Id>, pathOf: map<Id, Path>, imports: seq<ImportRow>, i: int, e: (Id, Id))
    requires 0 <= i < |imports|
    ensures SomeYields(byPath, pathOf, imports[..i + 1], e) <==>
            SomeYields(byPath, pathOf, imports[..i], e) || Yields(byPath, pathOf, imports[i], e)
  {
    hide Yields;
    var p, q := imports[..i], imports[..i + 1];
    assert q[i] == imports[i];
    assert forall j :: 0 <= j < i ==> q[j] == p[j];
  }

  lemma LinksSnoc(byPath: map<Path, Id>, files: seq<FileMeta>, i: int, link: (Id, Id))
    requires 0 <= i < |files|
    ensures SomeLinks(byPath, files[..i + 1], link) <==>
            SomeLinks(byPath, files[..i], link) || Links(byPath, files[i], link)
  {
    hide Links;
    var p, q := files[..i], files[..i + 1];
    assert q[i] == files[i];
    assert forall j :: 0 <= j < i ==> q[j] == p[j];
  }

  /** The edge of one import row, if it has one. */
  method EdgeOf(byPath: map<Path, Id>, pathOf: map<Id, Path>, imp: ImportRow) returns (key: Option<(Id, Id)>)
    ensures forall e :: Yields(byPath, pathOf, imp, e) <==> key == Some(e)
  {
    hide ResolvePath;
    if !Relative(imp.specifier) {
      return None;
    }
    var to := ResolveRelative(PathOfId(pathOf, imp.fileId), imp.specifier, byPath);
    if to.None? || to.value == imp.fileId {
      return None;
    }
    key := Some((imp.fileId, to.value));
  }

  method ResolveEdges(imports: seq<ImportRow>, byPath: map<Path, Id>, pathOf: map<Id, Path>) returns (edges: seq<(Id, Id)>)
    ensures Distinct(edges)
    ensures forall e :: e in edges <==> SomeYields(byPath, pathOf, imports, e)
  {
    edges := [];
    var seen: set<(Id, Id)> := {};
    hide Yields;
    var i := 0;
    while i < |imports|
      invariant 0 <= i <= |imports|
      invariant Distinct(edges)
      invariant forall e :: e in edges <==> e in seen
      invariant forall e :: e in seen <==> SomeYields(byPath, pathOf, imports[..i], e)
    {
      var key := EdgeOf(byPath, pathOf, imports[i]);
      forall e { YieldsSnoc(byPath, pathOf, imports, i, e); }
      hide SomeYields;
      if key.Some? && key.value !in seen {
        seen := seen + {key.value};
        edges := edges + [key.value];
      }
      i := i + 1;
    }
    assert imports[..i] == imports;
  }

  method LinkOf(byPath: map<Path, Id>, f: FileMeta) returns (link: Option<(Id, Id)>)
    ensures forall l :: Links(byPath, f, l) <==> link == Some(l)
  {
    if f.role != "test" {
      return None;
    }
    var cands := ImplCandidates(f.path);
    var i := 0;
    while i < |cands|
      invariant 0 <= i <= |cands|
      invariant FirstOther(cands, byPath, f.id) == FirstOther(cands[i..], byPath, f.id)
    {
      if cands[i] in byPath && byPath[cands[i]] != f.id {
        return Some((byPath[cands[i]], f.id));
      }
      i := i + 1;
    }
    link := None;
  }

  method ResolveLinks(files: seq<FileMeta>, byPath: map<Path, Id>) returns (links: seq<(Id, Id)>)
    ensures forall l :: l in links <==> SomeLinks(byPath, files, l)
  {
    links := [];
    hide Links;
    var i := 0;
    while i < |files|
      invariant 0 <= i <= |files|
      invariant forall l :: l in links <==> SomeLinks(byPath, files[..i], l)
    {
      var link := LinkOf(byPath, files[i]);
      forall l { LinksSnoc(byPath, files, i, l); }
      hide SomeLinks;
      if link.Some? {
        links := links + [link.value];
      }
      i := i + 1;
    }
    assert files[..i] == files;
  }

  /** Edges without repeats, exactly those some import row stands for; the order the rows are read in does not matter. */
  method ResolveGraph(files: seq<FileMeta>, imports: seq<ImportRow>) returns (edges: seq<(Id, Id)>, links: seq<(Id, Id)>)
    ensures Distinct(edges)
    ensures forall e :: e in edges <==> SomeYields(PathIndex(files), IdIndex(files), imports, e)
    ensures forall l :: l in links <==> SomeLinks(PathIndex(files), files, l)
  {
    var byPath, pathOf := BuildIndexes(files);
    edges := ResolveEdges(imports, byPath, pathOf);
    links := ResolveLinks(files, byPath);
  }
}
