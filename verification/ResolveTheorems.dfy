/** Where relative imports and test files lead, by the segments of the paths, down to the stored graph. */
module ResolveTheorems {
  import opened Base
  import opened Text
  import opened SlashPath
  import opened PathSegments
  import opened CodeTables
  import opened CodeView
  import opened Resolve
  import opened GraphRefresh
  import MetadataTheorems

  // ---- the first of a list ----

  /** The first path of the list that is indexed. */
  ghost predicate IsFirst(tried: seq<Path>, paths: set<Path>, r: Option<Path>) {
    match r
    case None => forall k :: 0 <= k < |tried| ==> tried[k] !in paths
    case Some(q) => q in paths && exists k :: FirstAt(tried, paths, q, k)
  }

  ghost predicate FirstAt(tried: seq<Path>, paths: set<Path>, q: Path, k: int) {
    0 <= k < |tried| && tried[k] == q && forall j :: 0 <= j < k ==> tried[j] !in paths
  }

  lemma {:induction false} FirstInIs(tried: seq<Path>, paths: set<Path>)
    ensures IsFirst(tried, paths, FirstIn(tried, paths))
  {
    if tried != [] && tried[0] !in paths {
      FirstInIs(tried[1..], paths);
      var r := FirstIn(tried, paths);
      if r.Some? {
        var k :| FirstAt(tried[1..], paths, r.value, k);
        assert forall j :: 1 <= j < k + 1 ==> tried[j] == tried[1..][j - 1];
        assert FirstAt(tried, paths, r.value, k + 1);
      } else {
        assert forall j :: 1 <= j < |tried| ==> tried[j] == tried[1..][j - 1];
      }
    } else if tried != [] {
      assert FirstAt(tried, paths, tried[0], 0);
    }
  }

  lemma FirstUnique(tried: seq<Path>, paths: set<Path>, r: Option<Path>)
    requires IsFirst(tried, paths, r)
    ensures r == FirstIn(tried, paths)
  {
    FirstInIs(tried, paths);
    var f := FirstIn(tried, paths);
    if r.Some? && f.Some? {
      var k :| FirstAt(tried, paths, r.value, k);
      var l :| FirstAt(tried, paths, f.value, l);
      assert k == l;
    }
  }

  // ---- relative imports ----

  /** What is tried for the name n in the directory d: the path itself, the path with each extension, and the index file
      of that directory with each extension. */
  function Tried(d: seq<string>, n: string): seq<Path> {
    var p := Join(d + [n], "/");
    [p,
     p + ".ts", p + ".tsx", p + ".js", p + ".jsx", p + ".mjs", p + ".cjs", p + ".py",
     p + "/index.ts", p + "/index.tsx", p + "/index.js", p + "/index.jsx", p + "/index.mjs", p + "/index.cjs", p + "/index.py"]
  }

  /** The target of an import is found by walking its segments from the importer's directory. */
  lemma TargetIs(d: seq<string>, f: string, sp: seq<string>)
    requires Reduced(false, d) && '/' !in f && sp != [] && Free(sp, '/') && sp[0] != ""
    ensures Clean(JoinPath(Dir(Join(d + [f], "/")), Join(sp, "/"))) == PathOf(Reduce(false, d + sp))
  {
    DirSegments(d, f);
    JoinSegments(d, sp);
    JoinStarts(sp);
    hide Join, Clean, Reduce, PathOf;
    JoinCleaned(PathOf(d), Join(sp, "/"));
  }

  lemma IndexFile(segs: seq<string>, name: string)
    requires segs != [] && Reduced(false, segs) && Plain([name])
    ensures JoinPath(Join(segs, "/"), name) == Join(segs, "/") + "/" + name
  {
    assert [name][0] == name;
    JoinSegments(segs, [name]);
    ReduceSteps(segs, name);
    JoinConcat(segs, [name], "/");
    JoinOne(name);
    hide Join, Clean, Reduce;
  }

  lemma IndexNames()
    ensures forall i :: 0 <= i < |RESOLVE_EXTENSIONS| ==> Plain(["index" + RESOLVE_EXTENSIONS[i]])
  {
    forall i | 0 <= i < |RESOLVE_EXTENSIONS| ensures Plain(["index" + RESOLVE_EXTENSIONS[i]]) {
      var name := "index" + RESOLVE_EXTENSIONS[i];
      assert name[0] == 'i';
      assert '/' !in name;
    }
  }

  /** The candidates of an import whose target is a named file of a directory. */
  lemma CandidatesAre(importer: Path, specifier: string, d: seq<string>, n: string)
    requires Reduced(false, d + [n])
    requires Clean(JoinPath(Dir(importer), specifier)) == Join(d + [n], "/")
    ensures Candidates(importer, specifier) == Tried(d, n)
  {
    hide Clean, Dir, Reduced, Join;
    IndexNames();
    var p, all := Join(d + [n], "/"), Candidates(importer, specifier);
    forall i | 0 <= i < 7 ensures JoinPath(p, "index" + RESOLVE_EXTENSIONS[i]) == p + "/" + ("index" + RESOLVE_EXTENSIONS[i]) {
      IndexFile(d + [n], "index" + RESOLVE_EXTENSIONS[i]);
    }
    hide JoinPath;
    assert |all| == 15 && |Tried(d, n)| == 15;
    forall i | 0 <= i < 15 ensures all[i] == Tried(d, n)[i] {
      if 1 <= i < 8 {
        assert all[i] == p + RESOLVE_EXTENSIONS[i - 1];
      } else if 8 <= i {
        assert all[i] == JoinPath(p, "index" + RESOLVE_EXTENSIONS[i - 8]);
      }
    }
  }

  /** ./n names n beside the importer, and ../n names n beside the importer's directory. */
  lemma ResolvesBeside(d: seq<string>, f: string, n: string, paths: set<Path>)
    requires Reduced(false, d) && '/' !in f && Plain([n])
    ensures IsFirst(Tried(d, n), paths, ResolvePath(Join(d + [f], "/"), "./" + n, paths))
    ensures IsFirst(Tried(Parent(d), n), paths, ResolvePath(Join(d + [f], "/"), "../" + n, paths))
  {
    assert [n][0] == n;
    DotSegments(n);
    hide Join, Clean, Reduce, Reduced, Candidates, Tried;
    ReduceSteps(d, n);
    TargetIs(d, f, [".", n]);
    TargetIs(d, f, ["..", n]);
    CandidatesAre(Join(d + [f], "/"), "./" + n, d, n);
    CandidatesAre(Join(d + [f], "/"), "../" + n, Parent(d), n);
    FirstInIs(Tried(d, n), paths);
    FirstInIs(Tried(Parent(d), n), paths);
  }

  lemma DotSegments(n: string)
    requires '/' !in n
    ensures Join([".", n], "/") == "./" + n && Join(["..", n], "/") == "../" + n
    ensures Free([".", n], '/') && Free(["..", n], '/')
  {
    assert [".", n][1..] == [n] && ["..", n][1..] == [n];
  }

  /** In the stored graph an importer has, for each import ./n or ../n, an edge to the first indexed of these paths,
      unless that is the importer itself. */
  lemma StoredEdges(t: Tables, d: seq<string>, f: string, n: string, up: bool, q: Path)
    requires Linked(t) && MetadataTheorems.GraphCurrent(t)
    requires Reduced(false, d) && '/' !in f && Plain([n]) && Join(d + [f], "/") in ViewOf(t)
    requires (if up then "../" + n else "./" + n) in ViewOf(t)[Join(d + [f], "/")].derived.imports
    requires IsFirst(Tried(if up then Parent(d) else d, n), ViewOf(t).Keys, Some(q)) && q != Join(d + [f], "/")
    ensures (Join(d + [f], "/"), q) in MetadataTheorems.PathGraph(t)
  {
    var p, s := Join(d + [f], "/"), if up then "../" + n else "./" + n;
    assert Relative(s);
    hide Join, Tried, Linked, ViewOf, MetadataTheorems.PathGraph, MetadataTheorems.GraphCurrent, ResolvePath, IsFirst, Reduced, Parent;
    ResolvesBeside(d, f, n, ViewOf(t).Keys);
    FirstUnique(Tried(if up then Parent(d) else d, n), ViewOf(t).Keys, Some(q));
    FirstUnique(Tried(if up then Parent(d) else d, n), ViewOf(t).Keys, ResolvePath(p, s, ViewOf(t).Keys));
    FirstIsIndexed(Tried(if up then Parent(d) else d, n), ViewOf(t).Keys, q);
    assert PathEdge(ViewOf(t), p, q);
    MetadataTheorems.PathGraphIsViewed(t, p, q);
  }

  lemma FirstIsIndexed(tried: seq<Path>, paths: set<Path>, q: Path)
    requires IsFirst(tried, paths, Some(q))
    ensures q in paths
  {
  }

  /** And it has no other edges: each stored edge is the first indexed path of one of its imports that begin with a dot,
      and none comes from a file without such an import. */
  lemma StoredEdgesOnly(t: Tables, p: Path, q: Path)
    requires Linked(t) && MetadataTheorems.GraphCurrent(t) && (p, q) in MetadataTheorems.PathGraph(t)
    ensures p in ViewOf(t) && q in ViewOf(t) && p != q
    ensures exists s :: s in ViewOf(t)[p].derived.imports && s != "" && s[0] == '.' && IsFirst(Candidates(p, s), ViewOf(t).Keys, Some(q))
  {
    hide Linked, ViewOf, MetadataTheorems.PathGraph, MetadataTheorems.GraphCurrent, Candidates, IsFirst;
    MetadataTheorems.PathGraphIsViewed(t, p, q);
    var s :| s in ViewOf(t)[p].derived.imports && Relative(s) && ResolvePath(p, s, ViewOf(t).Keys) == Some(q);
    assert s != "" && s[0] == '.';
    FirstInIs(Candidates(p, s), ViewOf(t).Keys);
  }

  // ---- test files ----

  /** The files a test in the directory d may be of, by the name before the extension. */
  function Siblings(d: seq<string>, stem: string): seq<Path> {
    [Join(d + [stem + ".ts"], "/"), Join(d + [stem + ".tsx"], "/"), Join(d + [stem + ".js"], "/"),
     Join(d + [stem + ".jsx"], "/"), Join(d + [stem + ".mjs"], "/"), Join(d + [stem + ".cjs"], "/")]
  }

  lemma LastSegment(d: seq<string>, f: string)
    requires '/' !in f && f != ""
    ensures LastElement(Join(d + [f], "/")) == f
  {
    JoinOne(f);
    var p := Join(d + [f], "/");
    if d == [] {
      assert d + [f] == [f];
      assert TrimSlashes(f) == f;
      assert LastIndexByte(f, '/') == -1 && f[0..] == f;
    } else {
      JoinConcat(d, [f], "/");
      var dir := Join(d, "/");
      var i := LastIndexByte(p, '/');
      assert p == dir + ['/'] + f && p[|dir|] == '/';
      assert p == p[..i] + ['/'] + p[i + 1..];
      LastCutUnique(dir, f, p[..i], p[i + 1..], '/');
      assert p[|p| - 1] == f[|f| - 1];
      assert TrimSlashes(p) == p;
    }
  }

  /** A name beside the test is joined to the test's directory. */
  lemma BesideTest(d: seq<string>, f: string, n: string)
    requires Reduced(false, d) && '/' !in f && Plain([n])
    ensures JoinPath(Dir(Join(d + [f], "/")), n) == Join(d + [n], "/")
  {
    DirSegments(d, f);
    assert [n][0] == n;
    JoinSegments(d, [n]);
    JoinOne(n);
    ReduceSteps(d, n);
    hide Join, Clean, Reduce, Reduced;
    assert d + [n] != [];
  }

  lemma CandidatesBeside(d: seq<string>, f: string, stems: seq<string>)
    requires Reduced(false, d) && Plain([f]) && Stems(f) == stems && Plain(stems)
    ensures |ImplCandidates(Join(d + [f], "/"))| == |stems|
    ensures forall i :: 0 <= i < |stems| ==> ImplCandidates(Join(d + [f], "/"))[i] == Join(d + [stems[i]], "/")
  {
    assert [f][0] == f && f != "" && '/' !in f;
    forall i | 0 <= i < |stems| ensures Plain([stems[i]]) {
    }
    hide *;
    LastSegment(d, f);
    ImplCandidatesAre(Join(d + [f], "/"));
    forall i | 0 <= i < |stems| ensures ImplCandidates(Join(d + [f], "/"))[i] == Join(d + [stems[i]], "/") {
      BesideTest(d, f, stems[i]);
    }
  }

  lemma ImplCandidatesAre(test: Path)
    ensures var stems, all := Stems(LastElement(test)), ImplCandidates(test);
            |all| == |stems| && forall i :: 0 <= i < |all| ==> all[i] == JoinPath(Dir(test), stems[i])
  {
    hide Stems, LastElement, JoinPath, Dir;
  }

  lemma SuffixIs(stem: string, suffix: string)
    ensures HasSuffix(stem + suffix, suffix) && TrimSuffix(stem + suffix, suffix) == stem
  {
    var s := stem + suffix;
    assert s[|s| - |suffix|..] == suffix && s[..|s| - |suffix|] == stem;
  }

  lemma SuffixLast(s: string, suffix: string)
    requires suffix != ""
    ensures HasSuffix(s, suffix) ==> s != "" && s[|s| - 1] == suffix[|suffix| - 1]
  {
    if HasSuffix(s, suffix) {
      assert s[|s| - |suffix|..][|suffix| - 1] == s[|s| - 1];
    }
  }

  /** x_test.go is the test of x.go in its directory. */
  lemma GoTest(d: seq<string>, stem: string)
    requires Reduced(false, d) && '/' !in stem
    ensures ImplCandidates(Join(d + [stem + "_test.go"], "/")) == [Join(d + [stem + ".go"], "/")]
  {
    var f, n := stem + "_test.go", stem + ".go";
    SuffixIs(stem, "_test.go");
    assert f[|f| - 1] == 'o' && n[|n| - 1] == 'o';
    assert Stems(f) == [n];
    hide Stems, Reduced, Join, ImplCandidates;
    CandidatesBeside(d, f, [n]);
  }

  /** test_x.py is the test of x.py. */
  lemma PythonTest(d: seq<string>, stem: string)
    requires Reduced(false, d) && '/' !in stem
    ensures ImplCandidates(Join(d + ["test_" + stem + ".py"], "/")) == [Join(d + [stem + ".py"], "/")]
  {
    var f, n := "test_" + stem + ".py", stem + ".py";
    SuffixIs("test_" + stem, ".py");
    SuffixLast(f, "_test.go");
    assert f[|f| - 1] == 'y' && n[|n| - 1] == 'y';
    assert f == "test_" + n && TrimPrefix(f, "test_") == n;
    hide HasSuffix, TrimPrefix;
    assert Stems(f) == [n];
    hide *;
    PlainName(f, 'y');
    PlainName(n, 'y');
    CandidatesBeside(d, f, [n]);
  }

  lemma PlainName(n: string, c: char)
    requires '/' !in n && n != "" && n[|n| - 1] == c && c != '.'
    ensures Plain([n])
  {
  }

  /** And so is x_test.py. */
  lemma PythonSuffixTest(d: seq<string>, stem: string)
    requires Reduced(false, d) && '/' !in stem && !HasPrefix(stem + "_test.py", "test_")
    ensures ImplCandidates(Join(d + [stem + "_test.py"], "/")) == [Join(d + [stem + ".py"], "/")]
  {
    var f, n := stem + "_test.py", stem + ".py";
    SuffixIs(stem, "_test.py");
    SuffixLast(f, "_test.go");
    assert f[|f| - 1] == 'y' && n[|n| - 1] == 'y';
    hide HasSuffix, TrimSuffix;
    assert Stems(f) == [n];
    hide *;
    PlainName(f, 'y');
    PlainName(n, 'y');
    CandidatesBeside(d, f, [n]);
  }

  /** IndexOf finds the first occurrence. */
  lemma {:induction false} IndexOfIs(s: string, sub: string)
    ensures -1 <= IndexOf(s, sub) <= |s|
    ensures IndexOf(s, sub) >= 0 ==> HasPrefix(s[IndexOf(s, sub)..], sub)
    ensures forall i :: 0 <= i <= |s| && (IndexOf(s, sub) < 0 || i < IndexOf(s, sub)) ==> !HasPrefix(s[i..], sub)
  {
    if HasPrefix(s, sub) {
      assert s[0..] == s;
    } else if s != "" {
      IndexOfIs(s[1..], sub);
      var r := IndexOf(s[1..], sub);
      assert s[0..] == s;
      assert forall i :: 1 <= i <= |s| ==> s[i..] == s[1..][i - 1..];
    }
  }

  /** A word, a marker, and a word: the marker is found behind the first word. */
  lemma MarkerAt(stem: string, marker: string, ext: string)
    requires '.' !in stem && '.' !in ext && |marker| == 6 && marker[0] == '.'
    ensures IndexOf(stem + marker + ext, marker) == |stem|
  {
    var s := stem + marker + ext;
    IndexOfIs(s, marker);
    assert HasPrefix(s[|stem|..], marker) by { assert s[|stem|..] == marker + ext; }
    forall i | 0 <= i < |stem| ensures !HasPrefix(s[i..], marker) {
      assert s[i..][0] == stem[i];
    }
  }

  lemma DotsAt(stem: string, marker: string, ext: string, i: nat)
    requires '.' !in stem && '.' !in ext && |marker| == 6 && '.' !in marker[1..5] && i < |stem + marker + ext|
    ensures (stem + marker + ext)[i] == '.' ==> i == |stem| || i == |stem| + 5
  {
    var s := stem + marker + ext;
    assert i < |stem| ==> s[i] == stem[i];
    assert i >= |stem| + 6 ==> s[i] == ext[i - |stem| - 6];
    assert |stem| < i < |stem| + 5 ==> s[i] == marker[1..5][i - |stem| - 1];
  }

  lemma PrefixAt(s: string, i: nat, p: string)
    requires i <= |s|
    ensures HasPrefix(s[i..], p) ==> i + |p| <= |s| && forall k :: 0 <= k < |p| ==> s[i + k] == p[k]
  {
    if HasPrefix(s[i..], p) {
      assert forall k :: 0 <= k < |p| ==> s[i..][k] == p[k];
    }
  }

  /** The other marker is not found. */
  lemma NoMarker(stem: string, marker: string, ext: string, other: string)
    requires '.' !in stem && '.' !in ext && |marker| == |other| == 6 && marker[0] == other[0] == '.' && marker[5] == other[5] == '.'
    requires '.' !in marker[1..5] && other[1] != marker[1]
    ensures IndexOf(stem + marker + ext, other) == -1
  {
    var s := stem + marker + ext;
    forall i | 0 <= i <= |s| ensures !HasPrefix(s[i..], other) {
      NotThere(stem, marker, ext, other, i);
    }
    IndexOfIs(s, other);
  }

  lemma NotThere(stem: string, marker: string, ext: string, other: string, i: nat)
    requires '.' !in stem && '.' !in ext && |marker| == |other| == 6 && marker[0] == other[0] == '.' && marker[5] == other[5] == '.'
    requires '.' !in marker[1..5] && other[1] != marker[1] && i <= |stem + marker + ext|
    ensures !HasPrefix((stem + marker + ext)[i..], other)
  {
    var s := stem + marker + ext;
    hide HasPrefix;
    PrefixAt(s, i, other);
    if i + 6 <= |s| {
      DotsAt(stem, marker, ext, i);
      DotsAt(stem, marker, ext, i + 5);
      assert s[i + 0] == s[i];
      assert s[|stem| + 1] == marker[1];
    }
  }

  /** x.test.ext and x.spec.ext are tests of the files x with a known extension, in this order. */
  lemma MarkedTest(d: seq<string>, stem: string, ext: string)
    requires Reduced(false, d) && '/' !in stem && '/' !in ext && '.' !in stem && '.' !in ext && ext != "" && ext != "py" && ext != "go"
    ensures ImplCandidates(Join(d + [stem + ".test." + ext], "/")) == Siblings(d, stem)
    ensures ImplCandidates(Join(d + [stem + ".spec." + ext], "/")) == Siblings(d, stem)
  {
    hide *;
    MarkedOne(d, stem, ".test.", ext);
    MarkedOne(d, stem, ".spec.", ext);
  }

  lemma MarkedOne(d: seq<string>, stem: string, marker: string, ext: string)
    requires Reduced(false, d) && '/' !in stem && '/' !in ext && '.' !in stem && '.' !in ext && ext != "" && ext != "py" && ext != "go"
    requires marker == ".test." || marker == ".spec."
    ensures ImplCandidates(Join(d + [stem + marker + ext], "/")) == Siblings(d, stem)
  {
    hide *;
    var other := if marker == ".test." then ".spec." else ".test.";
    Markers(marker);
    MarkerAt(stem, marker, ext);
    NoMarker(stem, marker, ext, other);
    MarkedStems(stem, marker, ext);
    MarkedCandidates(d, stem, marker, ext);
  }

  lemma Markers(marker: string)
    requires marker == ".test." || marker == ".spec."
    ensures |marker| == 6 && marker[0] == '.' && marker[5] == '.' && marker[1] != '.' && '/' !in marker && '.' !in marker[1..5]
    ensures var other := if marker == ".test." then ".spec." else ".test.";
            |other| == 6 && other[0] == '.' && other[5] == '.' && other[1] != marker[1]
  {
    assert marker[1..5] == "test" || marker[1..5] == "spec";
  }

  function StemNames(stem: string): seq<string> {
    [stem + ".ts", stem + ".tsx", stem + ".js", stem + ".jsx", stem + ".mjs", stem + ".cjs"]
  }

  lemma MarkedStems(stem: string, marker: string, ext: string)
    requires marker == ".test." || marker == ".spec."
    requires '.' !in stem && '.' !in ext && ext != "" && ext != "py" && ext != "go"
    requires IndexOf(stem + marker + ext, marker) == |stem| && IndexOf(stem + marker + ext, if marker == ".test." then ".spec." else ".test.") == -1
    ensures Stems(stem + marker + ext) == StemNames(stem)
  {
    NoPlainSuffix(stem + marker[..5], ext, "_test", "go");
    NoPlainSuffix(stem + marker[..5], ext, "_test", "py");
    NoPlainSuffix(stem + marker[..5], ext, "", "py");
    MarkerEnds(stem, marker, ext);
    hide IndexOf, HasSuffix, HasPrefix, TrimSuffix, TrimPrefix, MarkerStems;
    var f := stem + marker + ext;
    assert "_test" + "." + "go" == "_test.go" && "_test" + "." + "py" == "_test.py" && "" + "." + "py" == ".py";
    assert Stems(f) == MarkerStems(f, ".test.") + MarkerStems(f, ".spec.");
    hide Stems;
    MarkerList(stem, marker, ext);
    assert MarkerStems(f, if marker == ".test." then ".spec." else ".test.") == [] by { NoStems(f, if marker == ".test." then ".spec." else ".test."); }
  }

  lemma MarkerEnds(stem: string, marker: string, ext: string)
    requires |marker| == 6 && marker[5] == '.'
    ensures stem + marker[..5] + "." + ext == stem + marker + ext
  {
    assert marker == marker[..5] + ".";
  }

  lemma MarkerList(stem: string, marker: string, ext: string)
    requires IndexOf(stem + marker + ext, marker) == |stem|
    ensures MarkerStems(stem + marker + ext, marker) == StemNames(stem)
  {
    var f := stem + marker + ext;
    assert f[..|stem|] == stem;
    hide IndexOf;
  }

  lemma NoStems(f: string, marker: string)
    requires IndexOf(f, marker) == -1
    ensures MarkerStems(f, marker) == []
  {
  }

  /** A name with another extension does not end like this. */
  lemma NoPlainSuffix(front: string, ext: string, tail: string, other: string)
    requires '.' !in ext && '.' !in other && ext != other
    ensures !HasSuffix(front + "." + ext, tail + "." + other)
  {
    var f, g := front + "." + ext, tail + "." + other;
    if HasSuffix(f, g) {
      var h := f[..|f| - |g|];
      assert f == h + g;
      assert front + ['.'] + ext == (h + tail) + ['.'] + other;
      LastCutUnique(front, ext, h + tail, other, '.');
      assert false;
    }
  }

  lemma MarkedCandidates(d: seq<string>, stem: string, marker: string, ext: string)
    requires Reduced(false, d) && '/' !in stem && '/' !in ext && '/' !in marker && |marker| == 6 && marker[0] == '.' && marker[1] != '.'
    requires '.' !in ext && ext != ""
    requires Stems(stem + marker + ext) == StemNames(stem)
    ensures ImplCandidates(Join(d + [stem + marker + ext], "/")) == Siblings(d, stem)
  {
    hide Stems, Reduced, Join, ImplCandidates;
    var f := stem + marker + ext;
    PlainName(f, ext[|ext| - 1]);
    StemNamesPlain(stem);
    CandidatesBeside(d, f, StemNames(stem));
  }

  lemma StemNamesPlain(stem: string)
    requires '/' !in stem
    ensures Plain(StemNames(stem))
  {
    var names := StemNames(stem);
    forall i | 0 <= i < 6 ensures Plain([names[i]]) {
      PlainName(names[i], names[i][|names[i]| - 1]);
    }
    assert forall i :: 0 <= i < 6 ==> [names[i]][0] == names[i];
  }

  /** A test file is linked to the first indexed candidate that is not itself; other files are linked to nothing. */
  lemma LinkedFirst(v: View, impl: Path, test: Path)
    ensures PathLink(v, impl, test) <==>
      impl in v && test in v && v[test].file.role == "test" && IsFirst(ImplCandidates(test), v.Keys - {test}, Some(impl))
  {
    FirstInIs(ImplCandidates(test), v.Keys - {test});
    hide ImplCandidates, IsFirst;
    if impl in v && IsFirst(ImplCandidates(test), v.Keys - {test}, Some(impl)) {
      FirstUnique(ImplCandidates(test), v.Keys - {test}, Some(impl));
    }
  }

  /** In the stored tables a test file is linked, under the ids of their rows, to the first indexed candidate other than
      itself, and to nothing else. */
  lemma StoredLinks(t: Tables, impl: Id, test: Id)
    requires Linked(t) && MetadataTheorems.GraphCurrent(t) && impl in t.files && test in t.files
    ensures (impl, test) in t.testLinks <==>
      && t.files[test].role == "test"
      && IsFirst(ImplCandidates(t.files[test].path), ViewOf(t).Keys - {t.files[test].path}, Some(t.files[impl].path))
  {
    EdgeSetIs(t);
    ViewAt(t, impl);
    ViewAt(t, test);
    GraphIsViewed(t, impl, test);
    LinkedFirst(ViewOf(t), t.files[impl].path, t.files[test].path);
    hide ViewOf, LinkSet, EdgeSet, ImplCandidates, IsFirst, PathLink, LinkAt, SymbolIds;
  }
}
