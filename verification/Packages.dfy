/** A file's package: the directory name of the nearest enclosing manifest, memoised per directory. */
module Packages {
  import opened Text
  import opened SlashPath

  const MANIFEST_NAMES := ["go.mod", "package.json", "pyproject.toml"]

  /** What os.Stat can see, and the directory the walk stops at. */
  datatype Disk = Disk(files: set<string>, workDir: string)

  predicate HasManifest(d: Disk, dir: string) {
    exists i :: 0 <= i < |MANIFEST_NAMES| && JoinPath(dir, MANIFEST_NAMES[i]) in d.files
  }

  // ---- the walk ends ----

  function LengthOf(segs: seq<string>): nat {
    if segs == [] then 0 else LengthOf(segs[..|segs| - 1]) + |segs[|segs| - 1]| + 1
  }

  lemma {:induction false} LengthConcat(a: seq<string>, b: seq<string>)
    ensures LengthOf(a + b) == LengthOf(a) + LengthOf(b)
  {
    if b == [] {
      assert a + b == a;
    } else {
      var n := |b| - 1;
      LengthConcat(a, b[..n]);
      assert (a + b)[..|a + b| - 1] == a + b[..n];
    }
  }

  lemma {:induction false} JoinLength(segs: seq<string>)
    requires segs != []
    ensures |Join(segs, "/")| == LengthOf(segs) - 1
  {
    assert segs == [segs[0]] + segs[1..];
    LengthConcat([segs[0]], segs[1..]);
    assert LengthOf([segs[0]]) == |segs[0]| + 1 by { assert [segs[0]][..0] == []; }
    if |segs| > 1 {
      JoinLength(segs[1..]);
    }
  }

  lemma OneLength(s: string)
    ensures LengthOf([s]) == |s| + 1
  {
    assert [s][..0] == [];
  }

  lemma {:induction false} SplitLength(p: string)
    ensures LengthOf(Split(p, '/')) == |p| + 1
  {
    var i := IndexByte(p, '/');
    if i < 0 {
      OneLength(p);
    } else {
      var rest := p[i + 1..];
      SplitLength(rest);
      OneLength(p[..i]);
      LengthConcat([p[..i]], Split(rest, '/'));
      hide LengthOf;
      assert Split(p, '/') == [p[..i]] + Split(rest, '/');
    }
  }

  lemma {:induction false} ReduceLength(rooted: bool, segs: seq<string>)
    ensures LengthOf(Reduce(rooted, segs)) <= LengthOf(segs)
  {
    if segs != [] {
      var n := |segs| - 1;
      ReduceLength(rooted, segs[..n]);
      var acc := Reduce(rooted, segs[..n]);
      var r := ReduceStep(rooted, acc, segs[n]);
      if r == acc + [segs[n]] {
        assert r[..|acc|] == acc;
      }
    }
  }

  lemma {:induction false} SplitLast(p: string)
    requires p != "" && p[|p| - 1] == '/'
    ensures var s := Split(p, '/'); |s| > 1 && s[|s| - 1] == ""
  {
    var i := IndexByte(p, '/');
    if i == |p| - 1 {
      assert Split("", '/') == [""];
      assert p[i + 1..] == "";
    } else {
      SplitLast(p[i + 1..]);
    }
  }

  lemma RenderLength(rooted: bool, segs: seq<string>)
    ensures segs != [] ==> |Render(rooted, segs)| == if rooted then LengthOf(segs) else LengthOf(segs) - 1
  {
    if segs != [] {
      JoinLength(segs);
    }
    hide LengthOf, Join;
  }

  /** A trailing slash and a leading one leave nothing behind when segments are reduced. */
  lemma ReducedLength(p: string)
    requires p != "" && p[|p| - 1] == '/'
    ensures LengthOf(Reduce(p[0] == '/', Split(p, '/'))) <= if p[0] == '/' then |p| - 1 else |p|
  {
    var rooted, segs := p[0] == '/', Split(p, '/');
    SplitLast(p);
    SplitLength(p);
    OneLength("");
    var n := |segs| - 1;
    assert segs == segs[..n] + [""];
    LengthConcat(segs[..n], [""]);
    assert Reduce(rooted, segs) == Reduce(rooted, segs[..n]);
    if rooted {
      assert IndexByte(p, '/') == 0 && segs[0] == "";
      hide LengthOf, Reduce, Split;
      assert segs[..n] == [""] + segs[1..n];
      LengthConcat([""], segs[1..n]);
      ReduceSkipsEmpty(rooted, segs[1..n]);
      ReduceLength(rooted, segs[1..n]);
    } else {
      ReduceLength(rooted, segs[..n]);
    }
  }

  lemma CleanLength(p: string)
    requires p != "" && p[|p| - 1] == '/'
    ensures Clean(p) == "." || Clean(p) == "/" || |Clean(p)| < |p|
  {
    hide LengthOf, Reduce, Split;
    ReducedLength(p);
    RenderLength(p[0] == '/', Reduce(p[0] == '/', Split(p, '/')));
  }

  /** Going to the parent directory gets shorter until it stays put. */
  lemma DirShrinks(dir: string)
    ensures Dir(dir) == dir || |Dir(dir)| < |dir| || Dir(Dir(dir)) == Dir(dir)
  {
    var p := dir[..LastIndexByte(dir, '/') + 1];
    assert Dir(dir) == Clean(p);
    hide *;
    if p == "" {
      EmptyClean();
      DotDir();
    } else {
      LastSlash(dir);
      CleanLength(p);
      if Clean(p) == "." {
        DotDir();
      } else if Clean(p) == "/" {
        RootDir();
      }
    }
  }

  lemma LastSlash(s: string)
    ensures var p := s[..LastIndexByte(s, '/') + 1]; |p| <= |s| && (p != "" ==> p[|p| - 1] == '/')
  {
  }

  lemma EmptyClean()
    ensures Clean("") == "."
  {
  }

  lemma DotDir()
    ensures Dir(".") == "."
  {
    assert LastIndexByte(".", '/') == -1;
    assert "."[..0] == "";
  }

  lemma RootDir()
    ensures Dir("/") == "/"
  {
    assert LastIndexByte("/", '/') == 0;
    assert "/"[..1] == "/";
    assert IndexByte("/", '/') == 0;
    assert Split("/", '/') == [""] + Split("", '/');
    assert Split("", '/') == [""];
    assert Split("/", '/') == ["", ""];
    assert ["", ""][..1] == [""] && [""][..0] == [];
    assert Reduce(true, [""]) == [];
    assert Reduce(true, ["", ""]) == [];
  }

  function Steps(dir: string): nat {
    if Dir(dir) == dir then 0 else |dir| + 1
  }

  // ---- the walk, without and with the cache ----

  predicate GoesUp(d: Disk, dir: string) {
    Dir(dir) != dir && |Dir(dir)| >= |d.workDir| && HasPrefix(dir, d.workDir)
  }

  /** The package of a directory, by walking up to the nearest manifest. */
  function Nearest(d: Disk, dir: string): string
    decreases Steps(dir)
  {
    if HasManifest(d, dir) then LastElement(dir)
    else if GoesUp(d, dir) then (DirShrinks(dir); Nearest(d, Dir(dir)))
    else ""
  }

  type Cache = map<string, string>

  /** Every memoised answer is the walk's answer. */
  ghost predicate Agrees(d: Disk, cache: Cache) {
    forall dir :: dir in cache ==> cache[dir] == Nearest(d, dir)
  }

  /** The directory a repo-relative path is looked up in. */
  function DirOf(d: Disk, rel: string): string {
    Dir(JoinPath(d.workDir, rel))
  }

  /** One step of the walk. */
  lemma NearestIs(d: Disk, dir: string)
    ensures GoesUp(d, dir) ==> Steps(Dir(dir)) < Steps(dir)
    ensures LastElement(dir) != ""
    ensures Nearest(d, dir) ==
      if HasManifest(d, dir) then LastElement(dir) else if GoesUp(d, dir) then Nearest(d, Dir(dir)) else ""
  {
    LastElementSomething(dir);
    if GoesUp(d, dir) {
      DirShrinks(dir);
    }
    hide HasManifest, LastElement, JoinPath;
  }

  /** What one lookup does to the cache: the answer is memoised for every directory the walk passed. */
  function AfterLookup(d: Disk, cache: Cache, dir: string): (after: Cache)
    ensures dir in after
    decreases Steps(dir)
  {
    if dir in cache then cache
    else if HasManifest(d, dir) then cache[dir := LastElement(dir)]
    else if GoesUp(d, dir) then
      (DirShrinks(dir);
       var c := AfterLookup(d, cache, Dir(dir));
       c[dir := c[Dir(dir)]])
    else cache[dir := ""]
  }

  /** One step of a lookup. */
  lemma AfterLookupIs(d: Disk, cache: Cache, dir: string)
    ensures GoesUp(d, dir) ==> Steps(Dir(dir)) < Steps(dir)
    ensures LastElement(dir) != ""
    ensures AfterLookup(d, cache, dir) ==
      if dir in cache then cache
      else if HasManifest(d, dir) then cache[dir := LastElement(dir)]
      else if GoesUp(d, dir) then
        var c := AfterLookup(d, cache, Dir(dir));
        c[dir := c[Dir(dir)]]
      else cache[dir := ""]
  {
    NearestIs(d, dir);
    hide HasManifest, LastElement, JoinPath, Steps;
  }

  /** Memoising does not change any answer: from a cache that agrees with the uncached walk, the answer is the
      uncached one, and the cache still agrees and keeps what it had. */
  lemma {:induction false} LookupIsNearest(d: Disk, cache: Cache, dir: string)
    requires Agrees(d, cache)
    ensures Agrees(d, AfterLookup(d, cache, dir)) && AfterLookup(d, cache, dir)[dir] == Nearest(d, dir)
    ensures forall x :: x in cache ==> x in AfterLookup(d, cache, dir) && AfterLookup(d, cache, dir)[x] == cache[x]
    decreases Steps(dir)
  {
    hide HasManifest, LastElement, JoinPath, GoesUp, Dir, AfterLookup, Nearest, Steps;
    NearestIs(d, dir);
    AfterLookupIs(d, cache, dir);
    if dir !in cache && !HasManifest(d, dir) && GoesUp(d, dir) {
      LookupIsNearest(d, cache, Dir(dir));
    }
  }

  class PackageResolver {
    const disk: Disk
    var cache: Cache

    constructor (d: Disk)
      ensures disk == d && cache == map[]
    {
      disk, cache := d, map[];
    }

    /** With the cache, whatever is in it. */
    method ForDir(dir: string) returns (pkg: string)
      modifies `cache
      ensures cache == AfterLookup(disk, old(cache), dir) && pkg == cache[dir]
      ensures old(Agrees(disk, cache)) ==> Agrees(disk, cache) && pkg == Nearest(disk, dir)
      decreases Steps(dir)
    {
      hide HasManifest, LastElement, GoesUp, Nearest, JoinPath, Dir, AfterLookup, Agrees, Steps;
      AfterLookupIs(disk, cache, dir);
      if Agrees(disk, cache) {
        LookupIsNearest(disk, cache, dir);
      }
      if dir in cache {
        return cache[dir];
      }
      pkg := "";
      if HasManifest(disk, dir) {
        pkg := LastElement(dir);
      }
      if pkg == "" {
        if GoesUp(disk, dir) {
          pkg := ForDir(Dir(dir));
        }
      }
      cache := cache[dir := pkg];
    }

    method PkgFor(rel: string) returns (pkg: string)
      modifies `cache
      ensures cache == AfterLookup(disk, old(cache), DirOf(disk, rel)) && pkg == cache[DirOf(disk, rel)]
      ensures old(Agrees(disk, cache)) ==> Agrees(disk, cache) && pkg == Nearest(disk, DirOf(disk, rel))
    {
      pkg := ForDir(DirOf(disk, rel));
    }
  }

  /** A directory name is never empty, so the empty package means no manifest was found. */
  lemma LastElementSomething(p: string)
    ensures LastElement(p) != ""
  {
    if p != "" {
      TrimmedEnd(p);
    }
  }

  lemma {:induction false} TrimmedEnd(p: string)
    ensures TrimSlashes(p) == "" || TrimSlashes(p)[|TrimSlashes(p)| - 1] != '/'
  {
    if p != "" && p[|p| - 1] == '/' {
      TrimmedEnd(p[..|p| - 1]);
    }
  }
}
