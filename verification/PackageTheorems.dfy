/** Which manifest names a file's package, by the segments of its path. */
module PackageTheorems {
  import opened Text
  import opened SlashPath
  import opened PathSegments
  import opened Packages

  /** The absolute path of these segments. */
  function Abs(segs: seq<string>): string {
    "/" + Join(segs, "/")
  }

  lemma AbsConcat(a: seq<string>, b: seq<string>)
    requires a != [] && b != []
    ensures Abs(a + b) == Abs(a) + "/" + Join(b, "/")
  {
    JoinConcat(a, b, "/");
    hide Join;
    assert "/" + (Join(a, "/") + "/" + Join(b, "/")) == "/" + Join(a, "/") + "/" + Join(b, "/");
  }

  lemma AbsClean(segs: seq<string>)
    requires segs != [] && Free(segs, '/')
    ensures Clean(Abs(segs)) == Abs(Reduce(true, segs))
  {
    var all := [""] + segs;
    assert Free(all, '/');
    assert all[1..] == segs && Join(all, "/") == Abs(segs);
    SplitJoin(all, '/');
    ReduceSkipsEmpty(true, segs);
    hide Split, Reduce, Join;
  }

  lemma PlainFixed(segs: seq<string>)
    requires Plain(segs)
    ensures Reduce(true, segs) == segs
  {
    PlainReduced(true, segs);
    ReduceFixed(true, segs);
  }

  lemma PlainParts(a: seq<string>, b: seq<string>)
    requires Plain(a + b)
    ensures Plain(a) && Plain(b)
  {
    forall i | 0 <= i < |a| ensures '/' !in a[i] && a[i] != "" && a[i] != "." && a[i] != ".." {
      assert (a + b)[i] == a[i];
    }
    forall i | 0 <= i < |b| ensures '/' !in b[i] && b[i] != "" && b[i] != "." && b[i] != ".." {
      assert (a + b)[|a| + i] == b[i];
    }
  }

  /** Joining plain segments to a directory appends them. */
  lemma AbsJoin(segs: seq<string>, sp: seq<string>)
    requires Plain(segs + sp) && sp != []
    ensures JoinPath(Abs(segs), Join(sp, "/")) == Abs(segs + sp)
  {
    PlainParts(segs, sp);
    JoinStarts(sp);
    PlainFixed(segs + sp);
    assert Free(sp, '/') && Free(segs, '/');
    var before := if segs == [] then [""] else segs;
    assert Abs(before) == Abs(segs);
    hide Reduce, Plain, Clean, Join;
    AbsConcat(before, sp);
    AbsClean(before + sp);
    if segs == [] {
      ReduceSkipsEmpty(true, sp);
      assert [] + sp == sp;
    }
  }

  /** The directory of a path is the path without its last segment. */
  lemma AbsDir(segs: seq<string>, x: string)
    requires Plain(segs + [x])
    ensures Dir(Abs(segs + [x])) == Abs(segs)
  {
    PlainParts(segs, [x]);
    assert [x][0] == x;
    PlainFixed(segs);
    ReduceSnoc(true, segs, "");
    assert Free(segs + [""], '/');
    JoinOne(x);
    JoinOne("");
    hide Plain, Reduce, Clean;
    AbsClean(segs + [""]);
    if segs == [] {
      assert [] + [x] == [x] && [] + [""] == [""];
    } else {
      AbsConcat(segs, [x]);
      AbsConcat(segs, [""]);
    }
    hide Join;
    var p := Abs(segs + [""]);
    assert p[|p| - 1] == '/' && Abs(segs + [x]) == p + x;
    LastAt(p[..|p| - 1], x, '/');
    hide LastIndexByte, Abs;
    assert p[..|p| - 1] + ['/'] == p;
    assert (p + x)[..|p|] == p;
  }

  /** The name of a directory. */
  lemma AbsName(segs: seq<string>, x: string)
    requires Plain(segs + [x])
    ensures LastElement(Abs(segs + [x])) == x
  {
    PlainParts(segs, [x]);
    assert [x][0] == x;
    JoinOne(x);
    hide Plain;
    var pre := if segs == [] then "" else Abs(segs);
    if segs == [] {
      assert [] + [x] == [x];
    } else {
      AbsConcat(segs, [x]);
    }
    hide Join;
    var p := Abs(segs + [x]);
    assert p == pre + ['/'] + x && p[|p| - 1] == x[|x| - 1];
    assert TrimSlashes(p) == p;
    LastAt(pre, x, '/');
    hide LastIndexByte, Abs;
    assert p[|pre| + 1..] == x;
  }

  // ---- the walk ----

  /** A directory holds go.mod, package.json or pyproject.toml. */
  ghost predicate HoldsManifest(dk: Disk, segs: seq<string>) {
    Abs(segs + ["go.mod"]) in dk.files || Abs(segs + ["package.json"]) in dk.files || Abs(segs + ["pyproject.toml"]) in dk.files
  }

  lemma ManifestNames()
    ensures Plain(["go.mod"]) && Plain(["package.json"]) && Plain(["pyproject.toml"])
  {
    assert ["go.mod"][0][0] == 'g' && ["package.json"][0][0] == 'p' && ["pyproject.toml"][0][0] == 'p';
  }

  lemma PlainSnoc(segs: seq<string>, x: string)
    requires Plain(segs) && Plain([x])
    ensures Plain(segs + [x])
  {
    assert [x][0] == x;
  }

  lemma ManifestAt(dk: Disk, segs: seq<string>, name: string)
    requires Plain(segs) && Plain([name])
    ensures JoinPath(Abs(segs), name) == Abs(segs + [name])
  {
    PlainSnoc(segs, name);
    JoinOne(name);
    hide *;
    AbsJoin(segs, [name]);
  }

  lemma ManifestIs(dk: Disk, segs: seq<string>)
    requires Plain(segs)
    ensures HasManifest(dk, Abs(segs)) <==> HoldsManifest(dk, segs)
  {
    ManifestNames();
    ManifestAt(dk, segs, "go.mod");
    ManifestAt(dk, segs, "package.json");
    ManifestAt(dk, segs, "pyproject.toml");
    hide Abs, JoinPath, Plain;
    assert MANIFEST_NAMES[0] == "go.mod" && MANIFEST_NAMES[1] == "package.json" && MANIFEST_NAMES[2] == "pyproject.toml";
  }

  lemma AbsLonger(a: seq<string>, b: seq<string>)
    requires Plain(a + b) && b != []
    ensures HasPrefix(Abs(a + b), Abs(a)) && |Abs(a)| < |Abs(a + b)|
  {
    PlainParts(a, b);
    JoinStarts(b);
    hide Plain, Join;
    if a == [] {
      assert a + b == b && Abs(a) == "/" by { EmptyAbs(); }
    } else {
      AbsConcat(a, b);
    }
    hide Abs;
    Begins(Abs(a), if a == [] then Join(b, "/") else "/" + Join(b, "/"));
  }

  lemma EmptyAbs()
    ensures Abs([]) == "/"
  {
  }

  lemma Begins(p: string, s: string)
    ensures HasPrefix(p + s, p)
  {
  }

  /** The walk goes up exactly below the work directory. */
  lemma GoesUpBelow(dk: Disk, ws: seq<string>, d: seq<string>)
    requires dk.workDir == Abs(ws) && Plain(ws + d)
    ensures GoesUp(dk, Abs(ws + d)) <==> d != []
    ensures d != [] ==> Dir(Abs(ws + d)) == Abs(ws + d[..|d| - 1])
  {
    hide Plain, Abs, Dir;
    if d != [] {
      var up, x := ws + d[..|d| - 1], d[|d| - 1];
      assert ws + d == up + [x];
      AbsDir(up, x);
      AbsLonger(up, [x]);
      AbsLonger(ws, d);
      PlainParts(up, [x]);
      if d[..|d| - 1] == [] {
        assert up == ws;
      } else {
        AbsLonger(ws, d[..|d| - 1]);
      }
    } else {
      assert ws + d == ws;
      if ws == [] {
        RootStays();
      } else {
        var up, x := ws[..|ws| - 1], ws[|ws| - 1];
        assert ws == up + [x];
        AbsDir(up, x);
        AbsLonger(up, [x]);
      }
    }
  }

  lemma RootStays()
    ensures Dir(Abs([])) == Abs([])
  {
    hide Dir;
    RootDir();
    assert Abs([]) == "/";
  }

  /** The name of the directory that is nearest to ws/d, up to and including ws, and holds a manifest; empty if there is none. */
  ghost predicate NearestManifest(dk: Disk, ws: seq<string>, d: seq<string>, r: string) {
    || (exists k :: 0 <= k <= |d| && NamedAt(dk, ws, d, k, r))
    || (r == "" && forall m :: 0 <= m <= |d| ==> !HoldsManifest(dk, ws + d[..m]))
  }

  ghost predicate NamedAt(dk: Disk, ws: seq<string>, d: seq<string>, k: int, r: string)
    requires 0 <= k <= |d|
  {
    && HoldsManifest(dk, ws + d[..k])
    && (forall m :: k < m <= |d| ==> !HoldsManifest(dk, ws + d[..m]))
    && r == if ws + d[..k] == [] then "/" else (ws + d[..k])[|ws + d[..k]| - 1]
  }

  lemma {:induction false} NearestIsNamed(dk: Disk, ws: seq<string>, d: seq<string>)
    requires dk.workDir == Abs(ws) && Plain(ws + d)
    ensures NearestManifest(dk, ws, d, Nearest(dk, Abs(ws + d)))
    decreases |d|
  {
    hide *;
    var r := Nearest(dk, Abs(ws + d));
    ManifestIs(dk, ws + d);
    GoesUpBelow(dk, ws, d);
    Packages.NearestIs(dk, Abs(ws + d));
    if HoldsManifest(dk, ws + d) {
      NameOf(ws + d);
      NamedHere(dk, ws, d, r);
    } else if d != [] {
      var up := d[..|d| - 1];
      assert ws + d == (ws + up) + [d[|d| - 1]];
      PlainParts(ws + up, [d[|d| - 1]]);
      NearestIsNamed(dk, ws, up);
      NamedAbove(dk, ws, d, r);
    } else {
      NamedNowhere(dk, ws, r);
    }
  }

  lemma NamedHere(dk: Disk, ws: seq<string>, d: seq<string>, r: string)
    requires HoldsManifest(dk, ws + d) && r == if ws + d == [] then "/" else (ws + d)[|ws + d| - 1]
    ensures NearestManifest(dk, ws, d, r)
  {
    hide HoldsManifest;
    assert d[..|d|] == d;
    assert NamedAt(dk, ws, d, |d|, r);
  }

  lemma NamedAbove(dk: Disk, ws: seq<string>, d: seq<string>, r: string)
    requires d != [] && !HoldsManifest(dk, ws + d) && NearestManifest(dk, ws, d[..|d| - 1], r)
    ensures NearestManifest(dk, ws, d, r)
  {
    hide HoldsManifest;
    var up := d[..|d| - 1];
    assert forall m :: 0 <= m <= |up| ==> up[..m] == d[..m];
    assert d[..|d|] == d;
    if k :| 0 <= k <= |up| && NamedAt(dk, ws, up, k, r) {
      assert NamedAt(dk, ws, d, k, r);
    }
  }

  lemma NamedNowhere(dk: Disk, ws: seq<string>, r: string)
    requires !HoldsManifest(dk, ws + []) && r == ""
    ensures NearestManifest(dk, ws, [], r)
  {
    hide HoldsManifest;
    var d: seq<string> := [];
    assert d[..0] == [];
  }

  lemma NameOf(segs: seq<string>)
    requires Plain(segs)
    ensures LastElement(Abs(segs)) == if segs == [] then "/" else segs[|segs| - 1]
  {
    if segs == [] {
      assert TrimSlashes("/") == "" by { assert "/"[..0] == ""; }
    } else {
      assert segs == segs[..|segs| - 1] + [segs[|segs| - 1]];
      hide *;
      AbsName(segs[..|segs| - 1], segs[|segs| - 1]);
    }
  }

  /** The package of a file is named after the directory that is nearest to it and holds a manifest, up to and including
      the work directory. */
  lemma PackageIs(dk: Disk, ws: seq<string>, d: seq<string>, f: string)
    requires dk.workDir == Abs(ws) && Plain(ws + d + [f])
    ensures NearestManifest(dk, ws, d, Nearest(dk, DirOf(dk, Join(d + [f], "/"))))
  {
    assert ws + (d + [f]) == (ws + d) + [f];
    PlainParts(ws + d, [f]);
    hide *;
    AbsJoin(ws, d + [f]);
    AbsDir(ws + d, f);
    DirOfIs(dk, Join(d + [f], "/"));
    NearestIsNamed(dk, ws, d);
  }

  lemma DirOfIs(dk: Disk, rel: string)
    ensures DirOf(dk, rel) == Dir(JoinPath(dk.workDir, rel))
  {
  }
}
