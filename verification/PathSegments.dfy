/** Paths by their segments: what cleaning, joining and taking the directory do to them. */
module PathSegments {
  import opened Text
  import opened SlashPath

  // ---- joining and splitting ----

  lemma {:induction false} JoinConcat(a: seq<string>, b: seq<string>, sep: string)
    requires a != [] && b != []
    ensures Join(a + b, sep) == Join(a, sep) + sep + Join(b, sep)
  {
    if |a| == 1 {
      assert (a + b)[1..] == b;
    } else {
      JoinConcat(a[1..], b, sep);
      assert (a + b)[1..] == a[1..] + b;
      hide Join;
      assert a[0] + sep + (Join(a[1..], sep) + sep + Join(b, sep)) == a[0] + sep + Join(a[1..], sep) + sep + Join(b, sep);
    }
  }

  lemma SplitCut(x: string, y: string, c: char)
    requires c !in x
    ensures Split(x, c) == [x] && Split(x + [c] + y, c) == [x] + Split(y, c)
  {
    var s := x + [c] + y;
    var j := IndexByte(s, c);
    assert s[|x|] == c;
    assert s == s[..j] + [c] + s[j + 1..];
    CutUnique(x, y, s[..j], s[j + 1..], c);
  }

  lemma {:induction false} SplitConcat(a: string, b: string, c: char)
    ensures Split(a + [c] + b, c) == Split(a, c) + Split(b, c)
    decreases |a|
  {
    hide Split;
    var i := IndexByte(a, c);
    if i < 0 {
      SplitCut(a, b, c);
    } else {
      var x, y := a[..i], a[i + 1..];
      assert a == x + [c] + y;
      SplitCut(x, y, c);
      SplitCut(x, y + [c] + b, c);
      SplitConcat(y, b, c);
      assert a + [c] + b == x + [c] + (y + [c] + b);
      assert [x] + (Split(y, c) + Split(b, c)) == [x] + Split(y, c) + Split(b, c);
    }
  }

  /** The segment x stands inside a path, with a segment before and one after it. */
  ghost predicate Inside(segs: seq<string>, x: string) {
    exists i :: 0 < i < |segs| - 1 && segs[i] == x
  }

  /** A path mentions /x/ exactly when x is one of its inner segments. */
  lemma ContainsSegment(segs: seq<string>, x: string)
    requires segs != [] && Free(segs, '/') && '/' !in x
    ensures Contains(Join(segs, "/"), "/" + x + "/") <==> Inside(segs, x)
  {
    hide Join, Split, Free, Contains;
    if Contains(Join(segs, "/"), "/" + x + "/") {
      var before, after := Occurs(Join(segs, "/"), "/" + x + "/");
      OccursInside(segs, x, before, after);
    }
    if i :| 0 < i < |segs| - 1 && segs[i] == x {
      InsideOccurs(segs, x, i);
    }
  }

  lemma Occurs(s: string, sub: string) returns (before: string, after: string)
    requires Contains(s, sub)
    ensures s == before + sub + after
  {
    var i :| 0 <= i <= |s| - |sub| && s[i..][..|sub|] == sub;
    before, after := s[..i], s[i + |sub|..];
    assert s[i..][|sub|..] == after;
    assert s == s[..i] + s[i..] && s[i..] == s[i..][..|sub|] + s[i..][|sub|..];
  }

  lemma OccursContains(before: string, sub: string, after: string)
    ensures Contains(before + sub + after, sub)
  {
    var s := before + sub + after;
    assert s[|before|..][..|sub|] == sub;
  }

  lemma OccursInside(segs: seq<string>, x: string, before: string, after: string)
    requires segs != [] && Free(segs, '/') && '/' !in x && Join(segs, "/") == before + ("/" + x + "/") + after
    ensures Inside(segs, x)
  {
    hide Join, Split, Free;
    assert Join(segs, "/") == before + ['/'] + (x + ['/'] + after);
    SplitConcat(before, x + ['/'] + after, '/');
    SplitCut(x, after, '/');
    SplitJoin(segs, '/');
    var k := |Split(before, '/')|;
    assert segs == Split(before, '/') + ([x] + Split(after, '/'));
    assert segs[k] == x;
  }

  lemma InsideOccurs(segs: seq<string>, x: string, i: nat)
    requires 0 < i < |segs| - 1 && segs[i] == x
    ensures Contains(Join(segs, "/"), "/" + x + "/")
  {
    hide *;
    assert segs == segs[..i] + segs[i..];
    assert segs[i..] == [x] + segs[i + 1..];
    JoinConcat(segs[..i], segs[i..], "/");
    JoinConcat([x], segs[i + 1..], "/");
    JoinOne(x);
    Regrouped(Join(segs[..i], "/"), x, Join(segs[i + 1..], "/"));
    OccursContains(Join(segs[..i], "/"), "/" + x + "/", Join(segs[i + 1..], "/"));
  }

  lemma Regrouped(before: string, x: string, after: string)
    ensures before + "/" + (x + "/" + after) == before + ("/" + x + "/") + after
  {
  }

  lemma JoinOne(x: string)
    ensures Join([x], "/") == x
  {
  }

  /** The last separator stands before a separator-free end. */
  lemma {:induction false} LastAt(dir: string, f: string, c: char)
    requires c !in f
    ensures LastIndexByte(dir + [c] + f, c) == |dir|
  {
    if f == "" {
      assert dir + [c] + f == dir + [c];
    } else {
      var g := f[..|f| - 1];
      LastAt(dir, g, c);
      assert dir + [c] + f == (dir + [c] + g) + [f[|f| - 1]];
      LastSnoc(dir + [c] + g, f[|f| - 1], c);
    }
  }

  lemma LastSnoc(s: string, x: char, c: char)
    ensures LastIndexByte(s + [x], c) == if x == c then |s| else LastIndexByte(s, c)
  {
    assert (s + [x])[..|s|] == s;
  }

  // ---- reducing ----

  /** Ordinary names: no separator, not empty, not a dot segment. */
  ghost predicate Plain(segs: seq<string>) {
    Free(segs, '/') && forall i :: 0 <= i < |segs| ==> segs[i] != "" && segs[i] != "." && segs[i] != ".."
  }

  lemma PlainReduced(rooted: bool, segs: seq<string>)
    requires Plain(segs)
    ensures Reduced(rooted, segs)
  {
  }

  lemma ReduceSnoc(rooted: bool, a: seq<string>, x: string)
    ensures Reduce(rooted, a + [x]) == ReduceStep(rooted, Reduce(rooted, a), x)
  {
    assert (a + [x])[..|a|] == a;
  }

  /** Reducing a part first changes nothing. */
  lemma {:induction false} ReduceAgain(rooted: bool, a: seq<string>, b: seq<string>)
    requires Free(a, '/')
    ensures Reduce(rooted, Reduce(rooted, a) + b) == Reduce(rooted, a + b)
  {
    hide Reduce, ReduceStep;
    if b == [] {
      assert a + b == a && Reduce(rooted, a) + b == Reduce(rooted, a);
      ReduceReduced(rooted, a);
      ReduceFixed(rooted, Reduce(rooted, a));
    } else {
      var init, x := b[..|b| - 1], b[|b| - 1];
      ReduceAgain(rooted, a, init);
      ReduceSnoc(rooted, a + init, x);
      ReduceSnoc(rooted, Reduce(rooted, a) + init, x);
      assert a + b == a + init + [x] && Reduce(rooted, a) + b == Reduce(rooted, a) + init + [x];
    }
  }

  /** The directory above; above the start of a relative path it is a dot-dot. */
  function Parent(segs: seq<string>): seq<string> {
    if segs != [] && segs[|segs| - 1] != ".." then segs[..|segs| - 1] else segs + [".."]
  }

  /** A dot segment goes nowhere, a dot-dot goes to the parent, a name goes down. */
  lemma ReduceSteps(segs: seq<string>, n: string)
    requires Reduced(false, segs) && Plain([n])
    ensures Reduce(false, segs + [".", n]) == segs + [n] && Reduce(false, segs + [n]) == segs + [n]
    ensures Reduce(false, segs + ["..", n]) == Parent(segs) + [n]
    ensures Reduced(false, segs + [n]) && Reduced(false, Parent(segs) + [n])
  {
    hide Reduce;
    ReduceFixed(false, segs);
    assert [n][0] == n;
    ReduceSnoc(false, segs, n);
    ReduceSnoc(false, segs, ".");
    ReduceSnoc(false, segs, "..");
    ReduceSnoc(false, segs + ["."], n);
    ReduceSnoc(false, segs + [".."], n);
    assert segs + [".", n] == segs + ["."] + [n] && segs + ["..", n] == segs + [".."] + [n];
    ParentReduced(segs);
    NameReduced(segs, n);
    NameReduced(Parent(segs), n);
  }

  lemma ParentReduced(segs: seq<string>)
    requires Reduced(false, segs)
    ensures Reduced(false, Parent(segs))
  {
  }

  lemma NameReduced(segs: seq<string>, n: string)
    requires Reduced(false, segs) && Plain([n])
    ensures Reduced(false, segs + [n])
  {
    assert [n][0] == n;
  }

  // ---- whole paths ----

  /** How a cleaned relative path is written. */
  function PathOf(segs: seq<string>): string {
    if segs == [] then "." else Join(segs, "/")
  }

  /** Cleaning a relative path reduces its segments. */
  lemma CleanSegments(segs: seq<string>)
    requires segs != [] && Free(segs, '/') && segs[0] != ""
    ensures Clean(Join(segs, "/")) == PathOf(Reduce(false, segs))
  {
    SplitJoin(segs, '/');
    JoinStarts(segs);
    hide Split, Reduce, Join;
  }

  /** The directory of d/f is d. */
  lemma DirSegments(d: seq<string>, f: string)
    requires Reduced(false, d) && '/' !in f
    ensures Dir(Join(d + [f], "/")) == PathOf(d)
  {
    JoinOne(f);
    if d == [] {
      assert d + [f] == [f];
      assert LastIndexByte(f, '/') == -1;
      assert f[..0] == "";
    } else {
      JoinConcat(d, [f], "/");
      var dir := Join(d, "/");
      var p := dir + "/" + f;
      var i := LastIndexByte(p, '/');
      assert p[|dir|] == '/';
      assert p == p[..i] + ['/'] + p[i + 1..];
      LastCutUnique(dir, f, p[..i], p[i + 1..], '/');
      assert p[..i + 1] == dir + "/";
      TrailingSlash(d);
    }
  }

  lemma TrailingSlash(d: seq<string>)
    requires d != [] && Reduced(false, d)
    ensures Clean(Join(d, "/") + "/") == Join(d, "/")
  {
    var all := d + [""];
    JoinConcat(d, [""], "/");
    JoinOne("");
    assert Join(all, "/") == Join(d, "/") + "/";
    hide Join;
    CleanSegments(all);
    ReduceFixed(false, d);
    ReduceSnoc(false, d, "");
  }

  /** Joining a relative path to a directory reduces their segments together. */
  lemma JoinSegments(d: seq<string>, sp: seq<string>)
    requires Reduced(false, d) && sp != [] && Free(sp, '/') && sp[0] != ""
    ensures JoinPath(PathOf(d), Join(sp, "/")) == PathOf(Reduce(false, d + sp))
  {
    var a := if d == [] then ["."] else d;
    assert PathOf(d) == Join(a, "/");
    JoinStarts(a);
    JoinStarts(sp);
    JoinConcat(a, sp, "/");
    hide Join, PathOf;
    CleanSegments(a + sp);
    if d == [] {
      assert a[..0] == [];
      assert Reduce(false, a) == [];
      ReduceAgain(false, a, sp);
      assert [] + sp == sp;
    }
  }
}
