/** Slash paths, as Go's package path treats them. */
module SlashPath {
  import opened Text

  function Reduce(rooted: bool, segs: seq<string>): seq<string> {
    if segs == [] then [] else ReduceStep(rooted, Reduce(rooted, segs[..|segs| - 1]), segs[|segs| - 1])
  }

  /** Drops "" and ".", and lets ".." cancel the segment before it. */
  function ReduceStep(rooted: bool, acc: seq<string>, s: string): seq<string> {
    if s == "" || s == "." then acc
    else if s != ".." then acc + [s]
    else if acc != [] && acc[|acc| - 1] != ".." then acc[..|acc| - 1]
    else if rooted then acc
    else acc + [".."]
  }

  function Render(rooted: bool, segs: seq<string>): string {
    if rooted then "/" + Join(segs, "/")
    else if segs == [] then "."
    else Join(segs, "/")
  }

  function Clean(p: string): string {
    if p == "" then "." else
    var rooted := p[0] == '/';
    Render(rooted, Reduce(rooted, Split(p, '/')))
  }

  function JoinPath(a: string, b: string): string {
    if a == "" && b == "" then ""
    else if a == "" then Clean(b)
    else if b == "" then Clean(a)
    else Clean(a + "/" + b)
  }

  function Dir(p: string): string {
    Clean(p[..LastIndexByte(p, '/') + 1])
  }

  function LastElement(p: string): string {
    if p == "" then "." else
    var q := TrimSlashes(p);
    if q == "" then "/" else q[LastIndexByte(q, '/') + 1..]
  }

  function TrimSlashes(p: string): string {
    if p != "" && p[|p| - 1] == '/' then TrimSlashes(p[..|p| - 1]) else p
  }

  /** Segments a cleaned path is made of. */
  ghost predicate Reduced(rooted: bool, segs: seq<string>) {
    && Free(segs, '/')
    && (forall i :: 0 <= i < |segs| ==> segs[i] != "" && segs[i] != ".")
    && (forall i :: 0 <= i < |segs| && segs[i] == ".." ==> !rooted && forall j :: 0 <= j < i ==> segs[j] == "..")
  }

  lemma {:induction false} ReduceReduced(rooted: bool, segs: seq<string>)
    requires Free(segs, '/')
    ensures Reduced(rooted, Reduce(rooted, segs))
  {
    if segs != [] {
      ReduceReduced(rooted, segs[..|segs| - 1]);
    }
  }

  lemma ReduceKeeps(rooted: bool, segs: seq<string>, n: nat)
    requires Reduced(rooted, segs) && n == |segs| - 1
    ensures ReduceStep(rooted, segs[..n], segs[n]) == segs[..n] + [segs[n]] && Reduced(rooted, segs[..n])
  {
    if segs[n] == ".." && n > 0 {
      assert segs[n - 1] == "..";
    }
  }

  lemma {:induction false} ReduceFixed(rooted: bool, segs: seq<string>)
    requires Reduced(rooted, segs)
    ensures Reduce(rooted, segs) == segs
  {
    if segs != [] {
      var n := |segs| - 1;
      ReduceFixed(rooted, segs[..n]);
      ReduceKeeps(rooted, segs, n);
      hide Reduced;
      assert segs == segs[..n] + [segs[n]];
    }
  }

  lemma {:induction false} SplitFree(p: string, c: char)
    ensures Free(Split(p, c), c)
  {
    var i := IndexByte(p, c);
    if i >= 0 {
      SplitFree(p[i + 1..], c);
    }
  }

  /** Rendered reduced segments split back into themselves, after the empty segment a leading slash gives. */
  lemma RenderSplits(rooted: bool, segs: seq<string>)
    requires Reduced(rooted, segs) && (rooted || segs != [])
    ensures var p := Render(rooted, segs);
            p != "" && (p[0] == '/' <==> rooted)
            && Split(p, '/') == (if rooted then [""] else []) + (if segs == [] then [""] else segs)
  {
    if rooted {
      var p := Render(rooted, segs);
      assert p[0] == '/' && IndexByte(p, '/') == 0;
      assert p[1..] == Join(segs, "/");
      if segs == [] {
        assert Split("", '/') == [""];
      } else {
        SplitJoin(segs, '/');
      }
    } else {
      SplitJoin(segs, '/');
      JoinStarts(segs);
    }
  }

  lemma JoinStarts(segs: seq<string>)
    requires segs != [] && segs[0] != ""
    ensures Join(segs, "/") != "" && Join(segs, "/")[0] == segs[0][0]
  {
  }

  lemma {:induction false} ReduceSkipsEmpty(rooted: bool, segs: seq<string>)
    ensures Reduce(rooted, [""] + segs) == Reduce(rooted, segs)
  {
    if segs != [] {
      var n := |segs| - 1;
      ReduceSkipsEmpty(rooted, segs[..n]);
      hide ReduceStep;
      var all := [""] + segs;
      assert all[..n + 1] == [""] + segs[..n] && all[n + 1] == segs[n];
    } else {
      assert [""] + segs == [""];
      assert Reduce(rooted, [""][..0]) == [];
    }
  }

  /** Cleaning is idempotent, so cleaning the result of a join changes nothing. */
  lemma CleanIdempotent(p: string)
    ensures Clean(Clean(p)) == Clean(p)
  {
    if p == "" {
      DotClean();
    } else {
      var rooted := p[0] == '/';
      var segs := Reduce(rooted, Split(p, '/'));
      SplitFree(p, '/');
      ReduceReduced(rooted, Split(p, '/'));
      if !rooted && segs == [] {
        DotClean();
      } else {
        RenderSplits(rooted, segs);
        ReduceFixed(rooted, segs);
        if segs == [] {
          ReduceSkipsEmpty(rooted, [""]);
          ReduceSkipsEmpty(rooted, []);
          assert [""] + [] == [""];
        } else if rooted {
          ReduceSkipsEmpty(rooted, segs);
        } else {
          assert [] + segs == segs;
        }
      }
    }
  }

  lemma DotClean()
    ensures Clean(".") == "."
  {
    assert IndexByte(".", '/') == -1;
    assert Split(".", '/') == ["."];
    assert ["."][..0] == [];
    assert Reduce(false, ["."]) == [];
  }

  lemma JoinCleaned(a: string, b: string)
    requires a != "" || b != ""
    ensures Clean(JoinPath(a, b)) == JoinPath(a, b)
  {
    CleanIdempotent(a);
    CleanIdempotent(b);
    CleanIdempotent(a + "/" + b);
  }
}
