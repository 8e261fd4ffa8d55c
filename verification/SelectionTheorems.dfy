/** Which files a run indexes, what it writes for them and what it counts. */
module SelectionTheorems {
  import opened Base
  import opened Ids
  import opened Text
  import opened Digests
  import opened PathSegments
  import opened Extraction
  import opened CodeTables
  import opened CodeView
  import opened CodeStore
  import opened Scanning
  import opened Indexing
  import opened MetadataTheorems

  // ---- selection ----

  /** A file that can be read, is no larger than the limit if there is one, and has no NUL among its first 8000
      characters. */
  ghost predicate Indexable(w: World, p: Path) {
    && p in w.tree
    && (w.maxFileSize <= 0 || |w.tree[p]| <= w.maxFileSize)
    && forall i :: 0 <= i < |w.tree[p]| && i < 8000 ==> w.tree[p][i] != NUL
  }

  lemma BinaryIs(content: string)
    ensures IsBinary(content) <==> exists i :: 0 <= i < |content| && i < 8000 && content[i] == NUL
  {
    var head := if |content| > 8000 then content[..8000] else content;
    if NUL in head {
      var i :| 0 <= i < |head| && head[i] == NUL;
      assert content[i] == NUL;
    }
    if i :| 0 <= i < |content| && i < 8000 && content[i] == NUL {
      assert head[i] == NUL;
    }
  }

  /** The three reasons for leaving a file out, each with its exact condition; the first that holds is reported. */
  lemma SkippedIs(w: World, p: Path)
    ensures SkipOf(w, p) == NotSkipped <==> Indexable(w, p)
    ensures SkipOf(w, p) == Unreadable <==> p !in w.tree
    ensures SkipOf(w, p) == Oversized <==> p in w.tree && 0 < w.maxFileSize < |w.tree[p]|
    ensures SkipOf(w, p) == Binary <==>
      && p in w.tree && !(0 < w.maxFileSize < |w.tree[p]|)
      && exists i :: 0 <= i < |w.tree[p]| && i < 8000 && w.tree[p][i] == NUL
  {
    if p in w.tree {
      BinaryIs(w.tree[p]);
    }
    hide IsBinary;
  }

  lemma IndexableReadable(w: World, p: Path)
    ensures Indexable(w, p) ==> p in w.tree
  {
  }

  lemma CandidateAt(cands: seq<Candidate>, p: Path) returns (c: Candidate)
    requires p in RelSet(cands)
    ensures c in cands && c.rel == p
  {
    c :| c in cands && c.rel == p;
  }

  lemma InRelSet(cands: seq<Candidate>, c: Candidate)
    requires c in cands
    ensures c.rel in RelSet(cands)
  {
  }

  /** A full run indexes exactly the selected files that are indexable. */
  lemma FullSelects(t: Tables, w: World, cands: seq<Candidate>, s: Stamp, p: Path)
    requires Consistent(t) && DistinctRels(cands)
    ensures Linked(AfterRun(t, w, Full, cands, s))
    ensures p in ViewOf(AfterRun(t, w, Full, cands, s)) <==> p in RelSet(cands) && Indexable(w, p)
  {
    ConsistentLinked(t);
    SkippedIs(w, p);
    hide *;
    RunView(t, w, Full, cands, s);
    ConsistentLinked(AfterRun(t, w, Full, cands, s));
    ScanViewIs(t, w, Full, cands);
    ScannedPath(w, cands, HashesOf(t), true, p);
  }

  /** p is among what a scan writes exactly when it is selected, indexable and, unless everything is, changed. */
  lemma ScannedPath(w: World, cands: seq<Candidate>, existing: map<Path, Digest>, full: bool, p: Path)
    requires DistinctRels(cands)
    ensures full ==> (p in ParsedView(ScanAll(w, cands, existing, full, true)) <==> p in RelSet(cands) && SkipOf(w, p) == NotSkipped)
    ensures p in ParsedView(ScanAll(w, cands, existing, full, true)) ==> p in RelSet(cands) && SkipOf(w, p) == NotSkipped
    ensures p in RelSet(cands) && SkipOf(w, p) == NotSkipped && p !in existing ==> p in ParsedView(ScanAll(w, cands, existing, full, true))
  {
    ParsedViewOfScan(w, cands, existing, full);
    hide ParsedView, ScanAll, GroupNow, SkipOf, ContentHash;
    if p in RelSet(cands) {
      var c := CandidateAt(cands, p);
      assert ScanEntry(w, c, existing, full, ParsedView(ScanAll(w, cands, existing, full, true)));
      UnstoredIsChanged(w, c, existing);
      RescannedIs(w, c, existing, full);
    }
  }

  lemma RescannedIs(w: World, c: Candidate, existing: map<Path, Digest>, full: bool)
    ensures full ==> (Rescanned(w, c, existing, full) <==> SkipOf(w, c.rel) == NotSkipped)
    ensures Rescanned(w, c, existing, full) ==> SkipOf(w, c.rel) == NotSkipped
    ensures SkipOf(w, c.rel) == NotSkipped ==> (IsChanged(w, c, existing) ==> Rescanned(w, c, existing, full))
  {
    hide IsBinary;
  }

  lemma UnstoredIsChanged(w: World, c: Candidate, existing: map<Path, Digest>)
    ensures SkipOf(w, c.rel) == NotSkipped && c.rel !in existing ==> c.rel in w.tree && IsChanged(w, c, existing)
  {
    hide IsBinary;
  }

  lemma HashedPaths(t: Tables)
    requires Linked(t)
    ensures HashesOf(t).Keys == ViewOf(t).Keys
  {
    hide ViewOf;
  }

  /** An incremental run leaves the selected files that are indexable or were indexed already. */
  lemma IncrementalSelects(t: Tables, w: World, cands: seq<Candidate>, s: Stamp, p: Path)
    requires Consistent(t) && DistinctRels(cands)
    ensures Linked(AfterRun(t, w, Incremental, cands, s))
    ensures p in ViewOf(AfterRun(t, w, Incremental, cands, s)) <==> p in RelSet(cands) && (Indexable(w, p) || p in ViewOf(t))
  {
    ConsistentLinked(t);
    SkippedIs(w, p);
    HashedPaths(t);
    hide *;
    RunView(t, w, Incremental, cands, s);
    ConsistentLinked(AfterRun(t, w, Incremental, cands, s));
    ScanViewIs(t, w, Incremental, cands);
    ScannedPath(w, cands, HashesOf(t), false, p);
  }

  /** A run over changed files only adds to what was indexed. */
  lemma ChangedSelects(t: Tables, w: World, cands: seq<Candidate>, s: Stamp, p: Path)
    requires Consistent(t) && DistinctRels(cands)
    ensures Linked(AfterRun(t, w, Changed, cands, s))
    ensures p in ViewOf(AfterRun(t, w, Changed, cands, s)) <==> p in ViewOf(t) || (p in RelSet(cands) && Indexable(w, p))
  {
    ConsistentLinked(t);
    SkippedIs(w, p);
    HashedPaths(t);
    hide *;
    RunView(t, w, Changed, cands, s);
    ConsistentLinked(AfterRun(t, w, Changed, cands, s));
    ScanViewIs(t, w, Changed, cands);
    ScannedPath(w, cands, HashesOf(t), false, p);
  }

  // ---- what is written ----

  /** The rows of a selected file, field by field. */
  ghost predicate Written(w: World, c: Candidate, g: Group)
    requires c.rel in w.tree
  {
    && g.file.path == c.rel && g.file.pkg == w.pkgOf(c.rel) && g.file.role == DeriveRole(c.rel)
    && (if c.tracked then g.file.blobOid == BlobOid(w.tree[c.rel]) && g.file.contentSha == NoDigest
        else g.file.blobOid == NoDigest && g.file.contentSha == Sha256(w.tree[c.rel]))
    && match w.registry.languageOf(c.rel)
       case None => g.file.language == "" && !g.file.grainEligible && NoRows(g)
       case Some(lang) =>
         && g.file.language == lang && g.file.grainEligible
         && match w.registry.parse(lang, w.tree[c.rel])
            case None => NoRows(g)
            case Some(ir) =>
              && SymbolRows(Dedupe(ir.symbols), g.symbols)
              && g.derived.imports == ir.imports && g.derived.exports == ir.exports && g.derived.todos == ir.todos
  }

  ghost predicate NoRows(g: Group) {
    g.symbols == [] && g.derived == Derived([], [], [])
  }

  ghost predicate SymbolRows(syms: seq<Symbol>, rows: seq<SymbolRecord>) {
    && |rows| == |syms|
    && forall i :: 0 <= i < |syms| ==>
         && rows[i].name == syms[i].name && rows[i].kind == syms[i].kind && rows[i].container == syms[i].container
         && rows[i].signature == syms[i].signature && rows[i].exported == syms[i].exported
  }

  lemma NowIsWritten(w: World, c: Candidate)
    ensures SkipOf(w, c.rel) == NotSkipped ==> Written(w, c, GroupNow(w, c))
  {
    hide IsBinary, DeriveRole, Dedupe;
  }

  /** A full run writes exactly these rows for every selected indexable file. */
  lemma FullWrites(t: Tables, w: World, cands: seq<Candidate>, s: Stamp, c: Candidate)
    requires Consistent(t) && DistinctRels(cands) && c in cands && Indexable(w, c.rel)
    ensures Linked(AfterRun(t, w, Full, cands, s))
    ensures c.rel in ViewOf(AfterRun(t, w, Full, cands, s)) && Written(w, c, ViewOf(AfterRun(t, w, Full, cands, s))[c.rel])
  {
    ConsistentLinked(t);
    SkippedIs(w, c.rel);
    IndexableReadable(w, c.rel);
    hide *;
    RunView(t, w, Full, cands, s);
    ConsistentLinked(AfterRun(t, w, Full, cands, s));
    ScanViewIs(t, w, Full, cands);
    NowIsWritten(w, c);
    ScannedGroup(w, cands, HashesOf(t), true, c);
  }

  lemma ScannedGroup(w: World, cands: seq<Candidate>, existing: map<Path, Digest>, full: bool, c: Candidate)
    requires DistinctRels(cands) && c in cands && SkipOf(w, c.rel) == NotSkipped
    ensures var v := ParsedView(ScanAll(w, cands, existing, full, true));
            && (c.rel in v <==> full || (c.rel in w.tree && IsChanged(w, c, existing)))
            && (c.rel in v ==> v[c.rel] == GroupNow(w, c))
  {
    ParsedViewOfScan(w, cands, existing, full);
    hide ParsedView, ScanAll, GroupNow, ContentHash;
    assert ScanEntry(w, c, existing, full, ParsedView(ScanAll(w, cands, existing, full, true)));
  }

  /** An incremental run writes the same rows for a file that is not indexed. */
  lemma IncrementalWritesNew(t: Tables, w: World, cands: seq<Candidate>, s: Stamp, c: Candidate)
    requires Consistent(t) && DistinctRels(cands) && c in cands && Indexable(w, c.rel) && c.rel !in ViewOf(t)
    ensures Linked(AfterRun(t, w, Incremental, cands, s))
    ensures var v := ViewOf(AfterRun(t, w, Incremental, cands, s)); c.rel in v && Written(w, c, v[c.rel])
  {
    ConsistentLinked(t);
    SkippedIs(w, c.rel);
    HashedPaths(t);
    IndexableReadable(w, c.rel);
    InRelSet(cands, c);
    hide *;
    RunView(t, w, Incremental, cands, s);
    ConsistentLinked(AfterRun(t, w, Incremental, cands, s));
    ScanViewIs(t, w, Incremental, cands);
    NowIsWritten(w, c);
    UnstoredIsChanged(w, c, HashesOf(t));
    ScannedGroup(w, cands, HashesOf(t), false, c);
  }

  /** For a file indexed from some content, it keeps the rows exactly when the file cannot be indexed now or has the
      same content under the same tracking, and otherwise writes new ones. */
  lemma IncrementalWritesChanged(t: Tables, w: World, cands: seq<Candidate>, s: Stamp, c: Candidate, was: string, wasTracked: bool, pkg: string)
    requires Consistent(t) && DistinctRels(cands) && c in cands && c.rel in ViewOf(t)
    requires ViewOf(t)[c.rel] == GroupFor(w.registry, c.rel, was, wasTracked, pkg)
    ensures Linked(AfterRun(t, w, Incremental, cands, s))
    ensures var v := ViewOf(AfterRun(t, w, Incremental, cands, s));
            && c.rel in v
            && if !Indexable(w, c.rel) || (w.tree[c.rel] == was && c.tracked == wasTracked) then v[c.rel] == ViewOf(t)[c.rel]
               else Written(w, c, v[c.rel])
  {
    ConsistentLinked(t);
    SkippedIs(w, c.rel);
    HashedAt(t, c.rel);
    IndexableReadable(w, c.rel);
    InRelSet(cands, c);
    GroupHash(w.registry, c.rel, was, wasTracked, pkg);
    hide *;
    RunView(t, w, Incremental, cands, s);
    ConsistentLinked(AfterRun(t, w, Incremental, cands, s));
    ScanViewIs(t, w, Incremental, cands);
    NowIsWritten(w, c);
    if Indexable(w, c.rel) {
      ScannedGroup(w, cands, HashesOf(t), false, c);
      ChangedIs(w, c, HashesOf(t), was, wasTracked);
    } else {
      ScannedPath(w, cands, HashesOf(t), false, c.rel);
    }
  }

  lemma HashedAt(t: Tables, p: Path)
    requires Linked(t) && p in ViewOf(t)
    ensures p in HashesOf(t) && HashesOf(t)[p] == EffectiveHash(ViewOf(t)[p].file)
  {
    hide ViewOf;
  }

  lemma GroupHash(reg: Registry, p: Path, content: string, tracked: bool, pkg: string)
    ensures EffectiveHash(GroupFor(reg, p, content, tracked, pkg).file) == ContentHash(content, tracked)
  {
    hide DeriveRole, Dedupe;
  }

  lemma ChangedIs(w: World, c: Candidate, existing: map<Path, Digest>, was: string, wasTracked: bool)
    requires c.rel in w.tree && c.rel in existing && existing[c.rel] == ContentHash(was, wasTracked)
    ensures IsChanged(w, c, existing) <==> !(w.tree[c.rel] == was && c.tracked == wasTracked)
  {
  }

  // ---- roles ----

  /** The segments in lower case. */
  function LowerSegments(segs: seq<string>): (r: seq<string>)
    ensures |r| == |segs|
    ensures forall i :: 0 <= i < |segs| ==> r[i] == ToLower(segs[i])
  {
    seq(|segs|, i requires 0 <= i < |segs| => ToLower(segs[i]))
  }

  lemma LowerConcat(a: string, b: string)
    ensures ToLower(a + b) == ToLower(a) + ToLower(b)
  {
    hide LowerChar;
  }

  lemma LowerFree(s: string, c: char)
    requires c !in s && c == '/'
    ensures c !in ToLower(s)
  {
  }

  lemma SlashLower()
    ensures ToLower("/") == "/"
  {
  }

  lemma {:induction false} LowerJoin(segs: seq<string>)
    ensures ToLower(Join(segs, "/")) == Join(LowerSegments(segs), "/")
  {
    SlashLower();
    hide ToLower;
    if segs == [] {
      EmptyLower();
    } else if |segs| > 1 {
      LowerJoin(segs[1..]);
      LowerConcat(segs[0] + "/", Join(segs[1..], "/"));
      LowerConcat(segs[0], "/");
      assert LowerSegments(segs)[1..] == LowerSegments(segs[1..]);
    }
  }

  lemma EmptyLower()
    ensures ToLower("") == ""
  {
  }

  lemma LowerSegmentsFree(segs: seq<string>)
    requires Free(segs, '/')
    ensures Free(LowerSegments(segs), '/')
  {
    hide ToLower;
    forall i | 0 <= i < |segs| ensures '/' !in LowerSegments(segs)[i] {
      LowerFree(segs[i], '/');
    }
  }

  lemma BaseIs(d: seq<string>, f: string)
    requires '/' !in f
    ensures BaseName(Join(d + [f], "/")) == f
  {
    JoinOne(f);
    if d == [] {
      assert d + [f] == [f];
      assert LastIndexByte(f, '/') == -1;
    } else {
      var dir := Join(d, "/");
      JoinConcat(d, [f], "/");
      LastAt(dir, f, '/');
      hide LastIndexByte, Join;
      assert dir + "/" + f == dir + ['/'] + f;
      assert (dir + ['/'] + f)[|dir| + 1..] == f;
    }
  }

  /** The name of a test file, in lower case. */
  ghost predicate TestName(f: string) {
    HasSuffix(f, "_test.go") || Contains(f, ".test.") || Contains(f, ".spec.")
  }

  /** A file is a test by its name or because a directory between its first and last segment is named __tests__, in any
      case; other Markdown files are documents and the rest is implementation. */
  lemma RoleIs(d: seq<string>, f: string)
    requires Free(d + [f], '/')
    ensures var role, test := DeriveRole(Join(d + [f], "/")), TestName(ToLower(f)) || Inside(LowerSegments(d + [f]), "__tests__");
            && (role == "test" <==> test)
            && (role == "doc" <==> !test && (HasSuffix(ToLower(f), ".md") || HasSuffix(ToLower(f), ".markdown")))
            && (role == "impl" || role == "doc" || role == "test")
  {
    assert (d + [f])[|d|] == f;
    BaseIs(d, f);
    LowerJoin(d + [f]);
    LowerSegmentsFree(d + [f]);
    ContainsSegment(LowerSegments(d + [f]), "__tests__");
    assert "/" + "__tests__" + "/" == "/__tests__/";
    hide Join, ToLower, BaseName, Contains, HasSuffix, Inside, LowerSegments;
  }

  // ---- counters ----

  /** The selected files the scan leaves out for this reason, or does not. */
  function Outcomes(w: World, cands: seq<Candidate>, skip: Skip): set<Path> {
    set p | p in RelSet(cands) && SkipOf(w, p) == skip
  }

  ghost predicate Counted(w: World, cands: seq<Candidate>, written: set<Path>, r: Counts) {
    && r.skippedUnreadable == |Outcomes(w, cands, Unreadable)|
    && r.skippedOversized == |Outcomes(w, cands, Oversized)|
    && r.skippedBinary == |Outcomes(w, cands, Binary)|
    && r.indexed == |written|
    && r.kept == |Outcomes(w, cands, NotSkipped) - written|
  }

  lemma OutcomesSnoc(w: World, cands: seq<Candidate>, c: Candidate, skip: Skip)
    requires c.rel !in RelSet(cands)
    ensures Outcomes(w, cands + [c], skip) == Outcomes(w, cands, skip) + if SkipOf(w, c.rel) == skip then {c.rel} else {}
    ensures c.rel !in Outcomes(w, cands, skip)
  {
    RelSetSnoc(cands, c);
    hide RelSet, SkipOf;
  }

  lemma CountedSnoc(w: World, cands: seq<Candidate>, c: Candidate, existing: map<Path, Digest>, full: bool, written: set<Path>, r: Counts)
    requires c.rel !in RelSet(cands) && written <= RelSet(cands) && Counted(w, cands, written, r)
    ensures Counted(w, cands + [c], written + (if Rescanned(w, c, existing, full) then {c.rel} else {}),
                    AddOutcome(r, ScanOne(w, c, existing, full, true)))
  {
    ScanOneParses(w, c, existing, full);
    SkipReported(w, c, existing, full);
    RescannedReadable(w, c, existing, full);
    hide *;
    OneMore(w, cands, c, Unreadable);
    OneMore(w, cands, c, Oversized);
    OneMore(w, cands, c, Binary);
    KeptMore(w, cands, c, written, Rescanned(w, c, existing, full));
    CountedNow(w, cands, c, written, Rescanned(w, c, existing, full), r, ScanOne(w, c, existing, full, true));
  }

  lemma OneMore(w: World, cands: seq<Candidate>, c: Candidate, skip: Skip)
    requires c.rel !in RelSet(cands)
    ensures |Outcomes(w, cands + [c], skip)| == |Outcomes(w, cands, skip)| + if SkipOf(w, c.rel) == skip then 1 else 0
  {
    OutcomesSnoc(w, cands, c, skip);
    hide Outcomes, SkipOf, RelSet;
  }

  lemma KeptMore(w: World, cands: seq<Candidate>, c: Candidate, written: set<Path>, more: bool)
    requires c.rel !in RelSet(cands) && written <= RelSet(cands) && (more ==> SkipOf(w, c.rel) == NotSkipped)
    ensures var written' := written + if more then {c.rel} else {};
            && |written'| == |written| + (if more then 1 else 0)
            && |Outcomes(w, cands + [c], NotSkipped) - written'|
               == |Outcomes(w, cands, NotSkipped) - written| + if SkipOf(w, c.rel) == NotSkipped && !more then 1 else 0
  {
    OutcomesSnoc(w, cands, c, NotSkipped);
    assert c.rel !in written;
    hide *;
    SizesMore(Outcomes(w, cands, NotSkipped), written, c.rel, SkipOf(w, c.rel) == NotSkipped, more);
  }

  lemma SizesMore(k: set<Path>, written: set<Path>, p: Path, readable: bool, more: bool)
    requires p !in k && p !in written && (more ==> readable)
    ensures var written' := written + if more then {p} else {};
            && |written'| == |written| + (if more then 1 else 0)
            && |(k + if readable then {p} else {}) - written'| == |k - written| + if readable && !more then 1 else 0
  {
    var all, written' := k + if readable then {p} else {}, written + if more then {p} else {};
    if more {
      assert written' == written + {p} && all - written' == k - written;
    } else {
      assert written' == written;
      if readable {
        assert all - written == (k - written) + {p} && p !in k - written;
      } else {
        assert all - written == k - written;
      }
    }
  }

  lemma CountedNow(w: World, cands: seq<Candidate>, c: Candidate, written: set<Path>, more: bool, r: Counts, o: Outcome)
    requires Counted(w, cands, written, r) && o.skip == SkipOf(w, c.rel) && (o.parsed.Some? <==> more) && (more ==> o.skip == NotSkipped)
    requires forall skip | skip != NotSkipped ::
      |Outcomes(w, cands + [c], skip)| == |Outcomes(w, cands, skip)| + if o.skip == skip then 1 else 0
    requires var written' := written + if more then {c.rel} else {};
             && |written'| == |written| + (if more then 1 else 0)
             && |Outcomes(w, cands + [c], NotSkipped) - written'|
                == |Outcomes(w, cands, NotSkipped) - written| + if o.skip == NotSkipped && !more then 1 else 0
    ensures Counted(w, cands + [c], written + (if more then {c.rel} else {}), AddOutcome(r, o))
  {
    hide Outcomes, SkipOf;
  }

  lemma SkipReported(w: World, c: Candidate, existing: map<Path, Digest>, full: bool)
    ensures ScanOne(w, c, existing, full, true).skip == SkipOf(w, c.rel)
  {
    hide Parse, IsChanged;
  }

  lemma {:induction false} ScanCounted(w: World, cands: seq<Candidate>, existing: map<Path, Digest>, full: bool, n: nat)
    requires DistinctRels(cands)
    ensures var outs := ScanAll(w, cands, existing, full, true);
            && ParsedView(outs).Keys <= RelSet(cands)
            && Counted(w, cands, ParsedView(outs).Keys, CountAll(NO_COUNTS.(deleted := n), outs))
  {
    if cands == [] {
      NothingCounted(w, n);
    } else {
      var init, c := cands[..|cands| - 1], cands[|cands| - 1];
      assert cands == init + [c];
      assert c.rel !in RelSet(init);
      assert DistinctRels(init);
      hide *;
      ScanCounted(w, init, existing, full, n);
      CountAllSnoc(w, init, c, existing, full, NO_COUNTS.(deleted := n));
      ParsedViewSnoc(w, init, c, existing, full);
      ExtendedKeys(w, c, existing, full, ParsedView(ScanAll(w, init, existing, full, true)));
      RelSetSnoc(init, c);
      CountedSnoc(w, init, c, existing, full, ParsedView(ScanAll(w, init, existing, full, true)).Keys,
                  CountAll(NO_COUNTS.(deleted := n), ScanAll(w, init, existing, full, true)));
    }
  }

  lemma NothingCounted(w: World, n: nat)
    ensures Counted(w, [], {}, NO_COUNTS.(deleted := n))
    ensures forall existing, full :: ParsedView(ScanAll(w, [], existing, full, true)) == map[]
    ensures forall existing, full, c :: CountAll(c, ScanAll(w, [], existing, full, true)) == c
  {
    assert RelSet([]) == {};
  }

  lemma ExtendedKeys(w: World, c: Candidate, existing: map<Path, Digest>, full: bool, v: View)
    ensures Extended(w, c, existing, full, v).Keys == v.Keys + if Rescanned(w, c, existing, full) then {c.rel} else {}
  {
    hide GroupNow, Rescanned;
    RescannedReadable(w, c, existing, full);
  }

  lemma CountAllSnoc(w: World, cands: seq<Candidate>, c: Candidate, existing: map<Path, Digest>, full: bool, start: Counts)
    ensures CountAll(start, ScanAll(w, cands + [c], existing, full, true)) ==
            AddOutcome(CountAll(start, ScanAll(w, cands, existing, full, true)), ScanOne(w, c, existing, full, true))
  {
    var n := |cands|;
    var outs := ScanAll(w, cands + [c], existing, full, true);
    hide ScanOne, AddOutcome;
    assert outs[..n] == ScanAll(w, cands, existing, full, true);
    assert outs[n] == ScanOne(w, c, existing, full, true);
  }

  function Missing(w: World, cands: seq<Candidate>): set<Path> {
    set p | p in RelSet(cands) && p !in w.tree
  }

  function TooLarge(w: World, cands: seq<Candidate>): set<Path> {
    set p | p in RelSet(cands) && p in w.tree && 0 < w.maxFileSize < |w.tree[p]|
  }

  ghost function Readable(w: World, cands: seq<Candidate>): set<Path> {
    set p | p in RelSet(cands) && Indexable(w, p)
  }

  /** What a run reports: the numbers of selected files it could not read, found too large, found binary (which are the
      others that cannot be indexed), wrote, and left as they were, and the number of indexed files it deleted because
      they are no longer selected. */
  lemma ReportedCounts(t: Tables, w: World, mode: Mode, cands: seq<Candidate>, s: Stamp)
    requires Consistent(t) && DistinctRels(cands)
    ensures var r := WriteCounts(mode, HashesOf(t).Keys - RelSet(cands), ScanAll(w, cands, HashesOf(t), mode == Full, true));
            var written := ScanView(t, w, mode, cands).Keys;
            && r.skippedUnreadable == |Missing(w, cands)|
            && r.skippedOversized == |TooLarge(w, cands)|
            && r.skippedBinary == |RelSet(cands) - Missing(w, cands) - TooLarge(w, cands) - Readable(w, cands)|
            && r.indexed == |written|
            && r.kept == |Readable(w, cands) - written|
            && r.deleted == if mode == Incremental then |ViewOf(t).Keys - RelSet(cands)| else 0
  {
    var gone, existing := HashesOf(t).Keys - RelSet(cands), HashesOf(t);
    var outs, n := ScanAll(w, cands, existing, mode == Full, true), if mode == Incremental then |gone| else 0;
    ConsistentLinked(t);
    assert WriteCounts(mode, gone, outs) == CountAll(NO_COUNTS.(deleted := n), outs);
    hide *;
    HashedPaths(t);
    ScanViewIs(t, w, mode, cands);
    ScanCounted(w, cands, existing, mode == Full, n);
    CountsAddUp(outs, NO_COUNTS.(deleted := n));
    OutcomesAre(w, cands);
    CountedPlainly(w, cands, ScanView(t, w, mode, cands).Keys, WriteCounts(mode, gone, outs));
  }

  lemma CountedPlainly(w: World, cands: seq<Candidate>, written: set<Path>, r: Counts)
    requires Counted(w, cands, written, r)
    ensures r.skippedUnreadable == |Outcomes(w, cands, Unreadable)|
    ensures r.skippedOversized == |Outcomes(w, cands, Oversized)|
    ensures r.skippedBinary == |Outcomes(w, cands, Binary)|
    ensures r.indexed == |written|
    ensures r.kept == |Outcomes(w, cands, NotSkipped) - written|
  {
  }

  lemma OutcomesAre(w: World, cands: seq<Candidate>)
    ensures Outcomes(w, cands, Unreadable) == Missing(w, cands)
    ensures Outcomes(w, cands, Oversized) == TooLarge(w, cands)
    ensures Outcomes(w, cands, NotSkipped) == Readable(w, cands)
    ensures Outcomes(w, cands, Binary) == RelSet(cands) - Missing(w, cands) - TooLarge(w, cands) - Readable(w, cands)
  {
    hide RelSet, IsBinary, Indexable;
    forall p ensures SkipOf(w, p) == NotSkipped <==> Indexable(w, p) {
      SkippedIs(w, p);
    }
    assert Outcomes(w, cands, NotSkipped) == Readable(w, cands);
    assert Outcomes(w, cands, Unreadable) == Missing(w, cands);
    assert Outcomes(w, cands, Oversized) == TooLarge(w, cands);
    assert Outcomes(w, cands, Binary) == RelSet(cands) - Outcomes(w, cands, Unreadable) - Outcomes(w, cands, Oversized) - Outcomes(w, cands, NotSkipped);
  }

  // ---- the totals of a full run ----

  lemma {:induction false} AddSymbolsGrows(t: Tables, fileId: Id, f: FileRecord, syms: seq<SymbolRecord>)
    ensures |AddSymbols(t, fileId, f, syms).symbols| == |t.symbols| + |syms|
  {
    if syms != [] {
      AddSymbolsGrows(t, fileId, f, syms[..|syms| - 1]);
      assert NextId(AddSymbols(t, fileId, f, syms[..|syms| - 1]).symbols.Keys) !in AddSymbols(t, fileId, f, syms[..|syms| - 1]).symbols;
    }
  }

  lemma PutGrows(t: Tables, p: Parsed)
    requires Linked(t) && !HasPath(t, p.record.path)
    ensures |Put(t, p).symbols| == |t.symbols| + |p.symbols|
  {
    assert IdsAt(t.files, p.record.path) == {};
    assert DeletePath(t, p.record.path).symbols == t.symbols;
    var cleared := DeletePath(t, p.record.path);
    AddSymbolsGrows(AddFile(cleared, p.record, p.derived), NextId(cleared.files.Keys), p.record, p.symbols);
    hide AddSymbols, NextId, Linked;
  }

  lemma {:induction false} ScanGrows(t: Tables, w: World, cands: seq<Candidate>, existing: map<Path, Digest>, c: Counts)
    requires Consistent(t) && ViewOf(t) == map[] && DistinctRels(cands) && c.symbols == |t.symbols|
    ensures var outs := ScanAll(w, cands, existing, true, true); CountAll(c, outs).symbols == |PutAll(t, outs).symbols|
  {
    hide *;
    ConsistentLinked(t);
    if cands == [] {
      NothingPut(t, w, existing, c);
    } else {
      var init, x := cands[..|cands| - 1], cands[|cands| - 1];
      assert cands == init + [x];
      InitDistinct(init, x);
      ScanGrows(t, w, init, existing, c);
      CountAllSnoc(w, init, x, existing, true, c);
      PutAllSnoc(t, w, init, x, existing);
      PutAllView(t, ScanAll(w, init, existing, true, true));
      ScanCounted(w, init, existing, true, 0);
      assert map[] + ParsedView(ScanAll(w, init, existing, true, true)) == ParsedView(ScanAll(w, init, existing, true, true));
      StepGrows(PutAll(t, ScanAll(w, init, existing, true, true)), w, x, existing, CountAll(c, ScanAll(w, init, existing, true, true)));
    }
  }

  lemma InitDistinct(init: seq<Candidate>, x: Candidate)
    requires DistinctRels(init + [x])
    ensures DistinctRels(init) && x.rel !in RelSet(init)
  {
    forall i | 0 <= i < |init| ensures init[i].rel != x.rel {
      assert (init + [x])[i] == init[i] && (init + [x])[|init|] == x;
    }
    forall i, j | 0 <= i < j < |init| ensures init[i].rel != init[j].rel {
      assert (init + [x])[i] == init[i] && (init + [x])[j] == init[j];
    }
  }

  lemma NothingPut(t: Tables, w: World, existing: map<Path, Digest>, c: Counts)
    ensures CountAll(c, ScanAll(w, [], existing, true, true)) == c && PutAll(t, ScanAll(w, [], existing, true, true)) == t
  {
  }

  ghost function PutOne(t: Tables, o: Outcome): Tables {
    match o.parsed
    case Some(p) => Put(t, p)
    case None => t
  }

  lemma PutAllSnoc(t: Tables, w: World, cands: seq<Candidate>, c: Candidate, existing: map<Path, Digest>)
    ensures PutAll(t, ScanAll(w, cands + [c], existing, true, true)) ==
            PutOne(PutAll(t, ScanAll(w, cands, existing, true, true)), ScanOne(w, c, existing, true, true))
  {
    var n := |cands|;
    var outs := ScanAll(w, cands + [c], existing, true, true);
    hide ScanOne, Put;
    assert outs[..n] == ScanAll(w, cands, existing, true, true);
    assert outs[n] == ScanOne(w, c, existing, true, true);
  }

  lemma StepGrows(t: Tables, w: World, x: Candidate, existing: map<Path, Digest>, c: Counts)
    requires Consistent(t) && x.rel !in ViewOf(t) && c.symbols == |t.symbols|
    ensures var o := ScanOne(w, x, existing, true, true); AddOutcome(c, o).symbols == |PutOne(t, o).symbols|
  {
    ConsistentLinked(t);
    ViewEntries(t);
    ScanOneParses(w, x, existing, true);
    RescannedReadable(w, x, existing, true);
    SkipReported(w, x, existing, true);
    var o := ScanOne(w, x, existing, true, true);
    hide ScanOne, Put, ViewOf, Linked, FtsAgrees, Rescanned, GroupNow, SkipOf;
    if o.parsed.Some? {
      PutGrows(t, o.parsed.value);
    }
  }

  /** After a full run the numbers reported are the numbers of rows there are, and the index state names the commit, the
      state of the work tree and the time the run was given. */
  lemma FullRunTotals(t: Tables, w: World, cands: seq<Candidate>, s: Stamp)
    requires Consistent(t) && DistinctRels(cands)
    ensures var t', r := AfterRun(t, w, Full, cands, s), WriteCounts(Full, HashesOf(t).Keys - RelSet(cands), ScanAll(w, cands, HashesOf(t), true, true));
            && r.indexed == |t'.files| == t'.meta.filesCount
            && r.symbols == |t'.symbols| == t'.meta.symbolsCount
            && t'.meta.head == s.head && t'.meta.dirty == s.dirty && t'.meta.indexedAt == s.at
  {
    ConsistentLinked(t);
    FullTables(t, w, cands, s);
    CountsAgreeIs(AfterRun(t, w, Full, cands, s));
    assert |Clear(t).symbols| == 0;
    hide *;
    RunView(t, w, Full, cands, s);
    ConsistentLinked(AfterRun(t, w, Full, cands, s));
    TotalIsStored(AfterRun(t, w, Full, cands, s));
    HashedPaths(AfterRun(t, w, Full, cands, s));
    ScanViewIs(t, w, Full, cands);
    ReportedCounts(t, w, Full, cands, s);
    PreparedClear(t);
    ScanGrows(Clear(t), w, cands, HashesOf(t), NO_COUNTS);
    SizeIsKeys(HashesOf(AfterRun(t, w, Full, cands, s)));
  }

  lemma SizeIsKeys<K, V>(m: map<K, V>)
    ensures |m| == |m.Keys|
  {
  }

  lemma CountsAgreeIs(t: Tables)
    ensures CountsAgree(t) ==> t.meta.filesCount == |t.files| && t.meta.symbolsCount == |t.symbols|
  {
  }

  lemma PreparedClear(t: Tables)
    requires Consistent(t)
    ensures Consistent(Clear(t)) && ViewOf(Clear(t)) == map[] && |Clear(t).symbols| == 0 && NO_COUNTS.symbols == 0
  {
    PreparedView(t, Full, {});
    hide ViewOf, Linked, FtsAgrees;
  }

  lemma FullTables(t: Tables, w: World, cands: seq<Candidate>, s: Stamp)
    requires Linked(t)
    ensures var t', outs := AfterRun(t, w, Full, cands, s), ScanAll(w, cands, HashesOf(t), true, true);
            && t'.symbols == PutAll(Clear(t), outs).symbols
            && t'.meta.head == s.head && t'.meta.dirty == s.dirty && t'.meta.indexedAt == s.at
            && WriteCounts(Full, HashesOf(t).Keys - RelSet(cands), outs) == CountAll(NO_COUNTS, outs)
  {
    hide ScanAll, HashesOf, PutAll, CountAll, Linked;
  }

  // ---- the content kept for the embedder ----

  const LOCK_FILES: seq<string> :=
    ["package-lock.json", "npm-shrinkwrap.json", "yarn.lock", "pnpm-lock.yaml", "go.sum",
     "cargo.lock", "composer.lock", "gemfile.lock", "poetry.lock", "pipfile.lock"]

  /** With an embedder, a scan keeps the content of a code file that parses and of any other file that is no lock file; the
      symbols it keeps are those it writes. Without one it keeps neither. */
  lemma ContentKept(reg: Registry, d: seq<string>, f: string, content: string, tracked: bool, pkg: string, embedding: bool)
    requires '/' !in f
    ensures var p := Join(d + [f], "/");
            var q, lang := Parse(reg, p, content, tracked, pkg, embedding), reg.languageOf(p);
            && (!embedding ==> q.content == "" && q.exsyms == [])
            && (embedding && lang.None? ==> q.exsyms == [] && q.content == if ToLower(f) in LOCK_FILES then "" else content)
            && (embedding && lang.Some? ==>
                  match reg.parse(lang.value, content)
                  case None => q.content == "" && q.exsyms == []
                  case Some(ir) => q.content == content && q.exsyms == Dedupe(ir.symbols))
            && SymbolRows(if lang.Some? && reg.parse(lang.value, content).Some? then Dedupe(reg.parse(lang.value, content).value.symbols) else [], q.symbols)
  {
    BaseIs(d, f);
    LockFiles(Join(d + [f], "/"));
    hide Join, BaseName, ToLower, DeriveRole, Dedupe, GroupFor;
    ParsedRows(reg, Join(d + [f], "/"), content, tracked, pkg, embedding);
    hide IsGeneratedFile, SymbolRows;
  }

  lemma LockFiles(p: Path)
    ensures IsGeneratedFile(p) <==> ToLower(BaseName(p)) in LOCK_FILES
  {
    var x := ToLower(BaseName(p));
    hide ToLower, BaseName;
    assert x in LOCK_FILES <==> exists i :: 0 <= i < |LOCK_FILES| && LOCK_FILES[i] == x;
  }

  lemma ParsedRows(reg: Registry, p: Path, content: string, tracked: bool, pkg: string, embedding: bool)
    ensures var lang := reg.languageOf(p);
            SymbolRows(if lang.Some? && reg.parse(lang.value, content).Some? then Dedupe(reg.parse(lang.value, content).value.symbols) else [],
                       Parse(reg, p, content, tracked, pkg, embedding).symbols)
  {
    hide DeriveRole, Dedupe, IsGeneratedFile;
  }

  // ---- the full-text index ----

  /** The row says where this file is and nothing else. */
  ghost predicate FindsFile(t: Tables, r: Id, id: Id) {
    && r in t.fts && id in t.files && t.fts[r].grain == FileGrain && t.fts[r].refId == id
    && t.fts[r].name == "" && t.fts[r].signature == "" && t.fts[r].path == t.files[id].path && t.fts[r].pkg == t.files[id].pkg
  }

  /** The row finds this symbol by its name, its signature and where its file is. */
  ghost predicate FindsSymbol(t: Tables, r: Id, id: Id) {
    && r in t.fts && id in t.symbols && t.symbols[id].fileId in t.files && t.fts[r].grain == SymbolGrain && t.fts[r].refId == id
    && t.fts[r].name == t.symbols[id].rec.name && t.fts[r].signature == t.symbols[id].rec.signature
    && var f := t.files[t.symbols[id].fileId]; t.fts[r].path == f.path && t.fts[r].pkg == f.pkg
  }

  /** In consistent tables every file and every symbol is found by one full-text row, and every row finds one of them. */
  lemma FullTextFinds(t: Tables)
    requires Consistent(t)
    ensures forall id :: id in t.files ==> exists r :: FindsFile(t, r, id)
    ensures forall id :: id in t.symbols ==> exists r :: FindsSymbol(t, r, id)
    ensures forall r :: r in t.fts ==> FindsFile(t, r, t.fts[r].refId) || FindsSymbol(t, r, t.fts[r].refId)
    ensures forall r, q, id :: FindsFile(t, r, id) && FindsFile(t, q, id) ==> r == q
    ensures forall r, q, id :: FindsSymbol(t, r, id) && FindsSymbol(t, q, id) ==> r == q
  {
    hide UniquePaths, EdgesLive;
    forall id | id in t.files ensures exists r :: FindsFile(t, r, id) {
      assert Resolves(t, FileFts(t.files[id], id));
      var r :| r in t.fts && t.fts[r] == FileFts(t.files[id], id);
      assert FindsFile(t, r, id);
    }
    forall id | id in t.symbols ensures exists r :: FindsSymbol(t, r, id) {
      var row := SymbolFts(t.files[t.symbols[id].fileId], t.symbols[id].rec, id);
      assert Resolves(t, row);
      var r :| r in t.fts && t.fts[r] == row;
      assert FindsSymbol(t, r, id);
    }
    forall r | r in t.fts ensures FindsFile(t, r, t.fts[r].refId) || FindsSymbol(t, r, t.fts[r].refId) {
      assert Listed(t.fts, t.fts[r]);
      assert Resolves(t, t.fts[r]);
    }
    forall r, q, id | FindsFile(t, r, id) && FindsFile(t, q, id) ensures r == q {
      assert t.fts[r] == t.fts[q];
    }
    forall r, q, id | FindsSymbol(t, r, id) && FindsSymbol(t, q, id) ensures r == q {
      assert t.fts[r] == t.fts[q];
    }
  }

  // ---- a clean run ----

  /** A clean run leaves no row and no edge of code, and an index state that names no commit. */
  lemma CleanLeavesNothing(t: Tables, at: string)
    ensures var t' := AfterClean(t, at);
            && t'.files == map[] && t'.symbols == map[] && t'.derived == map[] && t'.fts == map[]
            && t'.depEdges == {} && t'.testLinks == {}
            && t'.meta.head == "" && !t'.meta.dirty && t'.meta.filesCount == 0 && t'.meta.symbolsCount == 0 && t'.meta.indexedAt == at
  {
  }
}
