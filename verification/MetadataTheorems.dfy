/** What runs guarantee about the metadata: incremental against full, dry runs, fixpoints, whole histories. */
module MetadataTheorems {
  import opened Base
  import opened Digests
  import opened Extraction
  import opened CodeTables
  import opened CodeView
  import opened CodeStore
  import opened Scanning
  import opened Indexing
  import opened GraphRefresh

  // ---- a scan never produces rows the store refuses ----

  lemma DedupedKeys(raw: seq<Symbol>)
    ensures DistinctKeys(ToRecords(Dedupe(raw)))
  {
    DedupeCorrect(raw);
    var d := Dedupe(raw);
    forall i, j | 0 <= i < j < |d| ensures !SameKey(ToRecords(d)[i], ToRecords(d)[j]) {
      assert Identity(d[i]) != Identity(d[j]);
    }
  }

  /** The extractor's deduplication is what keeps the symbols UNIQUE constraint from ever failing a run. */
  lemma ScanWritable(w: World, cands: seq<Candidate>, existing: map<Path, Digest>, full: bool, doParse: bool)
    ensures Writable(ScanAll(w, cands, existing, full, doParse))
  {
    var outs := ScanAll(w, cands, existing, full, doParse);
    forall o | o in outs && o.parsed.Some? ensures DistinctKeys(o.parsed.value.symbols) {
      var i :| 0 <= i < |outs| && outs[i] == o;
      var c := cands[i];
      match ParseResult(w.registry, c.rel, w.tree[c.rel])
      case Some(ir) => DedupedKeys(ir.symbols);
      case None =>
    }
  }

  // ---- the parsed part of a scan ----

  /** The scan reads and parses this candidate. */
  predicate Rescanned(w: World, c: Candidate, existing: map<Path, Digest>, full: bool) {
    SkipOf(w, c.rel) == NotSkipped && (full || IsChanged(w, c, existing))
  }

  function GroupNow(w: World, c: Candidate): Group
    requires SkipOf(w, c.rel) == NotSkipped
  {
    GroupFor(w.registry, c.rel, w.tree[c.rel], c.tracked, w.pkgOf(c.rel))
  }

  lemma ScanOneParses(w: World, c: Candidate, existing: map<Path, Digest>, full: bool)
    ensures var o := ScanOne(w, c, existing, full, true);
            && (o.parsed.Some? <==> Rescanned(w, c, existing, full))
            && (o.parsed.Some? ==> o.parsed.value.record.path == c.rel && GroupOf(o.parsed.value) == GroupNow(w, c))
  {
  }

  /** v holds the group of this candidate exactly when it is rescanned. */
  ghost predicate ScanEntry(w: World, c: Candidate, existing: map<Path, Digest>, full: bool, v: View) {
    if Rescanned(w, c, existing, full) then c.rel in v && v[c.rel] == GroupNow(w, c) else c.rel !in v
  }

  ghost predicate IsScanView(w: World, cands: seq<Candidate>, existing: map<Path, Digest>, full: bool, v: View) {
    && (forall c :: c in cands ==> ScanEntry(w, c, existing, full, v))
    && (forall p :: p in v ==> p in RelSet(cands))
  }

  /** The view with what scanning one more candidate adds. */
  ghost function Extended(w: World, c: Candidate, existing: map<Path, Digest>, full: bool, v: View): View {
    if Rescanned(w, c, existing, full) then v[c.rel := GroupNow(w, c)] else v
  }

  lemma ScanEntryOther(w: World, x: Candidate, c: Candidate, existing: map<Path, Digest>, full: bool, v: View)
    requires x.rel != c.rel && ScanEntry(w, x, existing, full, v)
    ensures ScanEntry(w, x, existing, full, Extended(w, c, existing, full, v))
  {
    hide Rescanned, GroupNow;
  }

  lemma ScanEntryNew(w: World, c: Candidate, existing: map<Path, Digest>, full: bool, v: View)
    requires c.rel !in v
    ensures ScanEntry(w, c, existing, full, Extended(w, c, existing, full, v))
    ensures forall p :: p in Extended(w, c, existing, full, v) ==> p in v || p == c.rel
  {
    hide Rescanned, GroupNow;
  }

  lemma ScanViewSnoc(w: World, cands: seq<Candidate>, c: Candidate, existing: map<Path, Digest>, full: bool, v: View)
    requires IsScanView(w, cands, existing, full, v) && c.rel !in RelSet(cands)
    ensures IsScanView(w, cands + [c], existing, full, Extended(w, c, existing, full, v))
  {
    hide Extended, ScanEntry;
    ScanEntryNew(w, c, existing, full, v);
    forall x | x in cands ensures ScanEntry(w, x, existing, full, Extended(w, c, existing, full, v)) {
      assert x.rel in RelSet(cands);
      ScanEntryOther(w, x, c, existing, full, v);
    }
    RelSetSnoc(cands, c);
    hide RelSet;
  }

  lemma RelSetSnoc(cands: seq<Candidate>, c: Candidate)
    ensures RelSet(cands + [c]) == RelSet(cands) + {c.rel}
  {
  }

  lemma RescannedReadable(w: World, c: Candidate, existing: map<Path, Digest>, full: bool)
    ensures Rescanned(w, c, existing, full) ==> SkipOf(w, c.rel) == NotSkipped
  {
  }

  lemma ParsedViewSnoc(w: World, cands: seq<Candidate>, c: Candidate, existing: map<Path, Digest>, full: bool)
    ensures ParsedView(ScanAll(w, cands + [c], existing, full, true)) ==
            Extended(w, c, existing, full, ParsedView(ScanAll(w, cands, existing, full, true)))
  {
    var n := |cands|;
    var outs := ScanAll(w, cands + [c], existing, full, true);
    ScanOneParses(w, c, existing, full);
    hide Rescanned, GroupNow, ScanOne, GroupOf;
    assert outs[..n] == ScanAll(w, cands, existing, full, true);
    assert outs[n] == ScanOne(w, c, existing, full, true);
  }

  lemma NothingScanned(w: World, existing: map<Path, Digest>, full: bool)
    ensures IsScanView(w, [], existing, full, ParsedView(ScanAll(w, [], existing, full, true)))
  {
  }

  lemma {:induction false} ParsedViewOfScan(w: World, cands: seq<Candidate>, existing: map<Path, Digest>, full: bool)
    requires DistinctRels(cands)
    ensures IsScanView(w, cands, existing, full, ParsedView(ScanAll(w, cands, existing, full, true)))
  {
    if cands == [] {
      NothingScanned(w, existing, full);
    } else {
      var init, c := cands[..|cands| - 1], cands[|cands| - 1];
      assert cands == init + [c];
      assert c.rel !in RelSet(init);
      assert DistinctRels(init);
      hide *;
      ParsedViewOfScan(w, init, existing, full);
      ParsedViewSnoc(w, init, c, existing, full);
      ScanViewSnoc(w, init, c, existing, full, ParsedView(ScanAll(w, init, existing, full, true)));
    }
  }

  // ---- the invariant behind change detection ----

  /** The rows of p are the extraction of some content, which is the content their stored hash is the hash of. */
  ghost predicate Reflects(reg: Registry, p: Path, g: Group) {
    exists content, tracked, pkg :: g == GroupFor(reg, p, content, tracked, pkg)
  }

  ghost predicate Sound(reg: Registry, v: View) {
    forall p :: p in v ==> Reflects(reg, p, v[p])
  }

  lemma ParsedViewSound(w: World, cands: seq<Candidate>, existing: map<Path, Digest>, full: bool)
    requires DistinctRels(cands)
    ensures Sound(w.registry, ParsedView(ScanAll(w, cands, existing, full, true)))
  {
    var v := ParsedView(ScanAll(w, cands, existing, full, true));
    ParsedViewOfScan(w, cands, existing, full);
    hide Rescanned, GroupFor, ParsedView, ScanAll;
    forall p | p in v ensures Reflects(w.registry, p, v[p]) {
      assert p in RelSet(cands);
      var c :| c in cands && c.rel == p;
      RescannedReadable(w, c, existing, full);
      assert v[p] == GroupFor(w.registry, p, w.tree[p], c.tracked, w.pkgOf(p));
    }
  }

  // ---- runs ----

  /** The tables after a completed run: the metadata transaction, then the graph transaction. */
  ghost function AfterRun(t: Tables, w: World, mode: Mode, cands: seq<Candidate>, s: Stamp): Tables
    requires Linked(t)
  {
    var existing := HashesOf(t);
    WithGraph(WriteTables(t, mode, existing.Keys - RelSet(cands), ScanAll(w, cands, existing, mode == Full, true), s))
  }

  function AfterClean(t: Tables, at: string): Tables {
    Clear(t).(meta := IndexMeta("", false, 0, 0, at))
  }

  /** What a scan under this mode writes into the view. */
  ghost function ScanView(t: Tables, w: World, mode: Mode, cands: seq<Candidate>): View
    requires Linked(t)
  {
    ParsedView(ScanAll(w, cands, HashesOf(t), mode == Full, true))
  }

  /** The graph of a completed run is exactly what its tables call for. */
  ghost predicate GraphCurrent(t: Tables) {
    t.depEdges == EdgeSet(t) && t.testLinks == LinkSet(t)
  }

  lemma RunView(t: Tables, w: World, mode: Mode, cands: seq<Candidate>, s: Stamp)
    requires Consistent(t)
    ensures var t' := AfterRun(t, w, mode, cands, s);
            && Consistent(t') && CountsAgree(t') && GraphCurrent(t')
            && ViewOf(t') == match mode
                 case Full => ScanView(t, w, mode, cands)
                 case Incremental => (ViewOf(t) - (ViewOf(t).Keys - RelSet(cands))) + ScanView(t, w, mode, cands)
                 case Changed => ViewOf(t) + ScanView(t, w, mode, cands)
  {
    var existing := HashesOf(t);
    assert existing.Keys == ViewOf(t).Keys;
    var outs := ScanAll(w, cands, existing, mode == Full, true);
    var gone := existing.Keys - RelSet(cands);
    hide ViewOf, Linked, FtsAgrees, WriteTables, ScanAll, HashesOf;
    WriteView(t, mode, gone, outs, s);
    var u := WriteTables(t, mode, gone, outs, s);
    WithGraphConsistent(u);
    GraphAgain(u);
  }

  lemma GraphAgain(t: Tables)
    ensures GraphCurrent(WithGraph(t))
  {
    var u := WithGraph(t);
    EdgeSetIs(t);
    EdgeSetIs(u);
    hide EdgeSet, LinkSet;
    forall a, b ensures EdgeAt(u, a, b) <==> EdgeAt(t, a, b) {}
    forall a, b ensures LinkAt(u, a, b) <==> LinkAt(t, a, b) {}
    assert EdgeSet(u) == EdgeSet(t);
    assert LinkSet(u) == LinkSet(t);
  }

  lemma CleanView(t: Tables, at: string)
    ensures var t' := AfterClean(t, at);
            Consistent(t') && CountsAgree(t') && GraphCurrent(t') && ViewOf(t') == map[]
  {
    var u := AfterClean(t, at);
    EdgeSetIs(u);
    assert forall p :: !HasPath(u, p);
    ViewEntries(u);
  }

  /** Change detection rests on rows being the extraction of the hashed content; every run keeps it so. */
  lemma RunSound(t: Tables, w: World, mode: Mode, cands: seq<Candidate>, s: Stamp)
    requires Consistent(t) && DistinctRels(cands) && Sound(w.registry, ViewOf(t))
    ensures Linked(AfterRun(t, w, mode, cands, s))
    ensures Sound(w.registry, ViewOf(AfterRun(t, w, mode, cands, s)))
  {
    assert Linked(t);
    hide *;
    RunView(t, w, mode, cands, s);
    ParsedViewSound(w, cands, HashesOf(t), mode == Full);
    ScanViewIs(t, w, mode, cands);
    ConsistentLinked(AfterRun(t, w, mode, cands, s));
    SoundMerge(w.registry, ViewOf(t), ViewOf(t).Keys - RelSet(cands), ScanView(t, w, mode, cands));
  }

  lemma ScanViewIs(t: Tables, w: World, mode: Mode, cands: seq<Candidate>)
    requires Linked(t)
    ensures ScanView(t, w, mode, cands) == ParsedView(ScanAll(w, cands, HashesOf(t), mode == Full, true))
  {
  }

  lemma SoundMerge(reg: Registry, v: View, gone: set<Path>, u: View)
    requires Sound(reg, v) && Sound(reg, u)
    ensures Sound(reg, (v - gone) + u) && Sound(reg, v + u)
  {
    hide Reflects;
  }

  // ---- whole histories ----

  datatype Step = IndexRun(w: World, mode: Mode, cands: seq<Candidate>, stamp: Stamp) | CleanRun(at: string)

  /** The files are selected without repeats, by a program with these extractors. */
  ghost predicate Legal(reg: Registry, step: Step) {
    step.IndexRun? ==> step.w.registry == reg && DistinctRels(step.cands)
  }

  ghost function After(t: Tables, step: Step): Tables
    requires Linked(t)
  {
    match step
    case IndexRun(w, mode, cands, stamp) => AfterRun(t, w, mode, cands, stamp)
    case CleanRun(at) => AfterClean(t, at)
  }

  lemma AfterConsistent(t: Tables, step: Step)
    requires Consistent(t)
    ensures Consistent(After(t, step)) && CountsAgree(After(t, step)) && GraphCurrent(After(t, step))
  {
    match step
    case IndexRun(w, mode, cands, stamp) => RunView(t, w, mode, cands, stamp);
    case CleanRun(at) => CleanView(t, at);
  }

  ghost function AfterAll(steps: seq<Step>): (t: Tables)
    ensures Consistent(t)
  {
    if steps == [] then EMPTY_TABLES else
    var t := AfterAll(steps[..|steps| - 1]);
    AfterConsistent(t, steps[|steps| - 1]);
    After(t, steps[|steps| - 1])
  }

  /** After any history of runs, with any trees and modes: no dangling row, one full-text row per file and
      symbol, true counts, the graph the rows call for, and rows that are the extraction of the content
      their hash names. */
  lemma {:induction false} HistoryInvariant(reg: Registry, steps: seq<Step>)
    requires forall i :: 0 <= i < |steps| ==> Legal(reg, steps[i])
    ensures var t := AfterAll(steps);
            Consistent(t) && CountsAgree(t) && GraphCurrent(t) && Sound(reg, ViewOf(t))
  {
    if steps == [] {
      ViewEntries(EMPTY_TABLES);
      EdgeSetIs(EMPTY_TABLES);
    } else {
      var t, step := AfterAll(steps[..|steps| - 1]), steps[|steps| - 1];
      HistoryInvariant(reg, steps[..|steps| - 1]);
      AfterConsistent(t, step);
      match step
      case IndexRun(w, mode, cands, stamp) =>
        assert Legal(reg, step);
        RunSound(t, w, mode, cands, stamp);
      case CleanRun(at) => CleanView(t, at);
    }
  }

  // ---- incremental against full ----

  /** The rows an incremental run keeps for this candidate are the rows a full run would write:
      it is not skipped although indexed, and if it is unchanged its package is still the current one. */
  ghost predicate UpToDate(t: Tables, w: World, c: Candidate)
    requires Linked(t)
  {
    c.rel in ViewOf(t) ==>
      && SkipOf(w, c.rel) == NotSkipped
      && (!IsChanged(w, c, HashesOf(t)) ==> ViewOf(t)[c.rel].file.pkg == w.pkgOf(c.rel))
  }

  lemma ChangedUnlessIndexed(t: Tables, w: World, c: Candidate)
    requires Linked(t) && SkipOf(w, c.rel) == NotSkipped && !IsChanged(w, c, HashesOf(t))
    ensures c.rel in ViewOf(t)
    ensures EffectiveHash(ViewOf(t)[c.rel].file) == ContentHash(w.tree[c.rel], c.tracked)
  {
  }

  /** Unchanged rows differ from fresh ones in the package only. */
  lemma UnchangedGroup(t: Tables, w: World, c: Candidate)
    requires Linked(t) && Sound(w.registry, ViewOf(t))
    requires SkipOf(w, c.rel) == NotSkipped && !IsChanged(w, c, HashesOf(t))
    ensures c.rel in ViewOf(t)
    ensures ViewOf(t)[c.rel] == GroupNow(w, c) <==> ViewOf(t)[c.rel].file.pkg == w.pkgOf(c.rel)
  {
    ChangedUnlessIndexed(t, w, c);
    var g := ViewOf(t)[c.rel];
    assert Reflects(w.registry, c.rel, g) && c.rel in w.tree;
    hide *;
    GroupUnchanged(w, c, g);
  }

  lemma GroupUnchanged(w: World, c: Candidate, g: Group)
    requires c.rel in w.tree && SkipOf(w, c.rel) == NotSkipped && Reflects(w.registry, c.rel, g)
    requires EffectiveHash(g.file) == ContentHash(w.tree[c.rel], c.tracked)
    ensures g == GroupNow(w, c) <==> g.file.pkg == w.pkgOf(c.rel)
  {
    hide SkipOf, ParseResult, ToRecords, DeriveRole;
    var content, tracked, pkg :| g == GroupFor(w.registry, c.rel, content, tracked, pkg);
    HashDetermines(w.registry, c.rel, content, tracked, pkg, w.tree[c.rel], c.tracked);
  }

  /** At one candidate, the two modes agree exactly when its rows are up to date. */
  lemma AgreeAt(t: Tables, w: World, c: Candidate, inc: View, full: View)
    requires Linked(t) && Sound(w.registry, ViewOf(t))
    requires c.rel in full <==> Rescanned(w, c, HashesOf(t), true)
    requires c.rel in full ==> full[c.rel] == GroupNow(w, c)
    requires Rescanned(w, c, HashesOf(t), false) ==> c.rel in inc && inc[c.rel] == GroupNow(w, c)
    requires !Rescanned(w, c, HashesOf(t), false) ==> (c.rel in inc <==> c.rel in ViewOf(t))
    requires !Rescanned(w, c, HashesOf(t), false) && c.rel in inc ==> inc[c.rel] == ViewOf(t)[c.rel]
    ensures (c.rel in inc <==> c.rel in full) && (c.rel in inc ==> inc[c.rel] == full[c.rel]) <==> UpToDate(t, w, c)
  {
    if SkipOf(w, c.rel) == NotSkipped && !IsChanged(w, c, HashesOf(t)) {
      UnchangedGroup(t, w, c);
    }
    hide ViewOf, HashesOf, Sound, SkipOf, IsChanged, GroupNow;
  }

  /** An incremental run leaves the view a full rebuild of the same tree leaves, exactly when every
      candidate it keeps rows for is up to date. Row ids aside, nothing else can differ. */
  lemma IncrementalRefinesFull(t: Tables, w: World, cands: seq<Candidate>, s: Stamp)
    requires Consistent(t) && Sound(w.registry, ViewOf(t)) && DistinctRels(cands)
    ensures Linked(AfterRun(t, w, Incremental, cands, s)) && Linked(AfterRun(t, w, Full, cands, s))
    ensures ViewOf(AfterRun(t, w, Incremental, cands, s)) == ViewOf(AfterRun(t, w, Full, cands, s))
            <==> forall c :: c in cands ==> UpToDate(t, w, c)
  {
    RunView(t, w, Incremental, cands, s);
    RunView(t, w, Full, cands, s);
    RunViewWithin(t, w, cands, s);
    var inc, full := ViewOf(AfterRun(t, w, Incremental, cands, s)), ViewOf(AfterRun(t, w, Full, cands, s));
    hide AfterRun, ViewOf, HashesOf, Sound, UpToDate, ScanView, FtsAgrees, GraphCurrent, CountsAgree;
    forall c | c in cands
      ensures ((c.rel in inc <==> c.rel in full) && (c.rel in inc ==> inc[c.rel] == full[c.rel])) <==> UpToDate(t, w, c)
    {
      AgreeAtCandidate(t, w, cands, s, c);
    }
    ViewsAgree(cands, inc, full);
  }

  lemma RunViewWithin(t: Tables, w: World, cands: seq<Candidate>, s: Stamp)
    requires Consistent(t) && DistinctRels(cands)
    ensures Linked(AfterRun(t, w, Incremental, cands, s)) && Linked(AfterRun(t, w, Full, cands, s))
    ensures forall p :: p in ViewOf(AfterRun(t, w, Incremental, cands, s)) || p in ViewOf(AfterRun(t, w, Full, cands, s)) ==> p in RelSet(cands)
  {
    RunView(t, w, Incremental, cands, s);
    RunView(t, w, Full, cands, s);
    ParsedViewOfScan(w, cands, HashesOf(t), false);
    ParsedViewOfScan(w, cands, HashesOf(t), true);
    hide AfterRun, ViewOf, HashesOf, ParsedView, ScanEntry, FtsAgrees, GraphCurrent, CountsAgree;
  }

  lemma AgreeAtCandidate(t: Tables, w: World, cands: seq<Candidate>, s: Stamp, c: Candidate)
    requires Consistent(t) && Sound(w.registry, ViewOf(t)) && DistinctRels(cands) && c in cands
    ensures Linked(AfterRun(t, w, Incremental, cands, s)) && Linked(AfterRun(t, w, Full, cands, s))
    ensures var inc, full := ViewOf(AfterRun(t, w, Incremental, cands, s)), ViewOf(AfterRun(t, w, Full, cands, s));
            (c.rel in inc <==> c.rel in full) && (c.rel in inc ==> inc[c.rel] == full[c.rel]) <==> UpToDate(t, w, c)
  {
    RunView(t, w, Incremental, cands, s);
    RunView(t, w, Full, cands, s);
    ParsedViewOfScan(w, cands, HashesOf(t), false);
    ParsedViewOfScan(w, cands, HashesOf(t), true);
    var inc, full := ViewOf(AfterRun(t, w, Incremental, cands, s)), ViewOf(AfterRun(t, w, Full, cands, s));
    hide AfterRun, ViewOf, HashesOf, Rescanned, GroupNow, Sound, UpToDate, ParsedView, FtsAgrees, GraphCurrent, CountsAgree;
    assert c.rel in RelSet(cands);
    AgreeAt(t, w, c, inc, full);
  }

  /** Two views over candidate paths are equal when they agree at every candidate. */
  lemma ViewsAgree(cands: seq<Candidate>, a: View, b: View)
    requires forall p :: p in a || p in b ==> p in RelSet(cands)
    ensures a == b <==> forall c :: c in cands ==> (c.rel in a <==> c.rel in b) && (c.rel in a ==> a[c.rel] == b[c.rel])
  {
    if forall c :: c in cands ==> (c.rel in a <==> c.rel in b) && (c.rel in a ==> a[c.rel] == b[c.rel]) {
      forall p | p in a || p in b ensures p in a && p in b && a[p] == b[p] {
        var c :| c in cands && c.rel == p;
      }
      assert a.Keys == b.Keys;
    }
  }

  /** The stored edges read by path. */
  ghost function PathGraph(t: Tables): set<(Path, Path)> {
    set e | e in t.depEdges && e.0 in t.files && e.1 in t.files :: (t.files[e.0].path, t.files[e.1].path)
  }

  /** By path, the stored import graph is exactly the resolved imports of the view, whatever the row ids are. */
  lemma PathGraphIsViewed(t: Tables, p: Path, q: Path)
    requires Linked(t) && GraphCurrent(t)
    ensures (p, q) in PathGraph(t) <==> PathEdge(ViewOf(t), p, q)
  {
    EdgeSetIs(t);
    ViewEntries(t);
    hide EdgeSet, LinkSet, ViewOf, EdgeAt, PathEdge, LinkAt, PathLink;
    if (p, q) in PathGraph(t) {
      var e :| e in t.depEdges && e.0 in t.files && e.1 in t.files && t.files[e.0].path == p && t.files[e.1].path == q;
      GraphIsViewed(t, e.0, e.1);
    }
    if PathEdge(ViewOf(t), p, q) {
      EdgeEnds(ViewOf(t), p, q);
      var a, b := IdAt(t, p), IdAt(t, q);
      GraphIsViewed(t, a, b);
      assert (a, b) in t.depEdges;
    }
  }

  lemma EdgeEnds(v: View, p: Path, q: Path)
    requires PathEdge(v, p, q)
    ensures p in v && q in v
  {
  }

  /** So an incremental run whose view matches a rebuild has the rebuild's graph too. */
  lemma IncrementalGraph(t: Tables, w: World, cands: seq<Candidate>, s: Stamp)
    requires Consistent(t) && Sound(w.registry, ViewOf(t)) && DistinctRels(cands)
    requires forall c :: c in cands ==> UpToDate(t, w, c)
    ensures PathGraph(AfterRun(t, w, Incremental, cands, s)) == PathGraph(AfterRun(t, w, Full, cands, s))
  {
    var inc, full := AfterRun(t, w, Incremental, cands, s), AfterRun(t, w, Full, cands, s);
    IncrementalRefinesFull(t, w, cands, s);
    RunView(t, w, Incremental, cands, s);
    RunView(t, w, Full, cands, s);
    hide AfterRun, ViewOf, UpToDate, PathEdge, PathGraph, GraphCurrent;
    forall e ensures e in PathGraph(inc) <==> e in PathGraph(full) {
      PathGraphIsViewed(inc, e.0, e.1);
      PathGraphIsViewed(full, e.0, e.1);
    }
  }

  // ---- the dry run ----

  /** status counts a changed candidate as one that would be indexed. */
  function AddStatus(c: Counts, o: Outcome): Counts {
    match o.skip
    case Binary => c.(skippedBinary := c.skippedBinary + 1)
    case Oversized => c.(skippedOversized := c.skippedOversized + 1)
    case Unreadable => c.(skippedUnreadable := c.skippedUnreadable + 1)
    case NotSkipped => if o.changed then c.(indexed := c.indexed + 1) else c.(kept := c.kept + 1)
  }

  function StatusAll(c: Counts, outs: seq<Outcome>): Counts {
    if outs == [] then c else AddStatus(StatusAll(c, outs[..|outs| - 1]), outs[|outs| - 1])
  }

  datatype StatusReport = StatusReport(counts: Counts, head: string, dirty: bool, totalFiles: nat)

  /** head and dirty are git's answers; None is a failing git. */
  method SummarizeStatus(head: Option<string>, dirty: Option<bool>, cands: seq<Candidate>, existing: map<Path, Digest>, outs: seq<Outcome>)
    returns (r: Option<StatusReport>)
    ensures r.None? <==> head.None? || dirty.None?
    ensures r.Some? ==>
      r.value == StatusReport(StatusAll(NO_COUNTS, outs).(deleted := |existing.Keys - RelSet(cands)|), head.value, dirty.value, |existing|)
  {
    var c := NO_COUNTS;
    var i := 0;
    while i < |outs|
      invariant 0 <= i <= |outs|
      invariant c == StatusAll(NO_COUNTS, outs[..i]) && c.deleted == 0
    {
      assert outs[..i + 1][..i] == outs[..i];
      c := AddStatus(c, outs[i]);
      i := i + 1;
    }
    assert outs[..i] == outs;
    ghost var tally := c;
    var todo := existing.Keys - RelSet(cands);
    while todo != {}
      invariant todo <= existing.Keys - RelSet(cands)
      invariant c == tally.(deleted := c.deleted) && c.deleted + |todo| == |existing.Keys - RelSet(cands)|
      decreases todo
    {
      var p :| p in todo;
      todo := todo - {p};
      c := c.(deleted := c.deleted + 1);
    }
    if head.None? {
      return None;
    }
    if dirty.None? {
      return None;
    }
    r := Some(StatusReport(c, head.value, dirty.value, |existing|));
  }

  function PathsOf(files: map<Id, FileRecord>, ids: set<Id>): set<Path>
    requires ids <= files.Keys
  {
    set id | id in ids :: files[id].path
  }

  lemma {:induction false} PathsCounted(files: map<Id, FileRecord>, ids: set<Id>)
    requires UniquePaths(files) && ids <= files.Keys
    ensures |PathsOf(files, ids)| == |ids|
  {
    if ids == {} {
      assert PathsOf(files, ids) == {};
    } else {
      var id :| id in ids;
      var rest := ids - {id};
      PathsCounted(files, rest);
      assert PathsOf(files, ids) == PathsOf(files, rest) + {files[id].path};
      assert files[id].path !in PathsOf(files, rest);
    }
  }

  /** The total a status reports is the number of file rows, which index_meta counts too. */
  lemma TotalIsStored(t: Tables)
    requires Linked(t)
    ensures |HashesOf(t)| == |t.files|
    ensures CountsAgree(t) ==> |HashesOf(t)| == t.meta.filesCount
  {
    ViewEntries(t);
    PathsCounted(t.files, t.files.Keys);
    hide ViewOf;
    assert HashesOf(t).Keys == PathsOf(t.files, t.files.Keys);
    assert |HashesOf(t)| == |HashesOf(t).Keys| && |t.files| == |t.files.Keys|;
  }

  /** Without the symbol count, which a dry run does not have. */
  function Countable(c: Counts): Counts {
    c.(symbols := 0)
  }

  lemma {:induction false} StatusMatches(w: World, cands: seq<Candidate>, existing: map<Path, Digest>, c: Counts, d: Counts)
    requires Countable(c) == Countable(d) && c.symbols == 0
    ensures var dry, wet := ScanAll(w, cands, existing, false, false), ScanAll(w, cands, existing, false, true);
            StatusAll(c, dry) == Countable(CountAll(d, wet))
  {
    if cands != [] {
      var n := |cands| - 1;
      ScanAllSnoc(w, cands, existing, false);
      ScanAllSnoc(w, cands, existing, true);
      StatusMatches(w, cands[..n], existing, c, d);
      StatusStep(w, cands[n], existing, StatusAll(c, ScanAll(w, cands[..n], existing, false, false)),
                 CountAll(d, ScanAll(w, cands[..n], existing, false, true)));
      hide ScanAll, ScanOne, AddStatus, AddOutcome, Countable;
    }
  }

  lemma ScanAllSnoc(w: World, cands: seq<Candidate>, existing: map<Path, Digest>, doParse: bool)
    requires cands != []
    ensures var n, outs := |cands| - 1, ScanAll(w, cands, existing, false, doParse);
            outs != [] && outs[..|outs| - 1] == ScanAll(w, cands[..n], existing, false, doParse)
            && outs[|outs| - 1] == ScanOne(w, cands[n], existing, false, doParse)
  {
    hide ScanOne;
  }

  lemma StatusStep(w: World, x: Candidate, existing: map<Path, Digest>, c: Counts, d: Counts)
    requires c == Countable(d)
    ensures AddStatus(c, ScanOne(w, x, existing, false, false)) == Countable(AddOutcome(d, ScanOne(w, x, existing, false, true)))
  {
    hide SkipOf, IsChanged, Parse;
  }

  lemma {:induction false} CountsAddUp(outs: seq<Outcome>, c: Counts)
    ensures var r := CountAll(c, outs);
            && r.deleted == c.deleted
            && r.indexed + r.kept + r.skippedBinary + r.skippedOversized + r.skippedUnreadable
               == c.indexed + c.kept + c.skippedBinary + c.skippedOversized + c.skippedUnreadable + |outs|
  {
    if outs != [] {
      CountsAddUp(outs[..|outs| - 1], c);
    }
  }

  /** Status on a tree reports the numbers an incremental run on that tree then reports, and every candidate is counted once. */
  lemma StatusIsDryRun(t: Tables, w: World, cands: seq<Candidate>)
    requires Linked(t)
    ensures var existing := HashesOf(t);
            var gone := existing.Keys - RelSet(cands);
            var status := StatusAll(NO_COUNTS, ScanAll(w, cands, existing, false, false)).(deleted := |gone|);
            var run := WriteCounts(Incremental, gone, ScanAll(w, cands, existing, false, true));
            && status == Countable(run)
            && run.indexed + run.kept + run.skippedBinary + run.skippedOversized + run.skippedUnreadable == |cands|
  {
    var existing := HashesOf(t);
    var gone := existing.Keys - RelSet(cands);
    var wet := ScanAll(w, cands, existing, false, true);
    StatusMatches(w, cands, existing, NO_COUNTS, NO_COUNTS);
    CountsAddUp(wet, NO_COUNTS.(deleted := |gone|));
    DeletedRidesAlong(wet, NO_COUNTS, |gone|);
    CountsAddUp(wet, NO_COUNTS);
  }

  lemma {:induction false} DeletedRidesAlong(outs: seq<Outcome>, c: Counts, n: nat)
    ensures CountAll(c.(deleted := n), outs) == CountAll(c, outs).(deleted := n)
  {
    if outs != [] {
      DeletedRidesAlong(outs[..|outs| - 1], c, n);
    }
  }

  // ---- the fixpoint ----

  lemma {:induction false} NothingParsed(t: Tables, outs: seq<Outcome>)
    requires forall i :: 0 <= i < |outs| ==> outs[i].parsed.None?
    ensures PutAll(t, outs) == t
    ensures forall c :: CountAll(c, outs).indexed == c.indexed
  {
    if outs != [] {
      NothingParsed(t, outs[..|outs| - 1]);
    }
  }

  /** After an incremental run, no candidate is changed any more. */
  lemma SettledAt(t: Tables, w: World, cands: seq<Candidate>, s: Stamp, c: Candidate)
    requires Consistent(t) && DistinctRels(cands) && c in cands && SkipOf(w, c.rel) == NotSkipped
    ensures Linked(AfterRun(t, w, Incremental, cands, s))
    ensures !IsChanged(w, c, HashesOf(AfterRun(t, w, Incremental, cands, s)))
  {
    var t' := AfterRun(t, w, Incremental, cands, s);
    RunView(t, w, Incremental, cands, s);
    ParsedViewOfScan(w, cands, HashesOf(t), false);
    hide AfterRun, ViewOf, ParsedView, SkipOf;
    if IsChanged(w, c, HashesOf(t)) {
      assert Rescanned(w, c, HashesOf(t), false);
      assert ViewOf(t')[c.rel] == GroupNow(w, c);
      NowHash(w, c);
    } else {
      ChangedUnlessIndexed(t, w, c);
      assert !Rescanned(w, c, HashesOf(t), false);
      assert c.rel in RelSet(cands);
      assert ViewOf(t')[c.rel] == ViewOf(t)[c.rel];
    }
  }

  lemma NowHash(w: World, c: Candidate)
    requires SkipOf(w, c.rel) == NotSkipped
    ensures EffectiveHash(GroupNow(w, c).file) == ContentHash(w.tree[c.rel], c.tracked)
  {
  }

  /** A second scan of the same tree parses nothing, and no path has vanished. */
  lemma SecondScan(t: Tables, w: World, cands: seq<Candidate>, s: Stamp)
    requires Consistent(t) && DistinctRels(cands)
    ensures var t' := AfterRun(t, w, Incremental, cands, s);
            && Linked(t') && HashesOf(t').Keys - RelSet(cands) == {}
            && var outs := ScanAll(w, cands, HashesOf(t'), false, true);
               forall i :: 0 <= i < |outs| ==> outs[i].parsed.None?
  {
    var t' := AfterRun(t, w, Incremental, cands, s);
    RunView(t, w, Incremental, cands, s);
    ParsedViewOfScan(w, cands, HashesOf(t), false);
    var existing := HashesOf(t');
    assert existing.Keys == ViewOf(t').Keys;
    var outs := ScanAll(w, cands, existing, false, true);
    forall i | 0 <= i < |outs| ensures outs[i].parsed.None? {
      ScanOneParses(w, cands[i], existing, false);
      if SkipOf(w, cands[i].rel) == NotSkipped {
        SettledAt(t, w, cands, s, cands[i]);
      }
    }
    hide AfterRun, ViewOf, ParsedView, SkipOf, ScanAll, HashesOf;
  }

  /** A second incremental run on the same tree indexes nothing, deletes nothing and leaves every table as it was. */
  lemma SecondRunIsIdle(t: Tables, w: World, cands: seq<Candidate>, s: Stamp, s': Stamp)
    requires Consistent(t) && DistinctRels(cands)
    ensures var t' := AfterRun(t, w, Incremental, cands, s);
            && Linked(t')
            && AfterRun(t', w, Incremental, cands, s') == Stamped(t', s')
            && var gone := HashesOf(t').Keys - RelSet(cands);
               var counts := WriteCounts(Incremental, gone, ScanAll(w, cands, HashesOf(t'), false, true));
               counts.indexed == 0 && counts.deleted == 0
  {
    var t' := AfterRun(t, w, Incremental, cands, s);
    SecondScan(t, w, cands, s);
    RunView(t, w, Incremental, cands, s);
    var existing := HashesOf(t');
    var outs := ScanAll(w, cands, existing, false, true);
    NothingParsed(t', outs);
    CountsAddUp(outs, NO_COUNTS.(deleted := 0));
    hide AfterRun, ViewOf, ScanAll, HashesOf;
    DeleteNone(t');
    StampKeepsGraph(t', s');
    IdleRun(t', w, cands, s', existing, outs);
  }

  lemma StampKeepsGraph(t: Tables, s: Stamp)
    requires GraphCurrent(t)
    ensures WithGraph(Stamped(t, s)) == Stamped(t, s)
  {
    var u := Stamped(t, s);
    EdgeSetIs(t);
    EdgeSetIs(u);
    hide EdgeSet, LinkSet;
    forall a, b ensures EdgeAt(u, a, b) <==> EdgeAt(t, a, b) {}
    forall a, b ensures LinkAt(u, a, b) <==> LinkAt(t, a, b) {}
    assert EdgeSet(u) == EdgeSet(t);
    assert LinkSet(u) == LinkSet(t);
  }

  lemma IdleRun(t: Tables, w: World, cands: seq<Candidate>, s: Stamp, existing: map<Path, Digest>, outs: seq<Outcome>)
    requires Linked(t) && existing == HashesOf(t) && outs == ScanAll(w, cands, existing, false, true)
    requires PutAll(t, outs) == t && existing.Keys - RelSet(cands) == {} && DeletePaths(t, {}) == t
    requires WithGraph(Stamped(t, s)) == Stamped(t, s)
    ensures AfterRun(t, w, Incremental, cands, s) == Stamped(t, s)
  {
    hide ScanAll, HashesOf, PutAll, DeletePaths, WithGraph, Stamped;
  }
}
