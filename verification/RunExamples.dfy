/** Two histories after which an incremental run does not leave what a rebuild leaves. */
module RunExamples {
  import opened Base
  import opened Digests
  import opened CodeTables
  import opened CodeView
  import opened CodeStore
  import opened Scanning
  import opened Indexing
  import opened MetadataTheorems

  /** No extractor is registered, so every file is indexed without symbols. */
  function NoLanguages(): Registry {
    Registry((p: Path) => None, (lang: string, source: string) => None)
  }

  /** One tracked file f, in a package. */
  function OneFile(content: string, pkg: string): World {
    World(NoLanguages(), map["f" := content], 0, (p: Path) => pkg, false)
  }

  const F := Candidate("f", true)
  const STAMP := Stamp("head", false, "now")

  function FirstRun(): Step {
    IndexRun(OneFile("text", "old"), Incremental, [F], STAMP)
  }

  /** The tables after one run from an empty store. */
  ghost function Indexed(): (t: Tables)
    ensures Consistent(t) && Linked(t)
  {
    AfterAll([FirstRun()])
  }

  /** From these tables, on this tree, the two modes leave different views. */
  ghost predicate Diverge(w: World) {
    var inc, full := AfterRun(Indexed(), w, Incremental, [F], STAMP), AfterRun(Indexed(), w, Full, [F], STAMP);
    Linked(inc) && Linked(full) && ViewOf(inc) != ViewOf(full)
  }

  lemma StaleDiverges(w: World)
    requires w.registry == NoLanguages() && !UpToDate(Indexed(), w, F)
    ensures Diverge(w)
  {
    IndexedIs();
    hide Indexed, AfterRun, ViewOf, Sound, UpToDate, Linked;
    assert F in [F];
    IncrementalRefinesFull(Indexed(), w, [F], STAMP);
  }

  lemma FirstRunIs()
    ensures Consistent(EMPTY_TABLES) && Linked(EMPTY_TABLES)
    ensures Indexed() == AfterRun(EMPTY_TABLES, OneFile("text", "old"), Incremental, [F], STAMP)
  {
    assert [FirstRun()][..0] == [];
    ClearConsistent(EMPTY_TABLES);
    assert Clear(EMPTY_TABLES) == EMPTY_TABLES;
    hide AfterRun, Linked, FtsAgrees;
  }

  lemma FirstView(w: World)
    requires w == OneFile("text", "old")
    ensures Linked(EMPTY_TABLES) && SkipOf(w, "f") == NotSkipped && Rescanned(w, F, HashesOf(EMPTY_TABLES), false)
    ensures GroupNow(w, F).file.pkg == "old"
  {
    ViewEntries(EMPTY_TABLES);
    assert SkipOf(w, "f") == NotSkipped;
  }

  lemma IndexedIs()
    ensures Consistent(Indexed()) && Sound(NoLanguages(), ViewOf(Indexed()))
    ensures Linked(Indexed()) && "f" in ViewOf(Indexed()) && ViewOf(Indexed())["f"].file.pkg == "old"
    ensures SkipOf(OneFile("text", "old"), "f") == NotSkipped && !IsChanged(OneFile("text", "old"), F, HashesOf(Indexed()))
  {
    HistoryInvariant(NoLanguages(), [FirstRun()]);
    hide *;
    FirstRunIs();
    var w := OneFile("text", "old");
    FirstView(w);
    SingleCandidate();
    SettledAt(EMPTY_TABLES, w, [F], STAMP, F);
    WrittenEntry(EMPTY_TABLES, w);
  }

  lemma SingleCandidate()
    ensures DistinctRels([F]) && F in [F] && F.rel == "f" && F.rel in RelSet([F])
  {
  }

  lemma WrittenEntry(t: Tables, w: World)
    requires Consistent(t) && Linked(t) && Rescanned(w, F, HashesOf(t), false)
    ensures var t' := AfterRun(t, w, Incremental, [F], STAMP);
            Linked(t') && "f" in ViewOf(t') && ViewOf(t')["f"] == GroupNow(w, F)
  {
    SingleCandidate();
    hide AfterRun, ViewOf, ParsedView, GroupNow, HashesOf, ScanAll;
    RunView(t, w, Incremental, [F], STAMP);
    ParsedViewOfScan(w, [F], HashesOf(t), false);
    assert ScanEntry(w, F, HashesOf(t), false, ScanView(t, w, Incremental, [F]));
  }

  /** A file that turns binary: the incremental run keeps its rows, a rebuild has none. */
  lemma BinaryStays()
    ensures Diverge(OneFile([NUL], "old"))
  {
    var w := OneFile([NUL], "old");
    assert NUL in w.tree["f"] && SkipOf(w, "f") == Binary;
    hide Indexed, ViewOf, SkipOf, Diverge, Linked, Sound, HashesOf;
    IndexedIs();
    StaleDiverges(w);
  }

  lemma StalePackage(t: Tables, w: World)
    requires Linked(t) && "f" in ViewOf(t) && SkipOf(w, "f") == NotSkipped && !IsChanged(w, F, HashesOf(t))
    requires ViewOf(t)["f"].file.pkg != w.pkgOf("f")
    ensures !UpToDate(t, w, F)
  {
    hide ViewOf, Linked, IsChanged, HashesOf, SkipOf;
  }

  lemma SameTree(v: World, w: World, existing: map<Path, Digest>)
    requires v.tree == w.tree && v.maxFileSize == w.maxFileSize && SkipOf(v, "f") == NotSkipped && !IsChanged(v, F, existing)
    ensures SkipOf(w, "f") == NotSkipped && !IsChanged(w, F, existing)
  {
  }

  /** A manifest appears above an unchanged file: the incremental run keeps the old package, a rebuild has the new one. */
  lemma PackageStays()
    ensures Diverge(OneFile("text", "new"))
  {
    var v, w := OneFile("text", "old"), OneFile("text", "new");
    assert w.pkgOf("f") == "new" && v.tree == w.tree && v.maxFileSize == w.maxFileSize && w.registry == NoLanguages();
    hide *;
    IndexedIs();
    SameTree(v, w, HashesOf(Indexed()));
    StalePackage(Indexed(), w);
    StaleDiverges(w);
  }
}
