/** Phase two: the metadata transaction. */
module Indexing {
  import opened Base
  import opened Ids
  import opened Digests
  import opened Extraction
  import opened CodeTables
  import opened CodeView
  import opened CodeStore
  import opened Scanning

  datatype Mode = Incremental | Full | Changed

  datatype Counts = Counts(
    indexed: nat, kept: nat, deleted: nat, symbols: nat,
    skippedBinary: nat, skippedOversized: nat, skippedUnreadable: nat)

  // ---- the transaction as a function of the tables ----

  function IdsAtAny(files: map<Id, FileRecord>, paths: set<Path>): set<Id> {
    set id | id in files && files[id].path in paths
  }

  function DeletePaths(t: Tables, paths: set<Path>): Tables {
    var gone := IdsAtAny(t.files, paths);
    t.(fts := map r | r in t.fts && t.fts[r].path !in paths :: t.fts[r],
       files := t.files - gone,
       symbols := SymbolsWithout(t.symbols, gone),
       derived := t.derived - gone,
       depEdges := EdgesWithout(t.depEdges, gone),
       testLinks := EdgesWithout(t.testLinks, gone))
  }

  function Put(t: Tables, p: Parsed): Tables {
    PutFile(t, p.record, p.symbols, p.derived)
  }

  function PutAll(t: Tables, outs: seq<Outcome>): Tables {
    if outs == [] then t else
    var u := PutAll(t, outs[..|outs| - 1]);
    match outs[|outs| - 1].parsed
    case Some(p) => Put(u, p)
    case None => u
  }

  function Prepared(t: Tables, mode: Mode, gone: set<Path>): Tables {
    match mode
    case Full => Clear(t)
    case Incremental => DeletePaths(t, gone)
    case Changed => t
  }

  /** head, dirty flag and time come from git and the clock. */
  datatype Stamp = Stamp(head: string, dirty: bool, at: string)

  function Stamped(t: Tables, s: Stamp): Tables {
    t.(meta := IndexMeta(s.head, s.dirty, |t.files|, |t.symbols|, s.at))
  }

  function WriteTables(t: Tables, mode: Mode, gone: set<Path>, outs: seq<Outcome>, s: Stamp): Tables {
    Stamped(PutAll(Prepared(t, mode, gone), outs), s)
  }

  function AddOutcome(c: Counts, o: Outcome): Counts {
    match o.skip
    case Binary => c.(skippedBinary := c.skippedBinary + 1)
    case Oversized => c.(skippedOversized := c.skippedOversized + 1)
    case Unreadable => c.(skippedUnreadable := c.skippedUnreadable + 1)
    case NotSkipped =>
      match o.parsed
      case Some(p) => c.(indexed := c.indexed + 1, symbols := c.symbols + |p.symbols|)
      case None => c.(kept := c.kept + 1)
  }

  function CountAll(c: Counts, outs: seq<Outcome>): Counts {
    if outs == [] then c else AddOutcome(CountAll(c, outs[..|outs| - 1]), outs[|outs| - 1])
  }

  const NO_COUNTS := Counts(0, 0, 0, 0, 0, 0, 0)

  function WriteCounts(mode: Mode, gone: set<Path>, outs: seq<Outcome>): Counts {
    CountAll(NO_COUNTS.(deleted := if mode == Incremental then |gone| else 0), outs)
  }

  ghost predicate Writable(outs: seq<Outcome>) {
    forall o :: o in outs && o.parsed.Some? ==> DistinctKeys(o.parsed.value.symbols)
  }

  lemma DeleteOneMore(t: Tables, paths: set<Path>, p: Path)
    ensures DeletePath(DeletePaths(t, paths), p) == DeletePaths(t, paths + {p})
  {
    var u, v := DeletePath(DeletePaths(t, paths), p), DeletePaths(t, paths + {p});
    assert IdsAtAny(t.files, paths + {p}) == IdsAtAny(t.files, paths) + IdsAt(t.files - IdsAtAny(t.files, paths), p);
    assert u.fts == v.fts;
    assert u.files == v.files;
    assert u.symbols == v.symbols;
    assert u.derived == v.derived;
    assert u.depEdges == v.depEdges;
    assert u.testLinks == v.testLinks;
  }

  lemma DeleteNone(t: Tables)
    ensures DeletePaths(t, {}) == t
  {
    assert DeletePaths(t, {}).fts == t.fts;
    assert IdsAtAny(t.files, {}) == {};
  }

  // ---- what the transaction does to the view ----

  function ParsedView(outs: seq<Outcome>): View {
    if outs == [] then map[] else
    var v := ParsedView(outs[..|outs| - 1]);
    match outs[|outs| - 1].parsed
    case Some(p) => v[p.record.path := GroupOf(p)]
    case None => v
  }

  lemma {:induction false} DeletePathsView(t: Tables, paths: set<Path>)
    requires Consistent(t)
    ensures Consistent(DeletePaths(t, paths))
    ensures ViewOf(DeletePaths(t, paths)) == ViewOf(t) - paths
  {
    assert Linked(t);
    hide *;
    if paths == {} {
      DeleteNone(t);
      assert ViewOf(t) - {} == ViewOf(t);
    } else {
      var p :| p in paths;
      var u := DeletePaths(t, paths - {p});
      DeletePathsView(t, paths - {p});
      DeleteOneMore(t, paths - {p}, p);
      assert paths - {p} + {p} == paths;
      ConsistentLinked(u);
      DeleteConsistent(u, p);
      DeleteView(u, p);
      ConsistentLinked(DeletePath(u, p));
      assert ViewOf(t) - (paths - {p}) - {p} == ViewOf(t) - paths;
    }
  }

  lemma PutView(t: Tables, p: Parsed, a: View, b: View)
    requires Consistent(t) && ViewOf(t) == a + b
    ensures Consistent(Put(t, p))
    ensures ViewOf(Put(t, p)) == a + b[p.record.path := GroupOf(p)]
  {
    hide Linked, FtsAgrees, ViewOf, PutFile;
    PutFileConsistent(t, p.record, p.symbols, p.derived);
    PutFileView(t, p.record, p.symbols, p.derived);
    assert (a + b)[p.record.path := GroupOf(p)] == a + b[p.record.path := GroupOf(p)];
  }

  lemma {:induction false} PutAllView(t: Tables, outs: seq<Outcome>)
    requires Consistent(t)
    ensures Consistent(PutAll(t, outs))
    ensures ViewOf(PutAll(t, outs)) == ViewOf(t) + ParsedView(outs)
  {
    hide FtsAgrees, Linked, ViewOf, Put, GroupOf;
    if outs == [] {
      assert ViewOf(t) + map[] == ViewOf(t);
    } else {
      var init := outs[..|outs| - 1];
      PutAllView(t, init);
      match outs[|outs| - 1].parsed
      case Some(p) => PutView(PutAll(t, init), p, ViewOf(t), ParsedView(init));
      case None =>
    }
  }

  lemma StampedView(t: Tables, s: Stamp)
    requires Consistent(t)
    ensures Consistent(Stamped(t, s)) && ViewOf(Stamped(t, s)) == ViewOf(t)
  {
    var u := Stamped(t, s);
    hide ViewOf;
    assert Linked(u);
    forall row ensures Listed(u.fts, row) <==> Resolves(u, row) {
      assert Listed(t.fts, row) <==> Resolves(t, row);
    }
    SameView(t, u);
  }

  lemma ConsistentLinked(t: Tables)
    requires Consistent(t)
    ensures Linked(t)
  {
  }

  /** The view a run leaves, in each mode. */
  function WrittenView(v: View, mode: Mode, gone: set<Path>, outs: seq<Outcome>): View {
    match mode
    case Full => ParsedView(outs)
    case Incremental => (v - gone) + ParsedView(outs)
    case Changed => v + ParsedView(outs)
  }

  /** index_meta counts what the tables hold. */
  predicate CountsAgree(t: Tables) {
    t.meta.filesCount == |t.files| && t.meta.symbolsCount == |t.symbols|
  }

  lemma PreparedView(t: Tables, mode: Mode, gone: set<Path>)
    requires Consistent(t)
    ensures Consistent(Prepared(t, mode, gone))
    ensures ViewOf(Prepared(t, mode, gone)) == match mode case Full => map[] case Incremental => ViewOf(t) - gone case Changed => ViewOf(t)
  {
    match mode
    case Full =>
      ClearConsistent(t);
      assert forall p :: !HasPath(Clear(t), p);
      ViewEntries(Clear(t));
      assert ViewOf(Clear(t)) == map[];
    case Incremental => DeletePathsView(t, gone);
    case Changed =>
  }

  /** A committed metadata transaction keeps all tables consistent, counts them, and changes the view as its mode says. */
  lemma WriteView(t: Tables, mode: Mode, gone: set<Path>, outs: seq<Outcome>, s: Stamp)
    requires Consistent(t)
    ensures var t' := WriteTables(t, mode, gone, outs, s);
            && Consistent(t') && CountsAgree(t')
            && ViewOf(t') == WrittenView(ViewOf(t), mode, gone, outs)
  {
    var u := Prepared(t, mode, gone);
    hide FtsAgrees, Linked, ViewOf, PutAll, Prepared;
    PreparedView(t, mode, gone);
    PutAllView(u, outs);
    StampedView(PutAll(u, outs), s);
    assert map[] + ParsedView(outs) == ParsedView(outs);
  }

  // ---- the transaction ----

  /** One atomic transaction: None is a failed insert, and leaves every table as it was. */
  method Write(db: CodeDb, mode: Mode, cands: seq<Candidate>, existing: map<Path, Digest>, outs: seq<Outcome>, s: Stamp)
    returns (res: Option<Counts>)
    requires Consistent(db.Snapshot())
    modifies db
    ensures res.Some? <==> Writable(outs)
    ensures res.None? ==> db.Snapshot() == old(db.Snapshot())
    ensures res.Some? ==>
      && db.Snapshot() == WriteTables(old(db.Snapshot()), mode, existing.Keys - RelSet(cands), outs, s)
      && res.value == WriteCounts(mode, existing.Keys - RelSet(cands), outs)
  {
    var before := db.Snapshot();
    var gone := existing.Keys - RelSet(cands);
    ghost var start := Prepared(before, mode, gone);
    PreparedView(before, mode, gone);
    hide Consistent, DistinctKeys, PutAll, DeletePaths, CountAll, Writable;
    var deleted := 0;
    if mode == Full {
      db.ClearIndex();
    } else if mode == Incremental {
      deleted := DeleteGone(db, gone);
    }
    res := PutOutcomes(db, outs, NO_COUNTS.(deleted := deleted));
    if res.None? {
      db.Rollback(before);
    } else {
      db.SetIndexState(s.head, s.dirty, |db.files|, |db.symbols|, s.at);
    }
  }

  /** The loop over the outcomes: it writes the parsed files and bumps the counters. */
  method PutOutcomes(db: CodeDb, outs: seq<Outcome>, start: Counts) returns (res: Option<Counts>)
    requires Consistent(db.Snapshot())
    modifies db
    ensures res.Some? <==> Writable(outs)
    ensures res.Some? ==> db.Snapshot() == PutAll(old(db.Snapshot()), outs) && res.value == CountAll(start, outs)
  {
    ghost var before := db.Snapshot();
    var c := start;
    hide FtsAgrees, Linked, Writable, Put, CanPut;
    NoneWritable(outs);
    var i := 0;
    while i < |outs|
      invariant 0 <= i <= |outs|
      invariant db.Snapshot() == PutAll(before, outs[..i])
      invariant Writable(outs[..i])
      invariant c == CountAll(start, outs[..i])
    {
      PutAllView(before, outs[..i]);
      WritableSnoc(outs, i);
      assert outs[..i + 1][..i] == outs[..i];
      var ok := PutOutcome(db, outs[i]);
      if !ok {
        return None;
      }
      c := AddOutcome(c, outs[i]);
      i := i + 1;
    }
    assert outs[..i] == outs;
    res := Some(c);
  }

  ghost predicate CanPut(o: Outcome) {
    o.parsed.Some? ==> DistinctKeys(o.parsed.value.symbols)
  }

  /** One outcome of the loop: only a parsed file is written. */
  method PutOutcome(db: CodeDb, o: Outcome) returns (ok: bool)
    requires Consistent(db.Snapshot())
    modifies db
    ensures ok <==> CanPut(o)
    ensures ok ==> db.Snapshot() == match o.parsed case Some(p) => Put(old(db.Snapshot()), p) case None => old(db.Snapshot())
  {
    hide FtsAgrees, Linked, DistinctKeys, PutFile;
    ok := true;
    if o.parsed.Some? {
      var p := o.parsed.value;
      var n := db.PutFile(p.record, p.symbols, p.derived.imports, p.derived.exports, p.derived.todos);
      ok := n.Some?;
    }
  }

  lemma NoneWritable(outs: seq<Outcome>)
    ensures Writable(outs[..0])
  {
  }

  lemma WritableSnoc(outs: seq<Outcome>, i: int)
    requires 0 <= i < |outs| && Writable(outs[..i])
    ensures Writable(outs[..i + 1]) <==> CanPut(outs[i])
    ensures Writable(outs) ==> Writable(outs[..i + 1])
  {
    hide DistinctKeys;
    assert outs[..i + 1] == outs[..i] + [outs[i]];
  }

  /** Deletes the vanished paths, in any order. */
  method DeleteGone(db: CodeDb, gone: set<Path>) returns (n: nat)
    requires Consistent(db.Snapshot())
    modifies db
    ensures db.Snapshot() == DeletePaths(old(db.Snapshot()), gone)
    ensures Consistent(db.Snapshot()) && n == |gone|
  {
    ghost var before := db.Snapshot();
    var todo := gone;
    n := 0;
    DeleteNone(before);
    hide FtsAgrees, Linked, DeletePaths, DeletePath;
    assert gone - todo == {};
    while todo != {}
      invariant todo <= gone
      invariant db.Snapshot() == DeletePaths(before, gone - todo)
      invariant n == |gone| - |todo|
      decreases todo
    {
      var p :| p in todo;
      DeleteOneMore(before, gone - todo, p);
      assert gone - todo + {p} == gone - (todo - {p});
      db.DeleteFileByPath(p);
      n := n + 1;
      todo := todo - {p};
    }
    assert gone - todo == gone;
    DeletePathsView(before, gone);
  }
}
