/** The repository methods over the code tables. A transaction is a snapshot plus, on failure, a rollback to it. */
module CodeStore {
  import opened Base
  import opened Ids
  import opened Digests
  import opened CodeTables
  import opened CodeView

  function EffectiveHash(f: FileRecord): Digest {
    if f.blobOid != NoDigest then f.blobOid else f.contentSha
  }

  /** The stored change key of every indexed path. */
  ghost function HashesOf(t: Tables): map<Path, Digest>
    requires Linked(t)
  {
    map p | p in ViewOf(t) :: EffectiveHash(ViewOf(t)[p].file)
  }

  function SetOf<T>(s: seq<T>): set<T> {
    set x | x in s
  }

  predicate SameKey(a: SymbolRecord, b: SymbolRecord) {
    a.name == b.name && a.kind == b.kind && a.container == b.container
  }

  ghost predicate DistinctKeys(syms: seq<SymbolRecord>) {
    forall i, j :: 0 <= i < j < |syms| ==> !SameKey(syms[i], syms[j])
  }

  lemma {:induction false} AddSymbolsDerived(t: Tables, fileId: Id, f: FileRecord, syms: seq<SymbolRecord>, d: map<Id, Derived>)
    ensures AddSymbols(t.(derived := d), fileId, f, syms) == AddSymbols(t, fileId, f, syms).(derived := d)
  {
    if syms != [] {
      AddSymbolsDerived(t, fileId, f, syms[..|syms| - 1], d);
    }
  }

  /** A row of the file clashes with s exactly when an inserted symbol does. */
  lemma RowClash(t: Tables, base: Tables, fileId: Id, done: seq<SymbolRecord>, s: SymbolRecord)
    requires Holds(t, base, fileId, done)
    ensures (exists id :: id in t.symbols && t.symbols[id].fileId == fileId && SameKey(t.symbols[id].rec, s))
            <==> (exists j :: 0 <= j < |done| && SameKey(done[j], s))
  {
    var ids := SymbolIds(t, fileId);
    forall j | 0 <= j < |done| && SameKey(done[j], s)
      ensures exists id :: id in t.symbols && t.symbols[id].fileId == fileId && SameKey(t.symbols[id].rec, s)
    {
      assert ids[j] in ids;
      assert t.symbols[ids[j]].rec == done[j];
    }
    forall id | id in t.symbols && t.symbols[id].fileId == fileId && SameKey(t.symbols[id].rec, s)
      ensures exists j :: 0 <= j < |done| && SameKey(done[j], s)
    {
      assert id in ids;
      var j :| 0 <= j < |ids| && ids[j] == id;
      assert done[j] == t.symbols[id].rec;
    }
  }

  /** PutFile with the imports, exports and todos written last, as the statements are ordered. */
  lemma PutFileInSteps(t: Tables, f: FileRecord, syms: seq<SymbolRecord>, d: Derived)
    ensures var c := DeletePath(t, f.path);
            var id := NextId(c.files.Keys);
            CodeTables.PutFile(t, f, syms, d) ==
            AddSymbols(AddFile(c, f, Derived([], [], [])), id, f, syms).(derived := c.derived[id := d])
  {
    var c := DeletePath(t, f.path);
    var id := NextId(c.files.Keys);
    var start := AddFile(c, f, Derived([], [], []));
    AddSymbolsDerived(start, id, f, syms, c.derived[id := d]);
    assert AddFile(c, f, d) == start.(derived := c.derived[id := d]);
  }

  lemma NoSymbolsYet(cleared: Tables, f: FileRecord)
    requires Linked(cleared)
    ensures SymbolIdSet(cleared.symbols, NextId(cleared.files.Keys)) == {}
  {
  }

  /** hashes is what reading exactly the rows done gives. */
  ghost predicate HashedRows(hashes: map<Path, Digest>, files: map<Id, FileRecord>, done: set<Id>) {
    && (forall p :: p in hashes ==> exists id :: id in done && id in files && files[id].path == p)
    && (forall id :: id in done && id in files ==> files[id].path in hashes && hashes[files[id].path] == EffectiveHash(files[id]))
  }

  lemma NothingHashed(files: map<Id, FileRecord>)
    ensures HashedRows(map[], files, files.Keys - files.Keys)
  {
  }

  lemma HashedOneMore(hashes: map<Path, Digest>, files: map<Id, FileRecord>, done: set<Id>, id: Id, t: Tables)
    requires Linked(t) && t.files == files && id in files && id in done
    requires HashedRows(hashes, files, done - {id})
    ensures HashedRows(hashes[files[id].path := EffectiveHash(files[id])], files, done)
  {
    hide EffectiveHash;
    var h := hashes[files[id].path := EffectiveHash(files[id])];
    forall p | p in h ensures exists x :: x in done && x in files && files[x].path == p {
      if p != files[id].path {
        var x :| x in done - {id} && x in files && files[x].path == p;
      }
    }
  }

  lemma HashedAll(hashes: map<Path, Digest>, t: Tables)
    requires Linked(t) && HashedRows(hashes, t.files, t.files.Keys)
    ensures hashes == HashesOf(t)
  {
    hide EffectiveHash, Linked, SymbolIds, RecordsOf;
    var v := ViewOf(t);
    ViewEntries(t);
    forall p | p in hashes ensures p in v {
      var id :| id in t.files && t.files[id].path == p;
      ViewAt(t, id);
    }
    forall p | p in v ensures p in hashes && hashes[p] == EffectiveHash(v[p].file) {
      assert IdAt(t, p) in t.files;
    }
  }

  lemma EmptyDistinct(syms: seq<SymbolRecord>)
    ensures DistinctKeys(syms[..0])
  {
  }

  lemma DistinctSnoc(syms: seq<SymbolRecord>, i: int)
    requires 0 <= i < |syms| && DistinctKeys(syms[..i])
    ensures (exists j :: 0 <= j < |syms[..i]| && SameKey(syms[..i][j], syms[i])) <==> !DistinctKeys(syms[..i + 1])
    ensures !DistinctKeys(syms[..i + 1]) ==> !DistinctKeys(syms)
  {
    hide SameKey;
    var p, q := syms[..i], syms[..i + 1];
    if j :| 0 <= j < |p| && SameKey(p[j], syms[i]) {
      assert SameKey(q[j], q[i]);
    } else {
      forall j, k | 0 <= j < k < |q| ensures !SameKey(q[j], q[k]) {
        assert q[j] == p[j];
        if k < i {
          assert q[k] == p[k];
        }
      }
    }
    if j, k :| 0 <= j < k < |q| && SameKey(q[j], q[k]) {
      assert SameKey(syms[j], syms[k]);
    }
  }

  /** The next insert clashes exactly when the first i + 1 symbols repeat a key. */
  lemma ClashDecides(start: Tables, fileId: Id, f: FileRecord, syms: seq<SymbolRecord>, i: int)
    requires Linked(start) && fileId in start.files && SymbolIdSet(start.symbols, fileId) == {}
    requires 0 <= i < |syms| && DistinctKeys(syms[..i])
    ensures var t := AddSymbols(start, fileId, f, syms[..i]);
            (exists id :: id in t.symbols && t.symbols[id].fileId == fileId && SameKey(t.symbols[id].rec, syms[i]))
            <==> !DistinctKeys(syms[..i + 1])
    ensures !DistinctKeys(syms[..i + 1]) ==> !DistinctKeys(syms)
  {
    AddSymbolsReadBack(start, fileId, f, syms[..i]);
    hide Linked, Holds, AddSymbols, SameKey, SymbolIdSet, DistinctKeys;
    RowClash(AddSymbols(start, fileId, f, syms[..i]), start, fileId, syms[..i], syms[i]);
    DistinctSnoc(syms, i);
  }

  class CodeDb {
    var files: map<Id, FileRecord>
    var symbols: map<Id, SymbolRow>
    var derived: map<Id, Derived>
    var depEdges: set<(Id, Id)>
    var testLinks: set<(Id, Id)>
    var fts: map<Id, FtsRow>
    var meta: IndexMeta

    function Snapshot(): Tables
      reads this
    {
      Tables(files, symbols, derived, depEdges, testLinks, fts, meta)
    }

    constructor ()
      ensures Snapshot() == EMPTY_TABLES
    {
      files, symbols, derived, depEdges, testLinks, fts := map[], map[], map[], {}, {}, map[];
      meta := IndexMeta("", false, 0, 0, "");
    }

    method Rollback(before: Tables)
      modifies this
      ensures Snapshot() == before
    {
      files, symbols, derived := before.files, before.symbols, before.derived;
      depEdges, testLinks, fts, meta := before.depEdges, before.testLinks, before.fts, before.meta;
    }

    method ClearIndex()
      modifies this
      ensures Snapshot() == Clear(old(Snapshot()))
    {
      files := map[];
      symbols, derived, depEdges, testLinks := map[], map[], {}, {};  // cascades
      fts := map[];
      meta := meta.(filesCount := 0, symbolsCount := 0);
    }

    method DeleteFileByPath(path: Path)
      modifies this
      ensures Snapshot() == DeletePath(old(Snapshot()), path)
    {
      fts := FtsWithout(fts, path);
      var gone := IdsAt(files, path);
      files := files - gone;
      symbols, derived := SymbolsWithout(symbols, gone), derived - gone;  // cascades
      depEdges, testLinks := EdgesWithout(depEdges, gone), EdgesWithout(testLinks, gone);
    }

    /** Replaces a file and its rows. None is a violation of UNIQUE (file_id, name, kind, container). */
    method PutFile(f: FileRecord, syms: seq<SymbolRecord>, imports: seq<string>, exports: seq<string>, todos: seq<(int, string)>)
      returns (written: Option<nat>)
      requires Linked(Snapshot())
      modifies this
      ensures written.Some? <==> DistinctKeys(syms)
      ensures written.Some? ==>
        && written.value == |syms|
        && Snapshot() == CodeTables.PutFile(old(Snapshot()), f, syms, Derived(imports, exports, todos))
    {
      ghost var before := Snapshot();
      PutFileInSteps(before, f, syms, Derived(imports, exports, todos));
      hide Linked, DeletePath, CodeTables.PutFile, AddFile, AddSymbols, DistinctKeys, SymbolIdSet;
      var fileId := ReplaceFileRow(f);
      ghost var start := Snapshot();
      var ok := InsertSymbols(fileId, f, syms);
      if !ok {
        return None;
      }
      InsertDerived(fileId, imports, exports, todos);
      assert Snapshot() == AddSymbols(start, fileId, f, syms).(derived := derived);
      written := Some(|syms|);
    }

    method ReplaceFileRow(f: FileRecord) returns (fileId: Id)
      requires Linked(Snapshot())
      modifies this
      ensures var c := DeletePath(old(Snapshot()), f.path);
              && fileId == NextId(c.files.Keys)
              && Snapshot() == AddFile(c, f, Derived([], [], []))
              && derived == c.derived[fileId := Derived([], [], [])]
      ensures Linked(Snapshot()) && fileId in files && SymbolIdSet(symbols, fileId) == {}
    {
      ghost var c := DeletePath(Snapshot(), f.path);
      DeleteLinked(Snapshot(), f.path);
      DeletedPathFree(Snapshot(), f.path);
      AddFileLinked(c, f, Derived([], [], []));
      NoSymbolsYet(c, f);
      hide Linked, DeletePath;
      DeleteFileByPath(f.path);
      fileId := NextId(files.Keys);
      files := files[fileId := f];
      fts := fts[NextId(fts.Keys) := FileFts(f, fileId)];
      derived := derived[fileId := Derived([], [], [])];
    }

    /** The INSERT loop for symbols and their full-text rows. It stops at the first clash. */
    method InsertSymbols(fileId: Id, f: FileRecord, syms: seq<SymbolRecord>) returns (ok: bool)
      requires Linked(Snapshot()) && fileId in files && SymbolIdSet(symbols, fileId) == {}
      modifies `symbols, `fts
      ensures ok <==> DistinctKeys(syms)
      ensures ok ==> Snapshot() == AddSymbols(old(Snapshot()), fileId, f, syms)
    {
      ghost var start := Snapshot();
      hide Linked, DistinctKeys, AddSymbol, SymbolIdSet, SameKey;
      EmptyDistinct(syms);
      var i := 0;
      while i < |syms|
        invariant 0 <= i <= |syms|
        invariant Snapshot() == AddSymbols(start, fileId, f, syms[..i])
        invariant DistinctKeys(syms[..i])
      {
        ClashDecides(start, fileId, f, syms, i);
        var clash := Clashes(fileId, syms[i]);
        if clash {
          return false;
        }
        InsertSymbol(fileId, f, syms[i]);
        assert syms[..i + 1][..i] == syms[..i];
        i := i + 1;
      }
      assert syms[..i] == syms;
      ok := true;
    }

    /** The UNIQUE constraint of the symbols table. */
    method Clashes(fileId: Id, s: SymbolRecord) returns (clash: bool)
      ensures clash <==> exists id :: id in symbols && symbols[id].fileId == fileId && SameKey(symbols[id].rec, s)
    {
      clash := exists id :: id in symbols && symbols[id].fileId == fileId && SameKey(symbols[id].rec, s);
    }

    method InsertSymbol(fileId: Id, f: FileRecord, s: SymbolRecord)
      modifies `symbols, `fts
      ensures Snapshot() == AddSymbol(old(Snapshot()), fileId, f, s)
    {
      var id := NextId(symbols.Keys);
      symbols := symbols[id := SymbolRow(fileId, s)];
      fts := fts[NextId(fts.Keys) := SymbolFts(f, s, id)];
    }

    /** The INSERT loops for imports, exports and todos. */
    method InsertDerived(fileId: Id, imports: seq<string>, exports: seq<string>, todos: seq<(int, string)>)
      requires fileId in derived && derived[fileId] == Derived([], [], [])
      modifies `derived
      ensures derived == old(derived)[fileId := Derived(imports, exports, todos)]
    {
      var i := 0;
      while i < |imports|
        invariant 0 <= i <= |imports|
        invariant derived == old(derived)[fileId := Derived(imports[..i], [], [])]
      {
        assert imports[..i + 1] == imports[..i] + [imports[i]];
        derived := derived[fileId := derived[fileId].(imports := derived[fileId].imports + [imports[i]])];
        i := i + 1;
      }
      assert imports[..i] == imports;
      i := 0;
      while i < |exports|
        invariant 0 <= i <= |exports|
        invariant derived == old(derived)[fileId := Derived(imports, exports[..i], [])]
      {
        assert exports[..i + 1] == exports[..i] + [exports[i]];
        derived := derived[fileId := derived[fileId].(exports := derived[fileId].exports + [exports[i]])];
        i := i + 1;
      }
      assert exports[..i] == exports;
      i := 0;
      while i < |todos|
        invariant 0 <= i <= |todos|
        invariant derived == old(derived)[fileId := Derived(imports, exports, todos[..i])]
      {
        assert todos[..i + 1] == todos[..i] + [todos[i]];
        derived := derived[fileId := derived[fileId].(todos := derived[fileId].todos + [todos[i]])];
        i := i + 1;
      }
      assert todos[..i] == todos;
    }

    method SetIndexState(head: string, dirty: bool, filesCount: nat, symbolsCount: nat, at: string)
      modifies `meta
      ensures meta == IndexMeta(head, dirty, filesCount, symbolsCount, at)
    {
      meta := IndexMeta(head, dirty, filesCount, symbolsCount, at);
    }

    /** path -> effective hash for every indexed file, read row by row. */
    method FileHashes() returns (hashes: map<Path, Digest>)
      requires Linked(Snapshot())
      ensures hashes == HashesOf(Snapshot())
    {
      hide HashedRows, Linked;
      hashes := map[];
      var todo := files.Keys;
      NothingHashed(files);
      while todo != {}
        invariant todo <= files.Keys
        invariant HashedRows(hashes, files, files.Keys - todo)
        decreases todo
      {
        var id :| id in todo;
        ghost var was := files.Keys - todo;
        todo := todo - {id};
        assert files.Keys - todo - {id} == was;
        HashedOneMore(hashes, files, files.Keys - todo, id, Snapshot());
        hashes := hashes[files[id].path := EffectiveHash(files[id])];
      }
      assert files.Keys - todo == files.Keys;
      HashedAll(hashes, Snapshot());
    }

    method FileByPath(path: Path) returns (r: Option<Id>)
      requires Linked(Snapshot())
      ensures r == if HasPath(Snapshot(), path) then Some(IdAt(Snapshot(), path)) else None
    {
      if id :| id in files && files[id].path == path {
        ViewAt(Snapshot(), id);
        r := Some(id);
      } else {
        r := None;
      }
    }

    /** Clears and rewrites the resolved edges and test links; duplicates are ignored. */
    method ReplaceGraph(edges: seq<(Id, Id)>, links: seq<(Id, Id)>)
      modifies `depEdges, `testLinks
      ensures depEdges == SetOf(edges)
      ensures testLinks == SetOf(links)
    {
      depEdges, testLinks := {}, {};
      var i := 0;
      while i < |edges|
        invariant 0 <= i <= |edges|
        invariant depEdges == SetOf(edges[..i]) && testLinks == {}
      {
        assert edges[..i + 1] == edges[..i] + [edges[i]];
        depEdges := depEdges + {edges[i]};
        i := i + 1;
      }
      assert edges[..i] == edges;
      i := 0;
      while i < |links|
        invariant 0 <= i <= |links|
        invariant testLinks == SetOf(links[..i]) && depEdges == SetOf(edges)
      {
        assert links[..i + 1] == links[..i] + [links[i]];
        testLinks := testLinks + {links[i]};
        i := i + 1;
      }
      assert links[..i] == links;
    }
  }
}
