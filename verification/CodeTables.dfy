/** The code tables: files and what cascades from them, the full-text rows, the index_meta row. */
module CodeTables {
  import opened Base
  import opened Ids
  import opened Digests

  datatype FileRecord = FileRecord(
    path: Path, language: string, pkg: string, role: string,
    blobOid: Digest, contentSha: Digest, grainEligible: bool)

  datatype SymbolRecord = SymbolRecord(name: string, kind: string, container: string, signature: string, exported: bool)

  /** The rows of the imports, exports and todos tables that belong to one file, in row order. */
  datatype Derived = Derived(imports: seq<string>, exports: seq<string>, todos: seq<(int, string)>)

  datatype SymbolRow = SymbolRow(fileId: Id, rec: SymbolRecord)

  datatype Grain = FileGrain | SymbolGrain

  datatype FtsRow = FtsRow(name: string, signature: string, path: Path, pkg: string, grain: Grain, refId: Id)

  datatype IndexMeta = IndexMeta(head: string, dirty: bool, filesCount: nat, symbolsCount: nat, indexedAt: string)

  datatype Tables = Tables(
    files: map<Id, FileRecord>,
    symbols: map<Id, SymbolRow>,
    derived: map<Id, Derived>,
    depEdges: set<(Id, Id)>,
    testLinks: set<(Id, Id)>,
    fts: map<Id, FtsRow>,
    meta: IndexMeta)

  function FileFts(f: FileRecord, id: Id): FtsRow {
    FtsRow("", "", f.path, f.pkg, FileGrain, id)
  }

  function SymbolFts(f: FileRecord, s: SymbolRecord, id: Id): FtsRow {
    FtsRow(s.name, s.signature, f.path, f.pkg, SymbolGrain, id)
  }

  // ---- the write operations ----

  function IdsAt(files: map<Id, FileRecord>, path: Path): set<Id> {
    set id | id in files && files[id].path == path
  }

  function EdgesWithout(edges: set<(Id, Id)>, gone: set<Id>): set<(Id, Id)> {
    set e | e in edges && e.0 !in gone && e.1 !in gone
  }

  function SymbolsWithout(symbols: map<Id, SymbolRow>, gone: set<Id>): map<Id, SymbolRow> {
    map id | id in symbols && symbols[id].fileId !in gone :: symbols[id]
  }

  function FtsWithout(fts: map<Id, FtsRow>, path: Path): map<Id, FtsRow> {
    map r | r in fts && fts[r].path != path :: fts[r]
  }

  /** Deletes a file row; the foreign keys cascade. */
  function DeletePath(t: Tables, path: Path): Tables {
    var gone := IdsAt(t.files, path);
    t.(fts := FtsWithout(t.fts, path),
       files := t.files - gone,
       symbols := SymbolsWithout(t.symbols, gone),
       derived := t.derived - gone,
       depEdges := EdgesWithout(t.depEdges, gone),
       testLinks := EdgesWithout(t.testLinks, gone))
  }

  function Clear(t: Tables): Tables {
    Tables(map[], map[], map[], {}, {}, map[], t.meta.(filesCount := 0, symbolsCount := 0))
  }

  function AddFile(t: Tables, f: FileRecord, d: Derived): Tables {
    var id := NextId(t.files.Keys);
    t.(files := t.files[id := f],
       derived := t.derived[id := d],
       fts := t.fts[NextId(t.fts.Keys) := FileFts(f, id)])
  }

  function AddSymbol(t: Tables, fileId: Id, f: FileRecord, s: SymbolRecord): Tables {
    var id := NextId(t.symbols.Keys);
    t.(symbols := t.symbols[id := SymbolRow(fileId, s)],
       fts := t.fts[NextId(t.fts.Keys) := SymbolFts(f, s, id)])
  }

  function AddSymbols(t: Tables, fileId: Id, f: FileRecord, syms: seq<SymbolRecord>): Tables {
    if syms == [] then t
    else AddSymbol(AddSymbols(t, fileId, f, syms[..|syms| - 1]), fileId, f, syms[|syms| - 1])
  }

  function PutFile(t: Tables, f: FileRecord, syms: seq<SymbolRecord>, d: Derived): Tables {
    var cleared := DeletePath(t, f.path);
    AddSymbols(AddFile(cleared, f, d), NextId(cleared.files.Keys), f, syms)
  }

  // ---- what every committed state satisfies ----

  ghost predicate UniquePaths(files: map<Id, FileRecord>) {
    forall a, b :: a in files && b in files && files[a].path == files[b].path ==> a == b
  }

  ghost predicate EdgesLive(edges: set<(Id, Id)>, files: map<Id, FileRecord>) {
    forall e :: e in edges ==> e.0 in files && e.1 in files
  }

  ghost predicate Linked(t: Tables) {
    && UniquePaths(t.files)
    && t.derived.Keys == t.files.Keys
    && 0 !in t.files
    && (forall s :: s in t.symbols ==> t.symbols[s].fileId in t.files)
    && EdgesLive(t.depEdges, t.files)
    && EdgesLive(t.testLinks, t.files)
  }

  ghost predicate Listed(fts: map<Id, FtsRow>, row: FtsRow) {
    exists r :: r in fts && fts[r] == row
  }

  ghost predicate Resolves(t: Tables, row: FtsRow) {
    match row.grain
    case FileGrain => row.refId in t.files && row == FileFts(t.files[row.refId], row.refId)
    case SymbolGrain =>
      && row.refId in t.symbols
      && t.symbols[row.refId].fileId in t.files
      && row == SymbolFts(t.files[t.symbols[row.refId].fileId], t.symbols[row.refId].rec, row.refId)
  }

  ghost predicate NoDuplicates(fts: map<Id, FtsRow>) {
    forall r, q :: r in fts && q in fts && fts[r] == fts[q] ==> r == q
  }

  /** code_fts holds exactly one row per file and per symbol, and no others. */
  ghost predicate FtsAgrees(t: Tables) {
    && NoDuplicates(t.fts)
    && (forall row :: Listed(t.fts, row) <==> Resolves(t, row))
  }

  ghost predicate Consistent(t: Tables) {
    Linked(t) && FtsAgrees(t)
  }

  const EMPTY_TABLES := Tables(map[], map[], map[], {}, {}, map[], IndexMeta("", false, 0, 0, ""))

  lemma ListedInsert(fts: map<Id, FtsRow>, row: FtsRow)
    requires NoDuplicates(fts) && !Listed(fts, row)
    ensures var fts' := fts[NextId(fts.Keys) := row];
            NoDuplicates(fts') && forall x :: Listed(fts', x) <==> x == row || Listed(fts, x)
  {
    var n := NextId(fts.Keys);
    var fts' := fts[n := row];
    forall x ensures Listed(fts', x) <==> x == row || Listed(fts, x) {
      if x == row {
        assert n in fts' && fts'[n] == x;
      } else if Listed(fts, x) {
        var q :| q in fts && fts[q] == x;
        assert q in fts' && fts'[q] == x;
      }
    }
    assert forall q :: q in fts ==> fts[q] != row;
  }

  lemma ListedDelete(fts: map<Id, FtsRow>, path: Path, row: FtsRow)
    ensures Listed(FtsWithout(fts, path), row) <==> Listed(fts, row) && row.path != path
  {
    if Listed(fts, row) && row.path != path {
      var q :| q in fts && fts[q] == row;
      assert q in FtsWithout(fts, path);
    }
  }

  lemma DeleteLinked(t: Tables, path: Path)
    requires Linked(t)
    ensures Linked(DeletePath(t, path))
  {
  }

  lemma DeleteResolves(t: Tables, path: Path, row: FtsRow)
    requires Linked(t)
    ensures Resolves(DeletePath(t, path), row) <==> Resolves(t, row) && row.path != path
  {
  }

  lemma DeleteConsistent(t: Tables, path: Path)
    requires Consistent(t)
    ensures Consistent(DeletePath(t, path))
  {
    DeleteLinked(t, path);
    var t' := DeletePath(t, path);
    assert NoDuplicates(t'.fts);
    hide Linked, Resolves, Listed, DeletePath, NoDuplicates;
    forall row ensures Listed(t'.fts, row) <==> Resolves(t', row) {
      ListedDelete(t.fts, path, row);
      DeleteResolves(t, path, row);
    }
  }

  lemma AddFileLinked(t: Tables, f: FileRecord, d: Derived)
    requires Linked(t) && IdsAt(t.files, f.path) == {}
    ensures Linked(AddFile(t, f, d))
  {
    forall x | x in t.files ensures t.files[x].path != f.path {
      assert x !in IdsAt(t.files, f.path);
    }
  }

  lemma AddFileResolves(t: Tables, f: FileRecord, d: Derived, row: FtsRow)
    requires Linked(t)
    ensures Resolves(AddFile(t, f, d), row) <==> Resolves(t, row) || row == FileFts(f, NextId(t.files.Keys))
    ensures !Resolves(t, FileFts(f, NextId(t.files.Keys)))
  {
  }

  lemma AddFileConsistent(t: Tables, f: FileRecord, d: Derived)
    requires Consistent(t) && IdsAt(t.files, f.path) == {}
    ensures Consistent(AddFile(t, f, d))
  {
    AddFileLinked(t, f, d);
    var t' := AddFile(t, f, d);
    var added := FileFts(f, NextId(t.files.Keys));
    assert t'.fts == t.fts[NextId(t.fts.Keys) := added];
    hide Linked, Resolves, Listed, AddFile, NoDuplicates, FileFts;
    forall row ensures Resolves(t', row) <==> Resolves(t, row) || row == added {
      AddFileResolves(t, f, d, row);
    }
    AddFileResolves(t, f, d, added);
    ListedInsert(t.fts, added);
  }

  lemma AddSymbolLinked(t: Tables, fileId: Id, f: FileRecord, s: SymbolRecord)
    requires Linked(t) && fileId in t.files
    ensures Linked(AddSymbol(t, fileId, f, s))
  {
  }

  lemma AddSymbolResolves(t: Tables, fileId: Id, f: FileRecord, s: SymbolRecord, row: FtsRow)
    requires Linked(t) && fileId in t.files && t.files[fileId] == f
    ensures Resolves(AddSymbol(t, fileId, f, s), row) <==> Resolves(t, row) || row == SymbolFts(f, s, NextId(t.symbols.Keys))
    ensures !Resolves(t, SymbolFts(f, s, NextId(t.symbols.Keys)))
  {
  }

  lemma AddSymbolConsistent(t: Tables, fileId: Id, f: FileRecord, s: SymbolRecord)
    requires Consistent(t) && fileId in t.files && t.files[fileId] == f
    ensures Consistent(AddSymbol(t, fileId, f, s))
  {
    AddSymbolLinked(t, fileId, f, s);
    var t' := AddSymbol(t, fileId, f, s);
    var added := SymbolFts(f, s, NextId(t.symbols.Keys));
    assert t'.fts == t.fts[NextId(t.fts.Keys) := added];
    hide Linked, Resolves, Listed, AddSymbol, NoDuplicates, SymbolFts;
    forall row ensures Resolves(t', row) <==> Resolves(t, row) || row == added {
      AddSymbolResolves(t, fileId, f, s, row);
    }
    AddSymbolResolves(t, fileId, f, s, added);
    ListedInsert(t.fts, added);
  }

  lemma {:induction false} AddSymbolsConsistent(t: Tables, fileId: Id, f: FileRecord, syms: seq<SymbolRecord>)
    requires Consistent(t) && fileId in t.files && t.files[fileId] == f
    ensures Consistent(AddSymbols(t, fileId, f, syms))
    ensures AddSymbols(t, fileId, f, syms).files == t.files
  {
    if syms != [] {
      AddSymbolsConsistent(t, fileId, f, syms[..|syms| - 1]);
      AddSymbolConsistent(AddSymbols(t, fileId, f, syms[..|syms| - 1]), fileId, f, syms[|syms| - 1]);
    }
  }

  lemma DeletedPathFree(t: Tables, path: Path)
    ensures IdsAt(DeletePath(t, path).files, path) == {}
  {
  }

  /** Replacing a file keeps every table consistent: no dangling row, one full-text row per file and symbol. */
  lemma PutFileConsistent(t: Tables, f: FileRecord, syms: seq<SymbolRecord>, d: Derived)
    requires Consistent(t)
    ensures Consistent(PutFile(t, f, syms, d))
  {
    var cleared := DeletePath(t, f.path);
    DeleteConsistent(t, f.path);
    DeletedPathFree(t, f.path);
    AddFileConsistent(cleared, f, d);
    AddSymbolsConsistent(AddFile(cleared, f, d), NextId(cleared.files.Keys), f, syms);
  }

  lemma ClearConsistent(t: Tables)
    ensures Consistent(Clear(t))
  {
  }
}
