/** The tables read by path, with row ids forgotten: what an index run is judged by. */
module CodeView {
  import opened Base
  import opened Ids
  import opened CodeTables

  datatype Group = Group(file: FileRecord, symbols: seq<SymbolRecord>, derived: Derived)

  type View = map<Path, Group>

  function SymbolIdSet(symbols: map<Id, SymbolRow>, file: Id): set<Id> {
    set s | s in symbols && symbols[s].fileId == file
  }

  /** A file's symbol ids in ascending order. */
  function SymbolIds(t: Tables, file: Id): (ids: seq<Id>)
    ensures forall x :: x in ids <==> x in SymbolIdSet(t.symbols, file)
  {
    AscendingMembers(SymbolIdSet(t.symbols, file));
    Ascending(SymbolIdSet(t.symbols, file))
  }

  function RecordsOf(symbols: map<Id, SymbolRow>, ids: seq<Id>): (r: seq<SymbolRecord>)
    requires forall x :: x in ids ==> x in symbols
    ensures |r| == |ids|
    ensures forall i :: 0 <= i < |ids| ==> r[i] == symbols[ids[i]].rec
  {
    seq(|ids|, i requires 0 <= i < |ids| => symbols[ids[i]].rec)
  }

  ghost function GroupAt(t: Tables, id: Id): Group
    requires Linked(t) && id in t.files
  {
    Group(t.files[id], RecordsOf(t.symbols, SymbolIds(t, id)), t.derived[id])
  }

  ghost predicate HasPath(t: Tables, path: Path) {
    exists id :: id in t.files && t.files[id].path == path
  }

  ghost function IdAt(t: Tables, path: Path): (id: Id)
    requires HasPath(t, path)
    ensures id in t.files && t.files[id].path == path
  {
    var id :| id in t.files && t.files[id].path == path;
    id
  }

  ghost function ViewOf(t: Tables): View
    requires Linked(t)
  {
    var paths := set id | id in t.files :: t.files[id].path;
    map p | p in paths && HasPath(t, p) :: GroupAt(t, IdAt(t, p))
  }

  lemma ViewEntries(t: Tables)
    requires Linked(t)
    ensures forall p :: p in ViewOf(t) <==> HasPath(t, p)
    ensures forall p :: p in ViewOf(t) ==> ViewOf(t)[p] == GroupAt(t, IdAt(t, p))
  {
  }

  lemma ViewAt(t: Tables, id: Id)
    requires Linked(t) && id in t.files
    ensures t.files[id].path in ViewOf(t)
    ensures IdAt(t, t.files[id].path) == id
    ensures ViewOf(t)[t.files[id].path] == GroupAt(t, id)
  {
    ViewEntries(t);
    assert HasPath(t, t.files[id].path);
  }

  /** Every row of file id and every symbol row under it is the same in both states. */
  ghost predicate SameFile(t: Tables, u: Tables, id: Id) {
    && id in t.files && id in u.files && t.files[id] == u.files[id]
    && id in t.derived && id in u.derived && t.derived[id] == u.derived[id]
    && SymbolIdSet(t.symbols, id) == SymbolIdSet(u.symbols, id)
    && (forall s :: s in SymbolIdSet(t.symbols, id) ==> t.symbols[s] == u.symbols[s])
  }

  lemma SameGroup(t: Tables, u: Tables, id: Id)
    requires Linked(t) && Linked(u) && SameFile(t, u, id)
    ensures SymbolIds(t, id) == SymbolIds(u, id)
    ensures GroupAt(t, id) == GroupAt(u, id)
  {
    assert RecordsOf(t.symbols, SymbolIds(t, id)) == RecordsOf(u.symbols, SymbolIds(u, id));
  }

  lemma ViewIs(t: Tables, v: View)
    requires Linked(t)
    requires forall id :: id in t.files ==> t.files[id].path in v && v[t.files[id].path] == GroupAt(t, id)
    requires forall p :: p in v ==> HasPath(t, p)
    ensures ViewOf(t) == v
  {
    hide Linked, SymbolIds, RecordsOf, GroupAt;
    ViewEntries(t);
    var w := ViewOf(t);
    forall p ensures p in w <==> p in v {
      if p in w {
        assert t.files[IdAt(t, p)].path in v;
      }
    }
    forall p | p in v ensures w[p] == v[p] {
      assert IdAt(t, p) in t.files;
    }
  }

  /** The view depends on the files, symbols and derived rows only. */
  lemma SameView(t: Tables, u: Tables)
    requires Linked(t) && Linked(u)
    requires t.files == u.files && t.symbols == u.symbols && t.derived == u.derived
    ensures ViewOf(t) == ViewOf(u)
  {
    assert t.derived.Keys == t.files.Keys;
    hide ViewOf, SymbolIds, RecordsOf, Linked;
    ViewEntries(t);
    forall id | id in u.files ensures u.files[id].path in ViewOf(t) && ViewOf(t)[u.files[id].path] == GroupAt(u, id) {
      ViewAt(t, id);
      SameGroup(t, u, id);
    }
    forall p | p in ViewOf(t) ensures HasPath(u, p) {
      assert u.files[IdAt(t, p)].path == p;
    }
    ViewIs(u, ViewOf(t));
  }

  lemma DeleteKeeps(t: Tables, path: Path, id: Id)
    requires Linked(t) && id in t.files && t.files[id].path != path
    ensures SameFile(t, DeletePath(t, path), id)
  {
  }

  lemma DeleteView(t: Tables, path: Path)
    requires Linked(t)
    ensures Linked(DeletePath(t, path))
    ensures ViewOf(DeletePath(t, path)) == ViewOf(t) - {path}
  {
    DeleteLinked(t, path);
    var t', v := DeletePath(t, path), ViewOf(t) - {path};
    ViewEntries(t);
    assert forall id :: id in t'.files ==> id in t.files && t.files[id].path != path;
    hide Linked, SymbolIds, RecordsOf, GroupAt;
    forall id | id in t'.files ensures t'.files[id].path in v && v[t'.files[id].path] == GroupAt(t', id) {
      DeleteKeeps(t, path, id);
      SameGroup(t, t', id);
      ViewAt(t, id);
    }
    forall p | p in v ensures HasPath(t', p) {
      assert IdAt(t, p) in t'.files;
    }
    ViewIs(t', v);
  }

  // ---- PutFile ----

  lemma AddFileKeeps(t: Tables, f: FileRecord, d: Derived, id: Id)
    requires Linked(t) && id in t.files
    ensures SameFile(t, AddFile(t, f, d), id)
  {
  }

  lemma AddSymbolKeeps(t: Tables, fileId: Id, f: FileRecord, s: SymbolRecord, id: Id)
    requires Linked(t) && id in t.files && id != fileId
    ensures SameFile(t, AddSymbol(t, fileId, f, s), id)
  {
  }

  lemma {:induction false} AddSymbolsKeeps(t: Tables, fileId: Id, f: FileRecord, syms: seq<SymbolRecord>, id: Id)
    requires Linked(t) && fileId in t.files && id in t.files && id != fileId
    ensures Linked(AddSymbols(t, fileId, f, syms))
    ensures AddSymbols(t, fileId, f, syms).files == t.files
    ensures SameFile(t, AddSymbols(t, fileId, f, syms), id)
  {
    if syms != [] {
      var u := AddSymbols(t, fileId, f, syms[..|syms| - 1]);
      AddSymbolsKeeps(t, fileId, f, syms[..|syms| - 1], id);
      AddSymbolLinked(u, fileId, f, syms[|syms| - 1]);
      AddSymbolKeeps(u, fileId, f, syms[|syms| - 1], id);
    }
  }

  lemma AddSymbolIds(t: Tables, fileId: Id, f: FileRecord, s: SymbolRecord)
    ensures SymbolIds(AddSymbol(t, fileId, f, s), fileId) == SymbolIds(t, fileId) + [NextId(t.symbols.Keys)]
  {
    var n := NextId(t.symbols.Keys);
    var t' := AddSymbol(t, fileId, f, s);
    assert SymbolIdSet(t'.symbols, fileId) == SymbolIdSet(t.symbols, fileId) + {n};
    AscendingSnoc(SymbolIdSet(t.symbols, fileId), n);
  }

  /** The symbols of fileId read back as syms, and none of them is a row of base. */
  ghost predicate Holds(t: Tables, base: Tables, fileId: Id, syms: seq<SymbolRecord>) {
    && (forall s :: s in SymbolIds(t, fileId) ==> s in t.symbols && s !in base.symbols)
    && RecordsOf(t.symbols, SymbolIds(t, fileId)) == syms
  }

  lemma AddSymbolHolds(t: Tables, base: Tables, fileId: Id, f: FileRecord, s: SymbolRecord, syms: seq<SymbolRecord>)
    requires Holds(t, base, fileId, syms) && base.symbols.Keys <= t.symbols.Keys
    ensures Holds(AddSymbol(t, fileId, f, s), base, fileId, syms + [s])
  {
    AddSymbolIds(t, fileId, f, s);
    var t', n := AddSymbol(t, fileId, f, s), NextId(t.symbols.Keys);
    var ids := SymbolIds(t, fileId);
    hide SymbolIds;
    assert RecordsOf(t'.symbols, ids + [n]) == RecordsOf(t.symbols, ids) + [s];
  }

  /** Inserting symbols one by one under a file that has none reads back as the list that was inserted. */
  lemma {:induction false} AddSymbolsReadBack(t: Tables, fileId: Id, f: FileRecord, syms: seq<SymbolRecord>)
    requires Linked(t) && fileId in t.files && SymbolIdSet(t.symbols, fileId) == {}
    ensures var t' := AddSymbols(t, fileId, f, syms);
            && Linked(t') && t'.files == t.files && t'.derived == t.derived
            && Holds(t', t, fileId, syms)
  {
    hide *;
    if syms == [] {
      NothingHeld(t, fileId, f);
    } else {
      var n := |syms| - 1;
      var u := AddSymbols(t, fileId, f, syms[..n]);
      AddSymbolsReadBack(t, fileId, f, syms[..n]);
      AddSymbolsExtends(t, fileId, f, syms[..n]);
      AddSymbolsSnoc(t, fileId, f, syms);
      AddSymbolLinked(u, fileId, f, syms[n]);
      AddSymbolHolds(u, t, fileId, f, syms[n], syms[..n]);
      assert syms == syms[..n] + [syms[n]];
    }
  }

  lemma NothingHeld(t: Tables, fileId: Id, f: FileRecord)
    requires SymbolIdSet(t.symbols, fileId) == {}
    ensures AddSymbols(t, fileId, f, []) == t && Holds(t, t, fileId, [])
  {
    assert SymbolIds(t, fileId) == [];
  }

  lemma AddSymbolsSnoc(t: Tables, fileId: Id, f: FileRecord, syms: seq<SymbolRecord>)
    requires syms != []
    ensures var u := AddSymbols(t, fileId, f, syms[..|syms| - 1]);
            && AddSymbols(t, fileId, f, syms) == AddSymbol(u, fileId, f, syms[|syms| - 1])
            && AddSymbols(t, fileId, f, syms).files == u.files && AddSymbols(t, fileId, f, syms).derived == u.derived
  {
    hide NextId;
  }

  lemma {:induction false} AddSymbolsExtends(t: Tables, fileId: Id, f: FileRecord, syms: seq<SymbolRecord>)
    ensures t.symbols.Keys <= AddSymbols(t, fileId, f, syms).symbols.Keys
  {
    if syms != [] {
      AddSymbolsExtends(t, fileId, f, syms[..|syms| - 1]);
    }
  }

  /** The id PutFile gives the file it writes. */
  function PutId(t: Tables, path: Path): Id {
    NextId(DeletePath(t, path).files.Keys)
  }

  lemma PutFileWritten(t: Tables, f: FileRecord, syms: seq<SymbolRecord>, d: Derived)
    requires Linked(t)
    ensures var t', id := PutFile(t, f, syms, d), PutId(t, f.path);
            && Linked(t')
            && id in t'.files && t'.files[id] == f
            && (forall o :: o in t'.files && o != id ==> o in t.files && t'.files[o] == t.files[o] && t.files[o].path != f.path)
            && (forall o :: o in t.files && t.files[o].path != f.path ==> o in t'.files && o != id)
            && GroupAt(t', id) == Group(f, syms, d)
            && (forall s :: s in SymbolIds(t', id) ==> s !in DeletePath(t, f.path).symbols)
  {
    var c := DeletePath(t, f.path);
    DeleteLinked(t, f.path);
    DeletedPathFree(t, f.path);
    AddFileLinked(c, f, d);
    AddSymbolsReadBack(AddFile(c, f, d), PutId(t, f.path), f, syms);
  }

  lemma PutFileKeeps(t: Tables, f: FileRecord, syms: seq<SymbolRecord>, d: Derived, id: Id)
    requires Linked(t) && id in t.files && t.files[id].path != f.path
    ensures SameFile(t, PutFile(t, f, syms, d), id)
  {
    var c := DeletePath(t, f.path);
    var a := AddFile(c, f, d);
    DeleteLinked(t, f.path);
    DeletedPathFree(t, f.path);
    AddFileLinked(c, f, d);
    DeleteKeeps(t, f.path, id);
    AddFileKeeps(c, f, d, id);
    AddSymbolsKeeps(a, PutId(t, f.path), f, syms, id);
  }

  lemma PutFileEntry(t: Tables, f: FileRecord, syms: seq<SymbolRecord>, d: Derived, o: Id)
    requires Linked(t) && Linked(PutFile(t, f, syms, d)) && o in PutFile(t, f, syms, d).files
    ensures var t' := PutFile(t, f, syms, d);
            var v := ViewOf(t)[f.path := Group(f, syms, d)];
            t'.files[o].path in v && v[t'.files[o].path] == GroupAt(t', o)
  {
    var t', id := PutFile(t, f, syms, d), PutId(t, f.path);
    PutFileWritten(t, f, syms, d);
    hide PutFile, Linked, SymbolIds, RecordsOf, GroupAt, PutId, DeletePath, ViewOf;
    if o != id {
      PutFileKeeps(t, f, syms, d, o);
      SameGroup(t, t', o);
      ViewAt(t, o);
    }
  }

  /** PutFile replaces one entry of the view and touches no other. */
  lemma PutFileView(t: Tables, f: FileRecord, syms: seq<SymbolRecord>, d: Derived)
    requires Linked(t)
    ensures Linked(PutFile(t, f, syms, d))
    ensures ViewOf(PutFile(t, f, syms, d)) == ViewOf(t)[f.path := Group(f, syms, d)]
  {
    var t', id := PutFile(t, f, syms, d), PutId(t, f.path);
    var v := ViewOf(t)[f.path := Group(f, syms, d)];
    hide PutFile, Linked, SymbolIds, RecordsOf, GroupAt, PutId, DeletePath, ViewOf;
    PutFileWritten(t, f, syms, d);
    ViewEntries(t);
    forall o | o in t'.files ensures t'.files[o].path in v && v[t'.files[o].path] == GroupAt(t', o) {
      PutFileEntry(t, f, syms, d, o);
    }
    forall p | p in v ensures HasPath(t', p) {
      if p == f.path {
        assert t'.files[id].path == p;
      } else {
        assert IdAt(t, p) in t'.files;
      }
    }
    ViewIs(t', v);
  }
}
