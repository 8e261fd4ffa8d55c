/** Which texts a run sends to the embedder, and which vectors it keeps without asking. */
module CarryTheorems {
  import opened Base
  import opened Digests
  import opened VectorStore
  import opened Extraction
  import opened CodeTables
  import opened CodeView
  import opened CodeStore
  import opened Scanning
  import opened Indexing
  import opened MetadataTheorems
  import opened Embedder
  import opened EmbedSpec
  import opened Embedding
  import opened Running

  // ---- which stored vectors are kept ----

  /** The i-th symbol has this identity and a stored vector. */
  ghost predicate StoredAs(e: Model, m: Vectors, symbols: map<Id, SymbolRow>, ids: seq<Id>, key: string, i: int) {
    0 <= i < |ids| && ids[i] in symbols && IdentityOf(symbols[ids[i]].rec) == key && SymKey(e, ids[i]) in m
  }

  /** And no later one does. */
  ghost predicate LastStored(e: Model, m: Vectors, symbols: map<Id, SymbolRow>, ids: seq<Id>, key: string, i: int) {
    StoredAs(e, m, symbols, ids, key, i) && forall j :: StoredAs(e, m, symbols, ids, key, j) ==> j <= i
  }

  /** A capture holds, for each identity, the entry of the last symbol of that identity that has one. */
  lemma {:induction false} ByIdentityIs(e: Model, m: Vectors, symbols: map<Id, SymbolRow>, ids: seq<Id>, key: string)
    ensures key in ByIdentity(e, m, symbols, ids) <==> exists i :: LastStored(e, m, symbols, ids, key, i)
    ensures forall i :: LastStored(e, m, symbols, ids, key, i) ==>
      key in ByIdentity(e, m, symbols, ids) && ByIdentity(e, m, symbols, ids)[key] == m[SymKey(e, ids[i])]
  {
    hide IdentityOf;
    if ids != [] {
      var n := |ids| - 1;
      ByIdentityIs(e, m, symbols, ids[..n], key);
      forall i ensures i < n ==> (StoredAs(e, m, symbols, ids[..n], key, i) <==> StoredAs(e, m, symbols, ids, key, i)) {
      }
      var rest, all := ByIdentity(e, m, symbols, ids[..n]), ByIdentity(e, m, symbols, ids);
      hide ByIdentity;
      if StoredAs(e, m, symbols, ids, key, n) {
        assert LastStored(e, m, symbols, ids, key, n);
        assert forall i :: LastStored(e, m, symbols, ids, key, i) ==> i == n;
      } else {
        LastOfInit(e, m, symbols, ids, key);
        assert key in all <==> key in rest;
        if i :| LastStored(e, m, symbols, ids, key, i) {
          assert LastStored(e, m, symbols, ids[..n], key, i);
        }
        if i :| LastStored(e, m, symbols, ids[..n], key, i) {
          assert LastStored(e, m, symbols, ids, key, i);
        }
      }
    }
  }

  lemma LastOfInit(e: Model, m: Vectors, symbols: map<Id, SymbolRow>, ids: seq<Id>, key: string)
    requires ids != [] && !StoredAs(e, m, symbols, ids, key, |ids| - 1)
    ensures forall i :: LastStored(e, m, symbols, ids, key, i) <==> LastStored(e, m, symbols, ids[..|ids| - 1], key, i)
  {
    hide IdentityOf;
    var init := ids[..|ids| - 1];
    forall i ensures StoredAs(e, m, symbols, ids, key, i) <==> StoredAs(e, m, symbols, init, key, i) {
    }
  }

  /** The file's symbol of this name, container and signature has the text's own vector stored. */
  ghost predicate HoldsVector(t: Tables, m: Vectors, e: Model, p: Path, s: Symbol, text: string)
    requires Linked(t)
  {
    HasPath(t, p) &&
    exists i ::
      && LastStored(e, m, t.symbols, SymbolIds(t, IdAt(t, p)), SymbolIdentity(s.name, s.container, s.signature), i)
      && m[SymKey(e, SymbolIds(t, IdAt(t, p))[i])] == EntryFor(e, text)
  }

  /** A parsed symbol's vector is kept exactly when the file had a symbol of the same name, container and signature
      whose stored vector is the vector of the same text under the same model. */
  lemma CarriesExactly(t: Tables, m: Vectors, e: Model, p: Path, s: Symbol, text: string)
    requires Linked(t) && CacheSound(e.encode, m) && Dimensioned(e)
    ensures Carries(e, CaptureOf(t, m, e, p), s, text) <==> HoldsVector(t, m, e, p, s, text)
  {
    CaptureOfIs(t, m, e, p);
    if HasPath(t, p) {
      var ids, key := SymbolIds(t, IdAt(t, p)), SymbolIdentity(s.name, s.container, s.signature);
      ByIdentityIs(e, m, t.symbols, ids, key);
      hide Linked, CacheSound, ByIdentity, LastStored, SymbolIdentity, SymbolIds;
      var cap := CaptureOf(t, m, e, p);
      if Carries(e, cap, s, text) {
        CarriedEntry(e, cap, key, text);
        var i :| LastStored(e, m, t.symbols, ids, key, i);
      }
      if i :| LastStored(e, m, t.symbols, ids, key, i) && m[SymKey(e, ids[i])] == EntryFor(e, text) {
        assert cap.byIdentity[key] == EntryFor(e, text);
      }
    }
  }

  // ---- which texts are sent ----

  /** The symbol's text is queued. */
  ghost predicate Queues(e: Model, w: Work, cap: FileCapture, n: nat, text: string)
    requires n <= Count(w)
  {
    exists i :: 0 <= i < n && !Carries(e, cap, w.p.exsyms[i], TextAt(w, i)) && TextAt(w, i) == text
  }

  lemma {:induction false} QueuedMembers(e: Model, w: Work, cap: FileCapture, n: nat, text: string)
    requires n <= Count(w)
    ensures text in QueuedTexts(e, w, cap, n) <==> Queues(e, w, cap, n, text)
    ensures cap == NO_CAPTURE ==> |QueuedTexts(e, w, cap, n)| == n
  {
    hide ChunkText, SymbolIdentity;
    if n > 0 {
      QueuedMembers(e, w, cap, n - 1, text);
    }
  }

  /** The outcome's file is written, and this text is sent for it: that of a symbol whose vector is not kept, or the
      fallback text of a file without symbols. */
  ghost predicate SentFor(t: Tables, e: Model, o: Outcome, caps: Captures, text: string)
    requires Linked(t)
  {
    && o.parsed.Some? && HasPath(t, o.rel)
    && var p := o.parsed.value;
       if |p.symbols| == 0 then text == FileFallbackText(p)
       else
         var w := Work(SymbolIds(t, IdAt(t, o.rel)), p);
         Queues(e, w, CaptureAt(caps, o.rel), Count(w), text)
  }

  lemma SentOne(t: Tables, e: Model, o: Outcome, caps: Captures, text: string)
    requires Linked(t)
    ensures text in SymbolTexts(t, e, o, caps) || text in FallbackTexts(t, o) <==> SentFor(t, e, o, caps, text)
  {
    if o.parsed.Some? && HasPath(t, o.rel) && |o.parsed.value.symbols| > 0 {
      var w := Work(SymbolIds(t, IdAt(t, o.rel)), o.parsed.value);
      QueuedMembers(e, w, CaptureAt(caps, o.rel), Count(w), text);
    }
    hide Linked, QueuedTexts, Queues, FileFallbackText, SymbolIds, CaptureAt;
  }

  ghost predicate SentForSome(t: Tables, e: Model, outs: seq<Outcome>, caps: Captures, text: string)
    requires Linked(t)
  {
    exists i :: 0 <= i < |outs| && SentFor(t, e, outs[i], caps, text)
  }

  /** The batch holds exactly these texts. */
  lemma {:induction false} SentMembers(t: Tables, e: Model, outs: seq<Outcome>, caps: Captures, text: string)
    requires Linked(t)
    ensures text in Sent(t, e, outs, caps) <==> SentForSome(t, e, outs, caps, text)
  {
    hide Linked, SymbolTexts, FallbackTexts, SentFor;
    if outs != [] {
      var n := |outs| - 1;
      SentMembers(t, e, outs[..n], caps, text);
      SentOne(t, e, outs[n], caps, text);
      if SentForSome(t, e, outs[..n], caps, text) {
        var i :| 0 <= i < n && SentFor(t, e, outs[..n][i], caps, text);
        assert SentFor(t, e, outs[i], caps, text);
      }
      if SentForSome(t, e, outs, caps, text) && !SentFor(t, e, outs[n], caps, text) {
        var i :| 0 <= i < |outs| && SentFor(t, e, outs[i], caps, text);
        assert SentFor(t, e, outs[..n][i], caps, text);
      }
    }
  }

  /** Slot i of a rewritten file is sent by a run unless the run captures and the old file holds its vector. */
  ghost predicate Unkept(t: Tables, m: Vectors, e: Model, mode: Mode, w: Work, p: Path, i: nat)
    requires Linked(t) && i < Count(w)
  {
    mode == Full || !HoldsVector(t, m, e, p, w.p.exsyms[i], TextAt(w, i))
  }

  ghost predicate RunSends(t: Tables, t': Tables, m: Vectors, e: Model, mode: Mode, o: Outcome, text: string)
    requires Linked(t) && Linked(t')
  {
    && o.parsed.Some? && HasPath(t', o.rel)
    && if |o.parsed.value.symbols| == 0 then text == FileFallbackText(o.parsed.value)
       else UnkeptText(t, m, e, mode, Work(SymbolIds(t', IdAt(t', o.rel)), o.parsed.value), o.rel, text)
  }

  ghost predicate UnkeptText(t: Tables, m: Vectors, e: Model, mode: Mode, w: Work, p: Path, text: string)
    requires Linked(t)
  {
    exists i: nat :: i < Count(w) && Unkept(t, m, e, mode, w, p, i) && TextAt(w, i) == text
  }

  lemma UnkeptIsQueued(t: Tables, m: Vectors, e: Model, mode: Mode, w: Work, p: Path, cap: FileCapture, text: string)
    requires Linked(t) && CacheSound(e.encode, m) && Dimensioned(e)
    requires cap == if mode == Full then NO_CAPTURE else CaptureOf(t, m, e, p)
    ensures Queues(e, w, cap, Count(w), text) <==> UnkeptText(t, m, e, mode, w, p, text)
  {
    forall i: nat | i < Count(w) ensures !Carries(e, cap, w.p.exsyms[i], TextAt(w, i)) <==> Unkept(t, m, e, mode, w, p, i) {
      CarriesExactly(t, m, e, p, w.p.exsyms[i], TextAt(w, i));
    }
    hide Linked, CacheSound, Dimensioned, Carries, Unkept, CaptureOf, ChunkText;
    if Queues(e, w, cap, Count(w), text) {
      var i :| 0 <= i < Count(w) && !Carries(e, cap, w.p.exsyms[i], TextAt(w, i)) && TextAt(w, i) == text;
      assert Unkept(t, m, e, mode, w, p, i);
    }
  }

  ghost predicate SendsSome(t: Tables, t': Tables, m: Vectors, e: Model, mode: Mode, outs: seq<Outcome>, text: string)
    requires Linked(t) && Linked(t')
  {
    exists i :: 0 <= i < |outs| && RunSends(t, t', m, e, mode, outs[i], text)
  }

  /** A run sends a text of code to the embedder exactly when it rewrites a file without symbols whose fallback text
      it is, or a file one of whose symbols has this text and no kept vector. So an unchanged symbol of a changed
      file is not embedded again, and every symbol is in a full run. */
  lemma SentExactly(m: Vectors, t: Tables, w: World, e: Model, mode: Mode, cands: seq<Candidate>, s: Stamp, text: string)
    requires Consistent(t) && CacheSound(e.encode, m) && Dimensioned(e)
    ensures Linked(t) && Linked(AfterRun(t, w, mode, cands, s))
    ensures text in RunSent(m, t, w, e, mode, cands, s) <==>
      SendsSome(t, AfterRun(t, w, mode, cands, s), m, e, mode, ScanAll(w, cands, HashesOf(t), mode == Full, true), text)
  {
    RunView(t, w, mode, cands, s);
    assert Linked(t) && Linked(AfterRun(t, w, mode, cands, s));
    hide *;
    var t' := AfterRun(t, w, mode, cands, s);
    var existing := HashesOf(t);
    var outs, gone := ScanAll(w, cands, existing, mode == Full, true), existing.Keys - RelSet(cands);
    RunSentIs(m, t, w, e, mode, cands, s, existing, outs, gone);
    SentMembers(t', e, outs, CapsOf(t, m, e, mode, outs, gone), text);
    SendsSomeIs(t, t', m, e, mode, outs, gone, text);
  }

  lemma SendsSomeIs(t: Tables, t': Tables, m: Vectors, e: Model, mode: Mode, outs: seq<Outcome>, gone: set<Path>, text: string)
    requires Linked(t) && Linked(t') && CacheSound(e.encode, m) && Dimensioned(e)
    ensures SentForSome(t', e, outs, CapsOf(t, m, e, mode, outs, gone), text) <==> SendsSome(t, t', m, e, mode, outs, text)
  {
    var caps := CapsOf(t, m, e, mode, outs, gone);
    hide Linked, CacheSound, Dimensioned, SentFor, RunSends, CapsOf;
    forall i | 0 <= i < |outs| ensures SentFor(t', e, outs[i], caps, text) <==> RunSends(t, t', m, e, mode, outs[i], text) {
      SentIsUnkept(t, t', m, e, mode, outs, gone, outs[i], text);
    }
  }

  lemma SentIsUnkept(t: Tables, t': Tables, m: Vectors, e: Model, mode: Mode, outs: seq<Outcome>, gone: set<Path>, o: Outcome, text: string)
    requires Linked(t) && Linked(t') && CacheSound(e.encode, m) && Dimensioned(e) && o in outs
    ensures SentFor(t', e, o, CapsOf(t, m, e, mode, outs, gone), text) <==> RunSends(t, t', m, e, mode, o, text)
  {
    hide Linked, CacheSound, Dimensioned, Queues, UnkeptText, CaptureOf, FileFallbackText;
    if o.parsed.Some? && HasPath(t', o.rel) && |o.parsed.value.symbols| > 0 {
      var caps := CapsOf(t, m, e, mode, outs, gone);
      assert o.rel in ParsedPaths(outs);
      UnkeptIsQueued(t, m, e, mode, Work(SymbolIds(t', IdAt(t', o.rel)), o.parsed.value), o.rel, CaptureAt(caps, o.rel), text);
    }
  }
}
