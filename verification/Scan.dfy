/** The worker pool of a scan: an unbuffered job channel, workers that share one memoised package resolver,
    and an outcome slot per candidate. Every interleaving is a sequence of the steps below. */
module Scan {
  import opened Base
  import opened Digests
  import opened Scanning
  import opened Packages

  /** What the pool works on. Workers look packages up on the disk instead of being told them. */
  datatype ScanJob = ScanJob(w: World, cands: seq<Candidate>, existing: map<Path, Digest>, full: bool, doParse: bool, disk: Disk)

  /** The world of the job knows packages by the uncached walk. */
  ghost predicate Faithful(t: ScanJob) {
    forall p :: t.w.pkgOf(p) == Nearest(t.disk, DirOf(t.disk, p))
  }

  /** Scanning holds a received index; Resolved also holds the package the resolver returned for it. */
  datatype Worker = Waiting | Scanning(i: nat) | Resolved(i: nat, pkg: string) | Exited

  /** next is the sender's position; written lists the filled slots in the order they were filled. */
  datatype Pool = Pool(next: nat, closed: bool, workers: seq<Worker>, outcomes: map<nat, Outcome>, written: seq<nat>, cache: Cache)

  /** Only a candidate that is to be parsed needs its package. */
  predicate NeedsPackage(t: ScanJob, c: Candidate) {
    SkipOf(t.w, c.rel) == NotSkipped && t.doParse && (t.full || IsChanged(t.w, c, t.existing))
  }

  /** scanOne, once the package is known. */
  function Result(t: ScanJob, c: Candidate, pkg: string): Outcome {
    if NeedsPackage(t, c) then
      Outcome(c.rel, NotSkipped, true, Some(Parse(t.w.registry, c.rel, t.w.tree[c.rel], c.tracked, pkg, t.w.embedding)))
    else ScanOne(t.w, c, t.existing, t.full, false)
  }

  lemma ResultIsScanOne(t: ScanJob, c: Candidate, pkg: string)
    requires NeedsPackage(t, c) ==> pkg == t.w.pkgOf(c.rel)
    ensures Result(t, c, pkg) == ScanOne(t.w, c, t.existing, t.full, t.doParse)
  {
  }

  // ---- the steps ----

  ghost predicate Init(t: ScanJob, s: Pool) {
    && |s.workers| > 0 && (forall k :: 0 <= k < |s.workers| ==> s.workers[k] == Waiting)
    && s == Pool(0, false, s.workers, map[], [], map[])
  }

  /** The rendezvous of the sender with a worker that ranges over the channel. */
  ghost predicate Send(t: ScanJob, s: Pool, s': Pool, k: nat) {
    && k < |s.workers| && s.workers[k] == Waiting && s.next < |t.cands|
    && s' == s.(next := s.next + 1, workers := s.workers[k := Scanning(s.next)])
  }

  /** The resolver runs under its mutex, so a lookup is one step: PkgFor on the shared cache. */
  ghost predicate LookUp(t: ScanJob, s: Pool, s': Pool, k: nat) {
    && k < |s.workers| && s.workers[k].Scanning? && s.workers[k].i < |t.cands|
    && var c := t.cands[s.workers[k].i];
       && NeedsPackage(t, c)
       && var dir := DirOf(t.disk, c.rel);
          var after := AfterLookup(t.disk, s.cache, dir);
          s' == s.(cache := after, workers := s.workers[k := Resolved(s.workers[k].i, after[dir])])
  }

  /** The outcome is written to its slot and the worker comes back for more. */
  ghost predicate Finish(t: ScanJob, s: Pool, s': Pool, k: nat) {
    && k < |s.workers| && (s.workers[k].Scanning? || s.workers[k].Resolved?) && s.workers[k].i < |t.cands|
    && var i, c := s.workers[k].i, t.cands[s.workers[k].i];
       && (s.workers[k].Resolved? <==> NeedsPackage(t, c))
       && s' == s.(outcomes := s.outcomes[i := Result(t, c, if s.workers[k].Resolved? then s.workers[k].pkg else "")],
                   written := s.written + [i],
                   workers := s.workers[k := Waiting])
  }

  ghost predicate Close(t: ScanJob, s: Pool, s': Pool) {
    s.next == |t.cands| && !s.closed && s' == s.(closed := true)
  }

  /** A worker sees the closed channel and returns. */
  ghost predicate Leave(t: ScanJob, s: Pool, s': Pool, k: nat) {
    k < |s.workers| && s.workers[k] == Waiting && s.closed && s' == s.(workers := s.workers[k := Exited])
  }

  ghost predicate WorkerStep(t: ScanJob, s: Pool, s': Pool, k: nat) {
    Send(t, s, s', k) || LookUp(t, s, s', k) || Finish(t, s, s', k) || Leave(t, s, s', k)
  }

  ghost predicate Step(t: ScanJob, s: Pool, s': Pool) {
    Close(t, s, s') || exists k: nat :: WorkerStep(t, s, s', k)
  }

  ghost predicate CanStep(t: ScanJob, s: Pool) {
    exists s' :: Step(t, s, s')
  }

  // ---- the invariant ----

  predicate Holds(w: Worker, i: nat) {
    (w.Scanning? || w.Resolved?) && w.i == i
  }

  ghost predicate WorkerFits(t: ScanJob, s: Pool, k: nat)
    requires k < |s.workers|
  {
    var w := s.workers[k];
    && (w.Scanning? || w.Resolved? ==> w.i < s.next && w.i < |t.cands| && w.i !in s.written)
    && (w.Resolved? && w.i < |t.cands| ==> NeedsPackage(t, t.cands[w.i]) && w.pkg == t.w.pkgOf(t.cands[w.i].rel))
    && (w.Exited? ==> s.closed)
  }

  /** An index that was sent is with exactly one worker or in its slot. */
  ghost predicate Handled(s: Pool, i: nat) {
    i in s.written || exists k :: 0 <= k < |s.workers| && Holds(s.workers[k], i)
  }

  ghost predicate Inv(t: ScanJob, s: Pool) {
    && s.next <= |t.cands| && (s.closed ==> s.next == |t.cands|) && |s.workers| > 0
    && Agrees(t.disk, s.cache)
    && (forall k :: 0 <= k < |s.workers| ==> WorkerFits(t, s, k))
    && (forall k, l, i :: 0 <= k < |s.workers| && 0 <= l < |s.workers| && Holds(s.workers[k], i) && Holds(s.workers[l], i) ==> k == l)
    && (forall i :: 0 <= i < s.next ==> Handled(s, i))
    && SlotsRight(t, s)
  }

  ghost predicate SlotRight(t: ScanJob, s: Pool, i: nat) {
    && i < s.next && i < |t.cands| && i in s.outcomes
    && s.outcomes[i] == ScanOne(t.w, t.cands[i], t.existing, t.full, t.doParse)
  }

  /** The filled slots are the written indices, each written once, each with its candidate's outcome. */
  ghost predicate SlotsRight(t: ScanJob, s: Pool) {
    && (forall i :: i in s.outcomes <==> i in s.written)
    && (forall a, b :: 0 <= a < b < |s.written| ==> s.written[a] != s.written[b])
    && (forall i :: i in s.written ==> SlotRight(t, s, i))
  }

  lemma InitInv(t: ScanJob, s: Pool)
    requires Init(t, s)
    ensures Inv(t, s)
  {
  }

  lemma SendInv(t: ScanJob, s: Pool, s': Pool, k: nat)
    requires Inv(t, s) && Send(t, s, s', k)
    ensures Inv(t, s')
  {
    assert s.next !in s.written;
    assert forall l :: 0 <= l < |s.workers| ==> WorkerFits(t, s, l);
    hide NeedsPackage, ScanOne, Agrees;
    forall l | 0 <= l < |s'.workers| ensures WorkerFits(t, s', l) {
      assert WorkerFits(t, s, l);
    }
    forall i | 0 <= i < s'.next ensures Handled(s', i) {
      if i == s.next {
        assert Holds(s'.workers[k], i);
      } else if i !in s.written {
        assert Handled(s, i);
        var l :| 0 <= l < |s.workers| && Holds(s.workers[l], i);
        assert Holds(s'.workers[l], i);
      }
    }
    forall l, m, i | 0 <= l < |s'.workers| && 0 <= m < |s'.workers| && Holds(s'.workers[l], i) && Holds(s'.workers[m], i) ensures l == m {
      assert WorkerFits(t, s, l) && WorkerFits(t, s, m);
    }
  }

  lemma LookUpFaithful(t: ScanJob, s: Pool, s': Pool, k: nat)
    requires Faithful(t) && Agrees(t.disk, s.cache) && LookUp(t, s, s', k)
    ensures Agrees(t.disk, s'.cache)
    ensures k < |s'.workers| && s'.workers[k].Resolved? && s'.workers[k].pkg == t.w.pkgOf(t.cands[s.workers[k].i].rel)
  {
    LookupIsNearest(t.disk, s.cache, DirOf(t.disk, t.cands[s.workers[k].i].rel));
    hide NeedsPackage, Nearest, DirOf, AfterLookup, Agrees;
  }

  lemma LookUpInv(t: ScanJob, s: Pool, s': Pool, k: nat)
    requires Faithful(t) && Inv(t, s) && LookUp(t, s, s', k)
    ensures Inv(t, s')
  {
    LookUpFaithful(t, s, s', k);
    ResolveInv(t, s, s', k, s.workers[k].i, s'.workers[k].pkg);
  }

  lemma ResolveInv(t: ScanJob, s: Pool, s': Pool, k: nat, i: nat, pkg: string)
    requires Inv(t, s) && Agrees(t.disk, s'.cache)
    requires k < |s.workers| && s.workers[k] == Scanning(i) && i < |t.cands|
    requires NeedsPackage(t, t.cands[i]) && pkg == t.w.pkgOf(t.cands[i].rel)
    requires s' == s.(cache := s'.cache, workers := s.workers[k := Resolved(i, pkg)])
    ensures Inv(t, s')
  {
    hide NeedsPackage, ScanOne, Agrees;
    assert forall l, j :: 0 <= l < |s.workers| ==> (Holds(s'.workers[l], j) <==> Holds(s.workers[l], j));
    forall l | 0 <= l < |s'.workers| ensures WorkerFits(t, s', l) {
      assert WorkerFits(t, s, l);
    }
    forall j | 0 <= j < s'.next ensures Handled(s', j) {
      assert Handled(s, j);
      if j !in s.written {
        var l :| 0 <= l < |s.workers| && Holds(s.workers[l], j);
        assert Holds(s'.workers[l], j);
      }
    }
    forall j | j in s'.written ensures SlotRight(t, s', j) {
      assert SlotRight(t, s, j);
    }
  }

  lemma FinishInv(t: ScanJob, s: Pool, s': Pool, k: nat)
    requires Inv(t, s) && Finish(t, s, s', k)
    ensures Inv(t, s')
  {
    var i := s.workers[k].i;
    assert WorkerFits(t, s, k);
    ResultIsScanOne(t, t.cands[i], if s.workers[k].Resolved? then s.workers[k].pkg else "");
    FilledInv(t, s, s', k, i);
  }

  lemma FilledInv(t: ScanJob, s: Pool, s': Pool, k: nat, i: nat)
    requires Inv(t, s) && k < |s.workers| && Holds(s.workers[k], i) && i < |t.cands|
    requires s' == s.(outcomes := s.outcomes[i := ScanOne(t.w, t.cands[i], t.existing, t.full, t.doParse)],
                      written := s.written + [i], workers := s.workers[k := Waiting])
    ensures Inv(t, s')
  {
    assert WorkerFits(t, s, k);
    hide NeedsPackage, ScanOne, Agrees;
    forall l | 0 <= l < |s'.workers| ensures WorkerFits(t, s', l) {
      assert WorkerFits(t, s, l);
      assert l != k ==> !Holds(s.workers[l], i);
    }
    forall j | 0 <= j < s'.next ensures Handled(s', j) {
      assert Handled(s, j);
      if j !in s'.written {
        var l :| 0 <= l < |s.workers| && Holds(s.workers[l], j);
        assert Holds(s'.workers[l], j);
      }
    }
    forall j | j in s'.written ensures SlotRight(t, s', j) {
      assert j != i ==> SlotRight(t, s, j);
    }
  }

  lemma LeaveInv(t: ScanJob, s: Pool, s': Pool, k: nat)
    requires Inv(t, s) && Leave(t, s, s', k)
    ensures Inv(t, s')
  {
    hide NeedsPackage, ScanOne, Agrees;
    forall l | 0 <= l < |s'.workers| ensures WorkerFits(t, s', l) {
      assert WorkerFits(t, s, l);
    }
    forall j | 0 <= j < s'.next ensures Handled(s', j) {
      assert Handled(s, j);
      if j !in s.written {
        var l :| 0 <= l < |s.workers| && Holds(s.workers[l], j);
        assert Holds(s'.workers[l], j);
      }
    }
  }

  lemma CloseInv(t: ScanJob, s: Pool, s': Pool)
    requires Inv(t, s) && Close(t, s, s')
    ensures Inv(t, s')
  {
    hide NeedsPackage, ScanOne, Agrees;
    forall l | 0 <= l < |s'.workers| ensures WorkerFits(t, s', l) {
      assert WorkerFits(t, s, l);
    }
    forall j | 0 <= j < s'.next ensures Handled(s', j) {
      assert Handled(s, j);
      if j !in s.written {
        var l :| 0 <= l < |s.workers| && Holds(s.workers[l], j);
        assert Holds(s'.workers[l], j);
      }
    }
  }

  /** Every step of every interleaving keeps the invariant. */
  lemma StepInv(t: ScanJob, s: Pool, s': Pool)
    requires Faithful(t) && Inv(t, s) && Step(t, s, s')
    ensures Inv(t, s')
  {
    hide Inv, Send, LookUp, Finish, Leave, Close;
    if Close(t, s, s') {
      CloseInv(t, s, s');
    } else {
      var k: nat :| WorkerStep(t, s, s', k);
      if Send(t, s, s', k) {
        SendInv(t, s, s', k);
      } else if LookUp(t, s, s', k) {
        LookUpInv(t, s, s', k);
      } else if Finish(t, s, s', k) {
        FinishInv(t, s, s', k);
      } else {
        LeaveInv(t, s, s', k);
      }
    }
  }

  // ---- no deadlock, and an end ----

  ghost predicate AllExited(s: Pool) {
    forall k :: 0 <= k < |s.workers| ==> s.workers[k].Exited?
  }

  /** While wg.Wait has to wait, some step can be taken. */
  lemma NoDeadlock(t: ScanJob, s: Pool)
    requires Inv(t, s) && !AllExited(s)
    ensures CanStep(t, s)
  {
    var k :| 0 <= k < |s.workers| && !s.workers[k].Exited?;
    assert WorkerFits(t, s, k);
    match s.workers[k]
    case Waiting =>
      if s.closed {
        var s' := s.(workers := s.workers[k := Exited]);
        assert WorkerStep(t, s, s', k) by { assert Leave(t, s, s', k); }
        assert Step(t, s, s');
      } else if s.next < |t.cands| {
        var s' := s.(next := s.next + 1, workers := s.workers[k := Scanning(s.next)]);
        assert WorkerStep(t, s, s', k) by { assert Send(t, s, s', k); }
        assert Step(t, s, s');
      } else {
        var s' := s.(closed := true);
        assert Step(t, s, s') by { assert Close(t, s, s'); }
      }
    case Scanning(i) =>
      if NeedsPackage(t, t.cands[i]) {
        var dir := DirOf(t.disk, t.cands[i].rel);
        var cache' := AfterLookup(t.disk, s.cache, dir);
        var s' := s.(cache := cache', workers := s.workers[k := Resolved(i, cache'[dir])]);
        assert LookUp(t, s, s', k);
        assert WorkerStep(t, s, s', k);
        assert Step(t, s, s');
      } else {
        var s' := s.(outcomes := s.outcomes[i := Result(t, t.cands[i], "")], written := s.written + [i], workers := s.workers[k := Waiting]);
        assert Finish(t, s, s', k);
        assert WorkerStep(t, s, s', k);
        assert Step(t, s, s');
      }
    case Resolved(i, pkg) =>
      var s' := s.(outcomes := s.outcomes[i := Result(t, t.cands[i], pkg)], written := s.written + [i], workers := s.workers[k := Waiting]);
      assert Finish(t, s, s', k);
      assert WorkerStep(t, s, s', k);
      assert Step(t, s, s');
  }

  function Rank(w: Worker): nat {
    match w
    case Exited => 0
    case Waiting => 1
    case Resolved(_, _) => 2
    case Scanning(_) => 3
  }

  function Ranks(ws: seq<Worker>): nat {
    if ws == [] then 0 else Ranks(ws[..|ws| - 1]) + Rank(ws[|ws| - 1])
  }

  lemma {:induction false} RanksUpdate(ws: seq<Worker>, k: nat, w: Worker)
    requires k < |ws|
    ensures Ranks(ws[k := w]) == Ranks(ws) - Rank(ws[k]) + Rank(w)
  {
    var n := |ws| - 1;
    if k < n {
      RanksUpdate(ws[..n], k, w);
      assert ws[k := w][..n] == ws[..n][k := w];
    } else {
      assert ws[k := w][..n] == ws[..n];
    }
  }

  /** What is left to do. */
  function Measure(t: ScanJob, s: Pool): int {
    3 * (|t.cands| - s.next) + Ranks(s.workers) + if s.closed then 0 else 1
  }

  /** A worker's step moves that worker only: it takes the next index, or its own rank falls. */
  ghost predicate Moves(s: Pool, s': Pool, k: nat) {
    && k < |s.workers| && k < |s'.workers| && s'.workers == s.workers[k := s'.workers[k]] && s'.closed == s.closed
    && (if s'.next == s.next then Rank(s'.workers[k]) < Rank(s.workers[k])
        else s'.next == s.next + 1 && Rank(s'.workers[k]) == Rank(s.workers[k]) + 2)
  }

  lemma WorkerMoves(t: ScanJob, s: Pool, s': Pool, k: nat)
    requires WorkerStep(t, s, s', k)
    ensures Moves(s, s', k)
  {
    hide NeedsPackage, Result, AfterLookup, DirOf;
  }

  lemma MovesDecrease(t: ScanJob, s: Pool, s': Pool, k: nat)
    requires Moves(s, s', k)
    ensures Measure(t, s') < Measure(t, s)
  {
    RanksUpdate(s.workers, k, s'.workers[k]);
    hide Ranks, Rank;
  }

  /** Every step brings the end closer. */
  lemma StepDecreases(t: ScanJob, s: Pool, s': Pool)
    requires Step(t, s, s')
    ensures Measure(t, s') < Measure(t, s)
  {
    hide WorkerStep, Moves, Ranks;
    if !Close(t, s, s') {
      var k: nat :| WorkerStep(t, s, s', k);
      WorkerMoves(t, s, s', k);
      MovesDecrease(t, s, s', k);
    }
  }

  // ---- whole executions ----

  ghost predicate IsRun(t: ScanJob, run: seq<Pool>) {
    && run != [] && Init(t, run[0])
    && forall i :: 0 <= i < |run| - 1 ==> Step(t, run[i], run[i + 1])
  }

  lemma {:induction false} RunInv(t: ScanJob, run: seq<Pool>)
    requires Faithful(t) && IsRun(t, run)
    ensures Inv(t, run[|run| - 1])
    ensures |run| - 1 + Measure(t, run[|run| - 1]) <= Measure(t, run[0])
    decreases |run|
  {
    hide Inv, Step, Init, Measure;
    var n := |run| - 1;
    if n == 0 {
      InitInv(t, run[0]);
    } else {
      RunInv(t, run[..n]);
      assert Step(t, run[n - 1], run[n]);
      StepInv(t, run[n - 1], run[n]);
      StepDecreases(t, run[n - 1], run[n]);
    }
  }

  /** Whatever the interleaving: the pool cannot run for ever, it stops only when every worker has left, and then
      each index was handled exactly once and the slots are the sequential scan, in candidate order. */
  lemma PoolComputesScan(t: ScanJob, run: seq<Pool>)
    requires Faithful(t) && IsRun(t, run)
    ensures |run| - 1 <= Measure(t, run[0])
    ensures !CanStep(t, run[|run| - 1]) ==> AllExited(run[|run| - 1])
    ensures AllExited(run[|run| - 1]) ==>
      var s := run[|run| - 1];
      && |s.written| == |t.cands|
      && (forall i :: 0 <= i < |t.cands| ==> i in s.written && i in s.outcomes)
      && (forall i :: 0 <= i < |t.cands| ==> s.outcomes[i] == ScanAll(t.w, t.cands, t.existing, t.full, t.doParse)[i])
  {
    var s := run[|run| - 1];
    RunInv(t, run);
    RanksNat(t, s);
    if !AllExited(s) {
      NoDeadlock(t, s);
    } else {
      Exhausted(t, s);
    }
  }

  lemma RanksNat(t: ScanJob, s: Pool)
    requires Inv(t, s)
    ensures Measure(t, s) >= 0
  {
  }

  lemma ScanAllAt(t: ScanJob)
    ensures forall i :: 0 <= i < |t.cands| ==>
      ScanAll(t.w, t.cands, t.existing, t.full, t.doParse)[i] == ScanOne(t.w, t.cands[i], t.existing, t.full, t.doParse)
  {
  }

  lemma Exhausted(t: ScanJob, s: Pool)
    requires Inv(t, s) && AllExited(s)
    ensures |s.written| == |t.cands|
    ensures forall i :: 0 <= i < |t.cands| ==> i in s.written && i in s.outcomes
    ensures forall i :: 0 <= i < |t.cands| ==> s.outcomes[i] == ScanAll(t.w, t.cands, t.existing, t.full, t.doParse)[i]
  {
    assert WorkerFits(t, s, 0);
    assert s.next == |t.cands|;
    forall i | 0 <= i < |t.cands| ensures i in s.written {
      assert Handled(s, i);
    }
    DistinctCover(s.written, |t.cands|);
    ScanAllAt(t);
    forall i | 0 <= i < |t.cands| ensures s.outcomes[i] == ScanAll(t.w, t.cands, t.existing, t.full, t.doParse)[i] {
      assert SlotRight(t, s, i);
    }
  }

  lemma HasMember<T>(s: seq<T>)
    ensures s == [] || exists x :: x in s
  {
    assert s == [] || s[0] in s;
  }

  lemma {:induction false} DistinctCover(s: seq<nat>, n: nat)
    requires forall a, b :: 0 <= a < b < |s| ==> s[a] != s[b]
    requires forall i :: i in s <==> 0 <= i < n
    ensures |s| == n
    decreases n
  {
    if n == 0 {
      HasMember(s);
    } else {
      assert n - 1 in s;
      var k :| 0 <= k < |s| && s[k] == n - 1;
      var rest := s[..k] + s[k + 1..];
      forall i ensures i in rest <==> 0 <= i < n - 1 {
        if i in rest {
          assert i in s;
        }
        if 0 <= i < n - 1 {
          assert i in s;
        }
      }
      DistinctCover(rest, n - 1);
    }
  }
}
