/** The search pipeline between the store's answers and the ranked hits. */
module Search {
  import opened Base
  import opened Sorting
  import opened Text
  import opened StringOrder
  import opened Lists
  import opened Digests
  import opened Ranking

  datatype Grain = SymbolHit | FileHit

  /** A candidate with its signals. A candidate that no vector search returned has vectorScore 0. */
  datatype Cand = Cand(
    grain: Grain, name: string, kind: string, container: string, signature: string, path: Path, pkg: string, role: string,
    importedByCount: int, hasTests: bool, hasMemory: bool, contentDensity: real,
    vectorScore: real, hasVector: bool)

  type Cands = map<string, Cand>

  function GrainName(g: Grain): string {
    match g
    case SymbolHit => "symbol"
    case FileHit => "file"
  }

  function CandKey(grain: Grain, path: Path, container: string, name: string): string {
    Join([GrainName(grain), path, container, name], [NUL])
  }

  function KeyOf(c: Cand): string {
    CandKey(c.grain, c.path, if c.grain == SymbolHit then c.container else "", c.name)
  }

  /** Keys tell candidates apart by grain, path, container and name. */
  lemma CandKeyInjective(g: Grain, p: Path, c: string, n: string, g': Grain, p': Path, c': string, n': string)
    requires Free([p, c, n], NUL) && Free([p', c', n'], NUL)
    requires CandKey(g, p, c, n) == CandKey(g', p', c', n')
    ensures g == g' && p == p' && c == c' && n == n'
  {
    var a, b := [GrainName(g), p, c, n], [GrainName(g'), p', c', n'];
    assert [p, c, n][0] == p && [p, c, n][1] == c && [p, c, n][2] == n;
    assert [p', c', n'][0] == p' && [p', c', n'][1] == c' && [p', c', n'][2] == n';
    JoinInjective(a, b, NUL);
    assert a[0] == b[0] && a[1] == b[1] && a[2] == b[2] && a[3] == b[3];
    assert GrainName(SymbolHit)[0] != GrainName(FileHit)[0];
  }

  // ---- candidate generators ----

  /** The full-text hits of a query, each with the candidate its live row gives; None is a row that is gone. */
  type FtsHits = seq<Option<Cand>>

  /** Adds each hit under its key unless the key is taken. */
  function Rescued(cands: Cands, hits: FtsHits): Cands {
    if hits == [] then cands
    else
      var m := Rescued(cands, hits[..|hits| - 1]);
      match hits[|hits| - 1]
      case Some(c) => if KeyOf(c) in m then m else m[KeyOf(c) := c]
      case None => m
  }

  method MetadataCandidates(hits: FtsHits, cands: Cands) returns (out: Cands)
    ensures out == Rescued(cands, hits)
  {
    hide KeyOf;
    out := cands;
    var i := 0;
    while i < |hits|
      invariant 0 <= i <= |hits|
      invariant out == Rescued(cands, hits[..i])
    {
      var h := hits[i];
      assert hits[..i + 1][..i] == hits[..i];
      i := i + 1;
      if h.None? {
        continue;
      }
      var key := KeyOf(h.value);
      if key in out {
        continue;
      }
      out := out[key := h.value];
    }
    assert hits[..i] == hits;
  }

  ghost predicate HitWithKey(hits: FtsHits, k: string) {
    exists i :: 0 <= i < |hits| && hits[i].Some? && KeyOf(hits[i].value) == k
  }

  /** Rescue never overwrites: what was there stays as it was, and exactly the hits' keys are added. */
  lemma {:induction false} RescueKeeps(cands: Cands, hits: FtsHits, k: string)
    ensures k in cands ==> k in Rescued(cands, hits) && Rescued(cands, hits)[k] == cands[k]
    ensures k in Rescued(cands, hits) <==> k in cands || HitWithKey(hits, k)
    ensures k in Rescued(cands, hits) && k !in cands ==> KeyOf(Rescued(cands, hits)[k]) == k && Some(Rescued(cands, hits)[k]) in hits
  {
    hide KeyOf;
    if hits != [] {
      var init, h := hits[..|hits| - 1], hits[|hits| - 1];
      RescueKeeps(cands, init, k);
      assert hits == init + [h];
      if HitWithKey(init, k) {
        var i :| 0 <= i < |init| && init[i].Some? && KeyOf(init[i].value) == k;
        assert hits[i] == init[i];
      }
      if HitWithKey(hits, k) && !HitWithKey(init, k) {
        assert h.Some? && KeyOf(h.value) == k;
      }
      if h.Some? && KeyOf(h.value) == k {
        assert hits[|init|] == h;
      }
    }
  }

  /** One nearest neighbour: the candidate of its live row, and its cosine distance. */
  datatype Neighbour = Neighbour(cand: Option<Cand>, distance: real)

  function WithVector(c: Cand, distance: real): Cand {
    c.(vectorScore := Clamp01(1.0 - distance), hasVector := true)
  }

  function Nearest(cands: Cands, hits: seq<Neighbour>): Cands {
    if hits == [] then cands
    else
      var m, h := Nearest(cands, hits[..|hits| - 1]), hits[|hits| - 1];
      if h.cand.Some? then m[KeyOf(h.cand.value) := WithVector(h.cand.value, h.distance)] else m
  }

  method AddNeighbours(hits: seq<Neighbour>, cands: Cands) returns (out: Cands)
    ensures out == Nearest(cands, hits)
  {
    hide KeyOf;
    out := cands;
    var i := 0;
    while i < |hits|
      invariant 0 <= i <= |hits|
      invariant out == Nearest(cands, hits[..i])
    {
      var h := hits[i];
      assert hits[..i + 1][..i] == hits[..i];
      i := i + 1;
      if h.cand.None? {
        continue;
      }
      var c := h.cand.value.(vectorScore := Clamp01(1.0 - h.distance), hasVector := true);
      out := out[KeyOf(h.cand.value) := c];
    }
    assert hits[..i] == hits;
  }

  /** Symbol neighbours, file neighbours, then the exact-identifier rescue. */
  method SemanticCandidates(symHits: seq<Neighbour>, fileHits: seq<Neighbour>, rescue: FtsHits) returns (out: Cands)
    ensures out == Rescued(Nearest(Nearest(map[], symHits), fileHits), rescue)
  {
    var syms := AddNeighbours(symHits, map[]);
    var both := AddNeighbours(fileHits, syms);
    out := MetadataCandidates(rescue, both);
  }

  ghost predicate FromNeighbour(hits: seq<Neighbour>, k: string, c: Cand) {
    exists i :: 0 <= i < |hits| && hits[i].cand.Some? && KeyOf(hits[i].cand.value) == k && c == WithVector(hits[i].cand.value, hits[i].distance)
  }

  lemma {:induction false} NearestMembers(cands: Cands, hits: seq<Neighbour>, k: string)
    ensures k in Nearest(cands, hits) ==> (k in cands && Nearest(cands, hits)[k] == cands[k]) || FromNeighbour(hits, k, Nearest(cands, hits)[k])
    ensures k in cands ==> k in Nearest(cands, hits)
  {
    hide KeyOf, WithVector;
    if hits != [] {
      var init, h := hits[..|hits| - 1], hits[|hits| - 1];
      NearestMembers(cands, init, k);
      var m := Nearest(cands, init);
      if k in m && FromNeighbour(init, k, m[k]) {
        var i :| 0 <= i < |init| && init[i].cand.Some? && KeyOf(init[i].cand.value) == k && m[k] == WithVector(init[i].cand.value, init[i].distance);
        assert hits[i] == init[i];
        assert FromNeighbour(hits, k, m[k]);
      }
      assert hits[|hits| - 1] == h;
    }
  }

  /** On the semantic path a candidate that a neighbour search found keeps its vector score, whatever the rescue found. */
  lemma RescueKeepsVectors(symHits: seq<Neighbour>, fileHits: seq<Neighbour>, rescue: FtsHits, k: string)
    requires forall i :: 0 <= i < |rescue| && rescue[i].Some? ==> !rescue[i].value.hasVector
    ensures var base, out := Nearest(Nearest(map[], symHits), fileHits), Rescued(Nearest(Nearest(map[], symHits), fileHits), rescue);
            && (k in base ==> k in out && out[k] == base[k] && out[k].hasVector)
            && (k in out && out[k].hasVector ==> k in base)
  {
    hide KeyOf;
    var base := Nearest(Nearest(map[], symHits), fileHits);
    RescueKeeps(base, rescue, k);
    NearestMembers(map[], symHits, k);
    NearestMembers(Nearest(map[], symHits), fileHits, k);
    hide Rescued, Nearest;
    var out := Rescued(base, rescue);
    if k in out && k !in base {
      var i :| 0 <= i < |rescue| && rescue[i] == Some(out[k]);
    }
  }

  // ---- folding ----

  ghost predicate SymbolAt(cands: Cands, path: Path) {
    exists k :: k in cands && cands[k].grain == SymbolHit && cands[k].path == path
  }

  /** A file goes when a symbol of the same path surfaced. */
  ghost predicate Folds(cands: Cands, c: Cand) {
    c.grain == FileHit && SymbolAt(cands, c.path)
  }

  /** What folding leaves. */
  ghost predicate IsFolded(cands: Cands, out: Cands) {
    && (forall k :: k in out <==> k in cands && !Folds(cands, cands[k]))
    && (forall k :: k in out ==> out[k] == cands[k])
  }

  /** Two passes over the map, in any order; the second deletes from the map it ranges over. */
  method FoldFileHits(cands: Cands) returns (out: Cands)
    ensures IsFolded(cands, out)
  {
    var symbolPaths: set<Path> := {};
    var todo := cands.Keys;
    while todo != {}
      invariant todo <= cands.Keys
      invariant forall p :: p in symbolPaths <==> exists k :: k in cands && k !in todo && cands[k].grain == SymbolHit && cands[k].path == p
      decreases |todo|
    {
      var k :| k in todo;
      if cands[k].grain == SymbolHit {
        symbolPaths := symbolPaths + {cands[k].path};
      }
      todo := todo - {k};
    }
    assert forall p :: p in symbolPaths <==> SymbolAt(cands, p);
    out := cands;
    todo := cands.Keys;
    while todo != {}
      invariant todo <= cands.Keys
      invariant forall k :: k in out <==> k in cands && (k in todo || !Folds(cands, cands[k]))
      invariant forall k :: k in out ==> out[k] == cands[k]
      decreases |todo|
    {
      var k :| k in todo;
      var c := cands[k];
      if c.grain == FileHit && c.path in symbolPaths {
        out := out - {k};
      }
      todo := todo - {k};
    }
  }

  /** After folding no file stands beside a symbol of its path, every symbol is still there, and so is every other file. */
  lemma FoldedApart(cands: Cands, out: Cands, j: string, k: string)
    requires IsFolded(cands, out)
    ensures j in out && k in out && out[j].grain == FileHit && out[k].grain == SymbolHit ==> out[j].path != out[k].path
    ensures k in cands && k !in out ==> cands[k].grain == FileHit && SymbolAt(out, cands[k].path)
  {
    if j in out {
      assert !Folds(cands, cands[j]);
    }
    if k in cands && k !in out {
      var s :| s in cands && cands[s].grain == SymbolHit && cands[s].path == cands[k].path;
      assert s in out && out[s] == cands[s];
    }
  }

  // ---- hits ----

  datatype Hit = Hit(cand: Cand, score: real, leadsByVector: bool)

  function SignalsOf(c: Cand): Signals {
    Signals(c.name, c.signature, c.path, c.role, c.importedByCount, c.hasTests, c.hasMemory, c.contentDensity)
  }

  function ToHit(tokens: seq<string>, semantic: bool, c: Cand): Hit {
    var heur := Score(tokens, SignalsOf(c));
    Hit(c, Round(Blend(semantic, c.vectorScore, heur)), semantic && W_VECTOR * c.vectorScore > W_HEURISTIC * heur)
  }

  /** Whatever distances the neighbour search reports, the vector scores that enter the blend lie in [0, 1]. */
  lemma VectorScoresInUnit(symHits: seq<Neighbour>, fileHits: seq<Neighbour>, rescue: FtsHits, k: string)
    requires forall i :: 0 <= i < |rescue| && rescue[i].Some? ==> rescue[i].value.vectorScore == 0.0
    ensures var out := Rescued(Nearest(Nearest(map[], symHits), fileHits), rescue);
            k in out ==> 0.0 <= out[k].vectorScore <= 1.0
  {
    hide KeyOf;
    var base := Nearest(Nearest(map[], symHits), fileHits);
    RescueKeeps(base, rescue, k);
    NearestMembers(map[], symHits, k);
    NearestMembers(Nearest(map[], symHits), fileHits, k);
    hide Rescued, Nearest;
    var out := Rescued(base, rescue);
    if k in out && k !in base {
      var i :| 0 <= i < |rescue| && rescue[i] == Some(out[k]);
    }
  }

  /** The first candidate is returned before the second one. */
  ghost predicate Leads(q: string, c: Cand, d: Cand) {
    ToHit(Tokens(q), true, c).score > ToHit(Tokens(q), true, d).score
  }

  /** A candidate of a semantic search with this vector score, and one that no neighbour search found. */
  ghost predicate Rivals(v: real, q: string, c: Cand, d: Cand) {
    Tokens(q) != [] && c.vectorScore == v && c.contentDensity == 0.0 && d.vectorScore == 0.0 && d.contentDensity == 0.0
  }

  function Plain(s: Signals, v: real): Cand {
    Cand(SymbolHit, s.name, "", "", s.signature, s.path, "", s.role, s.importedByCount, s.hasTests, s.hasMemory, s.contentDensity, v, v != 0.0)
  }

  /** A vector score outranks every candidate without one, for every query and whatever the signals, exactly from
      this value on. */
  lemma VectorLeadsExactly(v: real)
    requires 0.0 <= v <= 1.0
    ensures (forall q, c, d :: Rivals(v, q, c, d) ==> Leads(q, c, d)) <==> v >= 5281.0 / 14000.0
  {
    if v >= 5281.0 / 14000.0 {
      forall q, c, d | Rivals(v, q, c, d) ensures Leads(q, c, d) {
        VectorLeads(Tokens(q), v, c, d);
      }
    } else {
      var c, d := Plain(WORST, v), Plain(BEST, 0.0);
      TokensStep("", " ", "a");
      assert Tokens("a") == ["a"] by {
        assert ToLower("a") == "a";
      }
      ScoreRangeReached();
      assert SignalsOf(c) == WORST && SignalsOf(d) == BEST;
      hide Tokens, Score;
      assert Rivals(v, "a", c, d);
      assert !Leads("a", c, d) by {
        assert Blend(true, v, 0.02) == 0.7 * v + 0.006;
        RoundMonotone(0.7 * v + 0.006, 0.27);
        BelowThreshold(v);
      }
    }
  }

  lemma BelowThreshold(v: real)
    requires 0.0 <= v < 5281.0 / 14000.0
    ensures Round(0.7 * v + 0.006) <= Round(0.27)
  {
    var x := (0.7 * v + 0.006) * 10000.0 + 0.5;
    assert x < 2701.0;
    assert x.Floor <= 2700;
    assert (0.27 * 10000.0 + 0.5).Floor == 2700;
  }

  lemma VectorLeads(tokens: seq<string>, v: real, c: Cand, d: Cand)
    requires v >= 5281.0 / 14000.0 && c.vectorScore == v && c.contentDensity == 0.0 && d.vectorScore == 0.0 && d.contentDensity == 0.0
    ensures ToHit(tokens, true, c).score > ToHit(tokens, true, d).score
  {
    var h, h' := Score(tokens, SignalsOf(c)), Score(tokens, SignalsOf(d));
    ScoreRange(tokens, SignalsOf(c));
    ScoreRange(tokens, SignalsOf(d));
    hide Score;
    FloorMonotone(2701.0, Blend(true, v, h) * 10000.0 + 0.5);
    FloorMonotone(Blend(true, 0.0, h') * 10000.0 + 0.5, 2700.5);
  }

  /** Every reported score lies in [0, 1]. */
  lemma HitInUnit(tokens: seq<string>, semantic: bool, c: Cand)
    requires 0.0 <= c.vectorScore <= 1.0
    ensures 0.0 <= ToHit(tokens, semantic, c).score <= 1.0
  {
    ScoreInUnit(tokens, SignalsOf(c));
    var heur := Score(tokens, SignalsOf(c));
    hide Score, Round;
    BlendInUnit(semantic, c.vectorScore, heur);
    RoundError(Blend(semantic, c.vectorScore, heur));
  }

  method BuildHit(tokens: seq<string>, semantic: bool, c: Cand) returns (hit: Hit)
    ensures hit == ToHit(tokens, semantic, c)
  {
    var heur := ScoreSignals(tokens, SignalsOf(c));
    hide Score, Round;
    var final, leads := heur, false;
    if semantic {
      final := W_VECTOR * c.vectorScore + W_HEURISTIC * heur;
      if W_VECTOR * c.vectorScore > W_HEURISTIC * heur {
        leads := true;
      }
    }
    hit := Hit(c, Round(final), leads);
  }

  /** What sortHits compares. */
  datatype SortKey = SortKey(score: real, name: string, path: Path)

  function SortKeyOf(h: Hit): SortKey {
    SortKey(h.score, h.cand.name, h.cand.path)
  }

  predicate KeyLeq(a: SortKey, b: SortKey) {
    if a.score != b.score then a.score > b.score
    else if a.name != b.name then StringLeq(a.name, b.name)
    else StringLeq(a.path, b.path)
  }

  predicate HitLeq(a: Hit, b: Hit) {
    KeyLeq(SortKeyOf(a), SortKeyOf(b))
  }

  lemma KeyTransitive(a: SortKey, b: SortKey, c: SortKey)
    requires KeyLeq(a, b) && KeyLeq(b, c)
    ensures KeyLeq(a, c)
  {
    StringLeqTotal(a.name, b.name);
    StringLeqTotal(b.name, c.name);
    StringLeqTotal(a.path, b.path);
    StringLeqTotal(b.path, c.path);
    if StringLeq(a.name, b.name) && StringLeq(b.name, c.name) {
      StringLeqTransitive(a.name, b.name, c.name);
    }
    if StringLeq(a.path, b.path) && StringLeq(b.path, c.path) {
      StringLeqTransitive(a.path, b.path, c.path);
    }
    hide StringLeq;
  }

  lemma KeyOrder()
    ensures TotalOrder(KeyLeq)
  {
    forall a, b ensures KeyLeq(a, b) || KeyLeq(b, a) {
      StringLeqTotal(a.name, b.name);
      StringLeqTotal(a.path, b.path);
    }
    forall a, b | KeyLeq(a, b) && KeyLeq(b, a) ensures a == b {
      StringLeqTotal(a.name, b.name);
      StringLeqTotal(a.path, b.path);
    }
    forall a, b, c | KeyLeq(a, b) && KeyLeq(b, c) ensures KeyLeq(a, c) {
      KeyTransitive(a, b, c);
    }
  }

  lemma HitOrder()
    ensures TotalPreorder(HitLeq)
  {
    KeyOrder();
    hide KeyLeq;
    forall a, b ensures HitLeq(a, b) || HitLeq(b, a) {
      assert KeyLeq(SortKeyOf(a), SortKeyOf(b)) || KeyLeq(SortKeyOf(b), SortKeyOf(a));
    }
    forall a, b, c | HitLeq(a, b) && HitLeq(b, c) ensures HitLeq(a, c) {
      assert KeyLeq(SortKeyOf(a), SortKeyOf(b)) && KeyLeq(SortKeyOf(b), SortKeyOf(c));
    }
  }

  /** Some order of the map's keys, each once. */
  ghost predicate Ranges(cands: Cands, ks: seq<string>) {
    Distinct(ks) && forall k :: k in ks <==> k in cands
  }

  ghost function HitsAlong(tokens: seq<string>, semantic: bool, cands: Cands, ks: seq<string>): seq<Hit>
    requires Ranges(cands, ks)
  {
    seq(|ks|, i requires 0 <= i < |ks| => assert ks[i] in ks; ToHit(tokens, semantic, cands[ks[i]]))
  }

  /** The map's candidates, scored in the order they are met, sorted, and cut off. */
  ghost predicate IsRanking(tokens: seq<string>, semantic: bool, cands: Cands, limit: nat, hits: seq<Hit>) {
    exists ks, all :: Ranges(cands, ks) && IsCutOf(HitsAlong(tokens, semantic, cands, ks), all, limit, hits)
  }

  ghost predicate IsCutOf(met: seq<Hit>, all: seq<Hit>, limit: nat, hits: seq<Hit>) {
    && multiset(all) == multiset(met) && Sorted(all, HitLeq)
    && hits == if |all| > limit then all[..limit] else all
  }

  /** The hits of the keys met so far. */
  ghost predicate Met(tokens: seq<string>, semantic: bool, cands: Cands, todo: set<string>, ks: seq<string>, met: seq<Hit>) {
    && Distinct(ks) && (forall k :: k in ks <==> k in cands && k !in todo)
    && |met| == |ks| && forall i :: 0 <= i < |ks| ==> ks[i] in cands && met[i] == ToHit(tokens, semantic, cands[ks[i]])
  }

  lemma MetMore(tokens: seq<string>, semantic: bool, cands: Cands, todo: set<string>, ks: seq<string>, met: seq<Hit>, k: string)
    requires Met(tokens, semantic, cands, todo, ks, met) && k in todo && k in cands
    ensures Met(tokens, semantic, cands, todo - {k}, ks + [k], met + [ToHit(tokens, semantic, cands[k])])
  {
    hide ToHit;
    assert forall i :: 0 <= i < |ks| ==> ks[i] in ks;
  }

  lemma NothingMet(tokens: seq<string>, semantic: bool, cands: Cands)
    ensures Met(tokens, semantic, cands, cands.Keys, [], [])
  {
  }

  lemma AllMet(tokens: seq<string>, semantic: bool, cands: Cands, ks: seq<string>, met: seq<Hit>)
    requires Met(tokens, semantic, cands, {}, ks, met)
    ensures Ranges(cands, ks) && met == HitsAlong(tokens, semantic, cands, ks)
  {
    hide ToHit, Distinct;
  }

  lemma RankedBy(tokens: seq<string>, semantic: bool, cands: Cands, ks: seq<string>, met: seq<Hit>, all: seq<Hit>, limit: nat, hits: seq<Hit>)
    requires Ranges(cands, ks) && met == HitsAlong(tokens, semantic, cands, ks)
    requires multiset(all) == multiset(met) && Sorted(all, HitLeq) && hits == if |all| > limit then all[..limit] else all
    ensures IsRanking(tokens, semantic, cands, limit, hits)
  {
    hide Ranges, HitsAlong, Sorted;
    assert IsCutOf(HitsAlong(tokens, semantic, cands, ks), all, limit, hits);
  }

  method RankHits(tokens: seq<string>, semantic: bool, cands: Cands, limit: nat) returns (hits: seq<Hit>)
    ensures IsRanking(tokens, semantic, cands, limit, hits)
  {
    hide *;
    ghost var ks: seq<string> := [];
    var met: seq<Hit> := [];
    var todo := cands.Keys;
    NothingMet(tokens, semantic, cands);
    while todo != {}
      invariant todo <= cands.Keys && Met(tokens, semantic, cands, todo, ks, met)
      decreases |todo|
    {
      var k :| k in todo;
      MetMore(tokens, semantic, cands, todo, ks, met, k);
      var hit := BuildHit(tokens, semantic, cands[k]);
      met := met + [hit];
      ks := ks + [k];
      todo := todo - {k};
    }
    AllMet(tokens, semantic, cands, ks, met);
    HitOrder();
    hits := Sort(met, HitLeq);
    SortPermutes(met, HitLeq);
    SortSorted(met, HitLeq);
    ghost var all := hits;
    if |hits| > limit {
      hits := hits[..limit];
    }
    RankedBy(tokens, semantic, cands, ks, met, all, limit, hits);
  }

  // ---- the order of the map does not show ----

  ghost function HitAt(tokens: seq<string>, semantic: bool, cands: Cands, default: Hit): string -> Hit {
    (k: string) => if k in cands then ToHit(tokens, semantic, cands[k]) else default
  }

  lemma AnyOrderPermutes(tokens: seq<string>, semantic: bool, cands: Cands, ks: seq<string>, js: seq<string>)
    requires Ranges(cands, ks) && Ranges(cands, js)
    ensures multiset(HitsAlong(tokens, semantic, cands, ks)) == multiset(HitsAlong(tokens, semantic, cands, js))
  {
    hide ToHit;
    DistinctSameMembers(ks, js);
    PermutationMembers(ks, js);
    if ks != [] {
      assert ks[0] in ks;
      var f := HitAt(tokens, semantic, cands, ToHit(tokens, semantic, cands[ks[0]]));
      MapPermutes(ks, js, f);
      assert forall i :: 0 <= i < |ks| ==> ks[i] in ks && f(ks[i]) == HitsAlong(tokens, semantic, cands, ks)[i];
      assert forall i :: 0 <= i < |js| ==> js[i] in js && f(js[i]) == HitsAlong(tokens, semantic, cands, js)[i];
      assert Map(ks, f) == HitsAlong(tokens, semantic, cands, ks);
      assert Map(js, f) == HitsAlong(tokens, semantic, cands, js);
    }
  }

  lemma SortedKeys(hits: seq<Hit>)
    requires Sorted(hits, HitLeq)
    ensures Sorted(Map(hits, SortKeyOf), KeyLeq)
  {
    hide KeyLeq;
    forall i, j | 0 <= i < j < |hits| ensures KeyLeq(Map(hits, SortKeyOf)[i], Map(hits, SortKeyOf)[j]) {
      assert HitLeq(hits[i], hits[j]);
    }
  }

  /** Two runs of the same search return the same sequence of scores, names and paths, whatever order the map is ranged over in. */
  lemma RankingDetermined(tokens: seq<string>, semantic: bool, cands: Cands, limit: nat, a: seq<Hit>, b: seq<Hit>)
    requires IsRanking(tokens, semantic, cands, limit, a) && IsRanking(tokens, semantic, cands, limit, b)
    ensures Map(a, SortKeyOf) == Map(b, SortKeyOf)
  {
    var ks, all :| Ranges(cands, ks) && IsCutOf(HitsAlong(tokens, semantic, cands, ks), all, limit, a);
    var js, all' :| Ranges(cands, js) && IsCutOf(HitsAlong(tokens, semantic, cands, js), all', limit, b);
    AnyOrderPermutes(tokens, semantic, cands, ks, js);
    var met, met' := HitsAlong(tokens, semantic, cands, ks), HitsAlong(tokens, semantic, cands, js);
    hide *;
    CutKeys(met, all, met', all', limit, a, b);
  }

  lemma CutKeys(met: seq<Hit>, all: seq<Hit>, met': seq<Hit>, all': seq<Hit>, limit: nat, a: seq<Hit>, b: seq<Hit>)
    requires IsCutOf(met, all, limit, a) && IsCutOf(met', all', limit, b) && multiset(met) == multiset(met')
    ensures Map(a, SortKeyOf) == Map(b, SortKeyOf)
  {
    hide KeyLeq, HitLeq, SortKeyOf;
    MapPermutes(all, all', SortKeyOf);
    SortedKeys(all);
    SortedKeys(all');
    KeyOrder();
    SortedUnique(Map(all, SortKeyOf), Map(all', SortKeyOf), KeyLeq);
    hide Sorted, TotalOrder;
    assert |all| == |Map(all, SortKeyOf)| && |all'| == |Map(all', SortKeyOf)|;
    if |all| > limit {
      assert Map(a, SortKeyOf) == Map(all, SortKeyOf)[..limit];
      assert Map(b, SortKeyOf) == Map(all', SortKeyOf)[..limit];
    }
  }

  /** Truncation keeps a true top of the ranking: what is left out ranks behind everything returned, and no more is left
      out than the limit demands. */
  lemma TopOfRanking(tokens: seq<string>, semantic: bool, cands: Cands, limit: nat, hits: seq<Hit>)
    requires IsRanking(tokens, semantic, cands, limit, hits)
    ensures Sorted(hits, HitLeq) && |hits| == if |cands| > limit then limit else |cands|
    ensures exists rest :: LeftOut(tokens, semantic, cands, hits, rest)
  {
    var ks, all :| Ranges(cands, ks) && IsCutOf(HitsAlong(tokens, semantic, cands, ks), all, limit, hits);
    assert |HitsAlong(tokens, semantic, cands, ks)| == |ks|;
    hide *;
    RangesSize(cands, ks);
    CutIsTop(HitsAlong(tokens, semantic, cands, ks), all, limit, hits);
    LeftOutAlong(tokens, semantic, cands, hits, ks, all[|hits|..]);
  }

  lemma CutIsTop(met: seq<Hit>, all: seq<Hit>, limit: nat, hits: seq<Hit>)
    requires IsCutOf(met, all, limit, hits)
    ensures Sorted(hits, HitLeq) && |hits| == if |met| > limit then limit else |met|
    ensures |hits| <= |all| && multiset(hits + all[|hits|..]) == multiset(met)
    ensures forall h, r :: h in hits && r in all[|hits|..] ==> HitLeq(h, r)
  {
    hide HitLeq;
    PermutationMembers(all, met);
    var rest := all[|hits|..];
    assert all == hits + rest;
    forall h, r | h in hits && r in rest ensures HitLeq(h, r) {
      var i :| 0 <= i < |hits| && hits[i] == h;
      var j :| 0 <= j < |rest| && rest[j] == r;
      assert all[i] == h && all[|hits| + j] == r;
    }
  }

  ghost predicate LeftOut(tokens: seq<string>, semantic: bool, cands: Cands, hits: seq<Hit>, rest: seq<Hit>) {
    && (exists ks :: Ranges(cands, ks) && multiset(HitsAlong(tokens, semantic, cands, ks)) == multiset(hits + rest))
    && forall h, r :: h in hits && r in rest ==> HitLeq(h, r)
  }

  lemma LeftOutAlong(tokens: seq<string>, semantic: bool, cands: Cands, hits: seq<Hit>, ks: seq<string>, rest: seq<Hit>)
    requires Ranges(cands, ks) && multiset(hits + rest) == multiset(HitsAlong(tokens, semantic, cands, ks))
    requires forall h, r :: h in hits && r in rest ==> HitLeq(h, r)
    ensures LeftOut(tokens, semantic, cands, hits, rest)
  {
  }

  lemma RangesSize(cands: Cands, ks: seq<string>)
    requires Ranges(cands, ks)
    ensures |ks| == |cands|
  {
    DistinctSize(ks);
    assert (set k | k in ks) == cands.Keys;
    assert |cands.Keys| == |cands|;
  }

  // ---- one search of the code ----

  /** The content matches counted under one key, and the candidate of the key's file if that is indexed. */
  datatype Matches = Matches(count: nat, cand: Option<Cand>)

  function Density(count: nat): real {
    Clamp01(count as real / 3.0)
  }

  predicate Shows(cands: Cands, counts: map<string, Matches>, k: string) {
    k in cands || (k in counts && counts[k].cand.Some?)
  }

  function WithContent(cands: Cands, counts: map<string, Matches>, k: string): Cand
    requires Shows(cands, counts, k)
  {
    var c := if k in cands then cands[k] else counts[k].cand.value;
    if k in counts then c.(contentDensity := Density(counts[k].count)) else c
  }

  /** Matches set the density of the candidate under their key, or add one. */
  ghost predicate HasContent(cands: Cands, counts: map<string, Matches>, out: Cands) {
    && (forall k :: k in out <==> Shows(cands, counts, k))
    && (forall k :: k in out ==> out[k] == WithContent(cands, counts, k))
  }

  /** One entry of the counts. */
  function MergeOne(out: Cands, k: string, m: Matches): Cands {
    if k in out then out[k := out[k].(contentDensity := Density(m.count))]
    else if m.cand.None? then out
    else out[k := m.cand.value.(contentDensity := Density(m.count))]
  }

  lemma MergedContent(cands: Cands, counts: map<string, Matches>, out: Cands, k: string, m: Matches)
    requires HasContent(cands, counts, out) && k !in counts
    ensures HasContent(cands, counts[k := m], MergeOne(out, k, m))
  {
    hide Density;
    var more := counts[k := m];
    forall j ensures Shows(cands, more, j) <==> if j == k then k in cands || m.cand.Some? else Shows(cands, counts, j) {
    }
    assert k in out <==> k in cands;
  }

  lemma NoContent(cands: Cands)
    ensures HasContent(cands, map[], cands)
  {
  }

  method ContentCandidates(counts: map<string, Matches>, cands: Cands) returns (out: Cands)
    ensures HasContent(cands, counts, out)
  {
    hide HasContent, Density;
    out := cands;
    NoContent(cands);
    var todo := counts.Keys;
    ghost var done: map<string, Matches> := map[];
    while todo != {}
      invariant todo + done.Keys == counts.Keys && todo * done.Keys == {} && (forall k :: k in done ==> done[k] == counts[k])
      invariant HasContent(cands, done, out)
      decreases |todo|
    {
      var k :| k in todo;
      var m := counts[k];
      MergedContent(cands, done, out, k, m);
      todo, done := todo - {k}, done[k := m];
      if k in out {
        out := out[k := out[k].(contentDensity := Density(m.count))];
        continue;
      }
      if m.cand.None? {
        continue;
      }
      out := out[k := m.cand.value.(contentDensity := Density(m.count))];
    }
    assert done == counts;
  }

  /** What the embedder, the store and the content search answer. No counts: there is no content search. */
  datatype Sources =
    | Semantic(symHits: seq<Neighbour>, fileHits: seq<Neighbour>, rescue: FtsHits)
    | Keyword(hits: FtsHits, counts: Option<map<string, Matches>>)

  /** A candidate made from its rows alone. */
  predicate FromRow(c: Cand) {
    !c.hasVector && c.vectorScore == 0.0 && c.contentDensity == 0.0
  }

  ghost predicate AllFromRows(hits: FtsHits) {
    forall i :: 0 <= i < |hits| && hits[i].Some? ==> FromRow(hits[i].value)
  }

  /** The store's candidates come from their rows; the searches add the rest. */
  ghost predicate FromRows(src: Sources) {
    match src
    case Semantic(syms, files, rescue) => AllFromRows(rescue)
    case Keyword(hits, None) => AllFromRows(hits)
    case Keyword(hits, Some(counts)) => AllFromRows(hits) && forall k :: k in counts && counts[k].cand.Some? ==> FromRow(counts[k].cand.value)
  }

  ghost predicate Gathers(src: Sources, cands: Cands) {
    match src
    case Semantic(syms, files, rescue) => cands == Rescued(Nearest(Nearest(map[], syms), files), rescue)
    case Keyword(hits, None) => cands == Rescued(map[], hits)
    case Keyword(hits, Some(counts)) => HasContent(Rescued(map[], hits), counts, cands)
  }

  method Gather(src: Sources) returns (cands: Cands)
    ensures Gathers(src, cands)
  {
    hide Rescued, Nearest, HasContent;
    match src
    case Semantic(syms, files, rescue) =>
      cands := SemanticCandidates(syms, files, rescue);
    case Keyword(hits, counts) =>
      cands := MetadataCandidates(hits, map[]);
      if counts.Some? {
        cands := ContentCandidates(counts.value, cands);
      }
  }

  ghost predicate UnitVectors(cands: Cands) {
    forall k :: k in cands ==> 0.0 <= cands[k].vectorScore <= 1.0
  }

  lemma RescuedRows(hits: FtsHits)
    requires AllFromRows(hits)
    ensures UnitVectors(Rescued(map[], hits))
  {
    hide Rescued;
    forall k | k in Rescued(map[], hits) ensures 0.0 <= Rescued(map[], hits)[k].vectorScore <= 1.0 {
      RescueKeeps(map[], hits, k);
      var i :| 0 <= i < |hits| && hits[i] == Some(Rescued(map[], hits)[k]);
      assert FromRow(hits[i].value);
    }
  }

  lemma GatheredInUnit(src: Sources, cands: Cands)
    requires FromRows(src) && Gathers(src, cands)
    ensures UnitVectors(cands)
  {
    hide Rescued, Nearest;
    match src
    case Semantic(syms, files, rescue) =>
      forall k | k in cands ensures 0.0 <= cands[k].vectorScore <= 1.0 {
        VectorScoresInUnit(syms, files, rescue, k);
      }
    case Keyword(hits, _) =>
      RescuedRows(hits);
  }

  lemma RankedInUnit(tokens: seq<string>, semantic: bool, cands: Cands, limit: nat, hits: seq<Hit>)
    requires UnitVectors(cands) && IsRanking(tokens, semantic, cands, limit, hits)
    ensures forall h :: h in hits ==> 0.0 <= h.score <= 1.0
  {
    var ks, all :| Ranges(cands, ks) && IsCutOf(HitsAlong(tokens, semantic, cands, ks), all, limit, hits);
    hide ToHit, HitLeq;
    PermutationMembers(all, HitsAlong(tokens, semantic, cands, ks));
    forall h | h in hits ensures 0.0 <= h.score <= 1.0 {
      assert h in HitsAlong(tokens, semantic, cands, ks);
      var i :| 0 <= i < |ks| && HitsAlong(tokens, semantic, cands, ks)[i] == h;
      assert ks[i] in ks;
      HitInUnit(tokens, semantic, cands[ks[i]]);
    }
  }

  const DEFAULT_LIMIT := 15

  function LimitOf(limit: int): nat {
    if limit <= 0 then DEFAULT_LIMIT else limit
  }

  /** The hits are the top of a ranking of what was gathered, with no file beside a symbol of its path. */
  ghost predicate Answers(text: string, src: Sources, limit: nat, hits: seq<Hit>) {
    exists cands, folded ::
      Gathers(src, cands) && IsFolded(cands, folded) && IsRanking(Tokens(text), src.Semantic?, folded, limit, hits)
  }

  /** The first hit does not stand behind the second: by score, then by name, then by path. */
  ghost predicate InOrder(g: Hit, h: Hit) {
    || g.score > h.score
    || (g.score == h.score && g.cand.name != h.cand.name && StringLeq(g.cand.name, h.cand.name))
    || (g.score == h.score && g.cand.name == h.cand.name && StringLeq(g.cand.path, h.cand.path))
  }

  /** Every answer is ordered and no longer than asked. */
  lemma AnswerOrdered(text: string, src: Sources, limit: nat, hits: seq<Hit>)
    requires Answers(text, src, limit, hits)
    ensures |hits| <= limit
    ensures forall i, j :: 0 <= i < j < |hits| ==> hits[i].score >= hits[j].score && InOrder(hits[i], hits[j])
  {
    var cands, folded :| Gathers(src, cands) && IsFolded(cands, folded) && IsRanking(Tokens(text), src.Semantic?, folded, limit, hits);
    hide *;
    TopOfRanking(Tokens(text), src.Semantic?, folded, limit, hits);
    SortedInOrder(hits);
  }

  lemma SortedInOrder(hits: seq<Hit>)
    requires Sorted(hits, HitLeq)
    ensures forall i, j :: 0 <= i < j < |hits| ==> hits[i].score >= hits[j].score && InOrder(hits[i], hits[j])
  {
    hide StringLeq;
  }

  /** The code section of a search. A query without a word character is a usage error; otherwise every score
      returned lies in [0, 1], whatever distances and counts came back. */
  method SearchCode(text: string, src: Sources, limit: int) returns (r: Option<seq<Hit>>)
    requires FromRows(src)
    ensures r.None? <==> forall i :: 0 <= i < |text| ==> !IsWordChar(text[i])
    ensures r.Some? ==> Answers(text, src, LimitOf(limit), r.value)
    ensures r.Some? ==> forall h :: h in r.value ==> 0.0 <= h.score <= 1.0
    ensures r.Some? ==> |r.value| <= if limit <= 0 then 15 else limit
    ensures r.Some? ==> forall i, j :: 0 <= i < j < |r.value| ==> InOrder(r.value[i], r.value[j])
  {
    NoTokens(text);
    assert LimitOf(limit) == if limit <= 0 then 15 else limit;
    hide *;
    var tokens := Tokenize(text);
    if |tokens| == 0 {
      return None;
    }
    var cands := Gather(src);
    GatheredInUnit(src, cands);
    var kept := FoldFileHits(cands);
    FoldedInUnit(cands, kept);
    var hits := RankHits(tokens, src.Semantic?, kept, LimitOf(limit));
    RankedInUnit(tokens, src.Semantic?, kept, LimitOf(limit), hits);
    AnswersBy(text, src, LimitOf(limit), cands, kept, hits);
    AnswerOrdered(text, src, LimitOf(limit), hits);
    r := Some(hits);
  }

  lemma FoldedInUnit(cands: Cands, kept: Cands)
    requires UnitVectors(cands) && IsFolded(cands, kept)
    ensures UnitVectors(kept)
  {
    hide Folds;
  }

  lemma AnswersBy(text: string, src: Sources, limit: nat, cands: Cands, kept: Cands, hits: seq<Hit>)
    requires Gathers(src, cands) && IsFolded(cands, kept) && IsRanking(Tokens(text), src.Semantic?, kept, limit, hits)
    ensures Answers(text, src, limit, hits)
  {
  }

  // ---- memories ----

  datatype MemCand = MemCand(id: Id, score: real, byVector: bool)

  const FTS_MEMORY_SCORE := 0.6

  /** Neighbours first, then the full-text ids not seen yet. */
  function ByText(base: seq<MemCand>, ids: seq<Id>): seq<MemCand> {
    if ids == [] then base
    else
      var cs, id := ByText(base, ids[..|ids| - 1]), ids[|ids| - 1];
      if id in IdsOf(cs) then cs else cs + [MemCand(id, FTS_MEMORY_SCORE, false)]
  }

  function IdsOf(cs: seq<MemCand>): set<Id> {
    set c | c in cs :: c.id
  }

  function ByVector(hits: seq<(Id, real)>): seq<MemCand> {
    seq(|hits|, i requires 0 <= i < |hits| => MemCand(hits[i].0, Round(Clamp01(1.0 - hits[i].1)), true))
  }

  predicate MemLeq(a: MemCand, b: MemCand) {
    a.score >= b.score
  }

  method MemoryCandidates(hits: seq<(Id, real)>, ids: seq<Id>, semantic: bool) returns (cands: seq<MemCand>)
    ensures cands == Sort(ByText(if semantic then ByVector(hits) else [], ids), MemLeq)
  {
    var seen: set<Id> := {};
    cands := [];
    if semantic {
      var i := 0;
      while i < |hits|
        invariant 0 <= i <= |hits|
        invariant cands == ByVector(hits[..i]) && seen == IdsOf(cands)
      {
        seen := seen + {hits[i].0};
        cands := cands + [MemCand(hits[i].0, Round(Clamp01(1.0 - hits[i].1)), true)];
        i := i + 1;
      }
      assert hits[..i] == hits;
    }
    ghost var base := cands;
    hide ByVector;
    var i := 0;
    while i < |ids|
      invariant 0 <= i <= |ids|
      invariant cands == ByText(base, ids[..i]) && seen == IdsOf(cands)
    {
      assert ids[..i + 1][..i] == ids[..i];
      var id := ids[i];
      i := i + 1;
      if id in seen {
        continue;
      }
      seen := seen + {id};
      cands := cands + [MemCand(id, FTS_MEMORY_SCORE, false)];
    }
    assert ids[..i] == ids;
    cands := Sort(cands, MemLeq);
  }

  /** The list goes on with memories found by text only, each once. */
  ghost predicate Continues(base: seq<MemCand>, cs: seq<MemCand>) {
    && base <= cs
    && Distinct(Map(cs[|base|..], MemIdOf))
    && forall i :: |base| <= i < |cs| ==> cs[i] == MemCand(cs[i].id, FTS_MEMORY_SCORE, false) && cs[i].id !in IdsOf(base)
  }

  lemma ContinuesSnoc(base: seq<MemCand>, cs: seq<MemCand>, id: Id)
    requires Continues(base, cs) && id !in IdsOf(cs)
    ensures Continues(base, cs + [MemCand(id, FTS_MEMORY_SCORE, false)])
  {
    var c := MemCand(id, FTS_MEMORY_SCORE, false);
    var all, tail := cs + [c], cs[|base|..];
    assert all[|base|..] == tail + [c];
    assert Map(all[|base|..], MemIdOf) == Map(tail, MemIdOf) + [id];
    forall i | 0 <= i < |tail| ensures Map(tail, MemIdOf)[i] != id {
      assert tail[i] == cs[|base| + i] && cs[|base| + i] in cs;
    }
    forall b | b in base ensures b.id != id {
      assert b in cs;
    }
  }

  lemma {:induction false} ByTextIs(base: seq<MemCand>, ids: seq<Id>)
    ensures IdsOf(ByText(base, ids)) == IdsOf(base) + set id | id in ids
    ensures Continues(base, ByText(base, ids))
  {
    if ids == [] {
      assert base[|base|..] == [];
    } else {
      var init, id := ids[..|ids| - 1], ids[|ids| - 1];
      ByTextIs(base, init);
      assert ids == init + [id];
      var cs := ByText(base, init);
      hide Continues;
      if id !in IdsOf(cs) {
        ContinuesSnoc(base, cs, id);
        assert IdsOf(cs + [MemCand(id, FTS_MEMORY_SCORE, false)]) == IdsOf(cs) + {id};
      }
    }
  }

  function MemIdOf(c: MemCand): Id {
    c.id
  }

  lemma MemOrder()
    ensures TotalPreorder(MemLeq)
  {
  }

  /** Every memory that either source found is ranked, best first; one found only by text appears once, at 0.6. */
  lemma MemoriesRanked(hits: seq<(Id, real)>, ids: seq<Id>, semantic: bool)
    ensures var base, cs := if semantic then ByVector(hits) else [], Sort(ByText(if semantic then ByVector(hits) else [], ids), MemLeq);
            && Sorted(cs, MemLeq)
            && IdsOf(cs) == IdsOf(base) + (set id | id in ids)
            && forall c :: c in cs && c.id !in IdsOf(base) ==> c == MemCand(c.id, FTS_MEMORY_SCORE, false) && multiset(cs)[c] == 1
  {
    var base := if semantic then ByVector(hits) else [];
    var text := ByText(base, ids);
    var cs := Sort(text, MemLeq);
    ByTextIs(base, ids);
    MemOrder();
    SortSorted(text, MemLeq);
    SortPermutes(text, MemLeq);
    PermutationMembers(cs, text);
    hide ByText, ByVector, MemLeq, Sort, Continues;
    forall c | c in cs && c.id !in IdsOf(base) ensures c == MemCand(c.id, FTS_MEMORY_SCORE, false) && multiset(cs)[c] == 1 {
      TextOnce(base, text, c);
    }
  }

  lemma TextOnce(base: seq<MemCand>, text: seq<MemCand>, c: MemCand)
    requires Continues(base, text) && c in text && c.id !in IdsOf(base)
    ensures c == MemCand(c.id, FTS_MEMORY_SCORE, false) && multiset(text)[c] == 1
  {
    var tail := text[|base|..];
    assert text == base + tail;
    assert c !in base;
    assert c in tail;
    assert Distinct(tail) by {
      forall i, j | 0 <= i < j < |tail| ensures tail[i] != tail[j] {
        assert Map(tail, MemIdOf)[i] != Map(tail, MemIdOf)[j];
      }
    }
    DistinctCount(tail, c);
    assert multiset(text)[c] == multiset(base)[c] + multiset(tail)[c];
  }
}
