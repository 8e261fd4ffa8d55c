/** What the answers of a search say about distances, names and roles. */
module SearchTheorems {
  import opened Base
  import opened Sorting
  import opened Text
  import opened Lists
  import opened Digests
  import opened Ranking
  import opened Search

  // ---- neighbours ----

  /** The last neighbour under its key. */
  ghost predicate Latest(all: seq<Neighbour>, i: int) {
    && 0 <= i < |all| && all[i].cand.Some?
    && forall j :: i < j < |all| && all[j].cand.Some? ==> KeyOf(all[j].cand.value) != KeyOf(all[i].cand.value)
  }

  lemma {:induction false} NearestConcat(cands: Cands, a: seq<Neighbour>, b: seq<Neighbour>)
    ensures Nearest(Nearest(cands, a), b) == Nearest(cands, a + b)
  {
    hide KeyOf, WithVector;
    if b == [] {
      assert a + b == a;
    } else {
      var n := |b| - 1;
      NearestConcat(cands, a, b[..n]);
      assert (a + b)[..|a + b| - 1] == a + b[..n] && (a + b)[|a + b| - 1] == b[n];
    }
  }

  lemma {:induction false} LatestHeld(cands: Cands, all: seq<Neighbour>, i: int)
    requires Latest(all, i)
    ensures var k := KeyOf(all[i].cand.value);
            k in Nearest(cands, all) && Nearest(cands, all)[k] == WithVector(all[i].cand.value, all[i].distance)
  {
    hide KeyOf, WithVector;
    if i < |all| - 1 {
      assert all[..|all| - 1][i] == all[i];
      LatestHeld(cands, all[..|all| - 1], i);
    }
  }

  /** What a neighbour's distance does: nothing but its vector score depends on it. */
  ghost predicate Scored(c: Cand, n: Neighbour)
    requires n.cand.Some?
  {
    && c.grain == n.cand.value.grain && c.kind == n.cand.value.kind && c.container == n.cand.value.container
    && c.pkg == n.cand.value.pkg && SignalsOf(c) == SignalsOf(n.cand.value)
    && c.hasVector
    && (n.distance <= 0.0 ==> c.vectorScore == 1.0)
    && (0.0 <= n.distance <= 1.0 ==> c.vectorScore == 1.0 - n.distance)
    && (1.0 <= n.distance ==> c.vectorScore == 0.0)
  }

  /** In a semantic search the candidate under the key of a neighbour has the score of the last neighbour under that key:
      1 at distance 0, 0 from distance 1 on, and in between one minus the distance. */
  lemma DistanceIsScore(syms: seq<Neighbour>, files: seq<Neighbour>, rescue: FtsHits, cands: Cands, i: int)
    requires Gathers(Semantic(syms, files, rescue), cands) && Latest(syms + files, i)
    ensures var n := (syms + files)[i]; KeyOf(n.cand.value) in cands && Scored(cands[KeyOf(n.cand.value)], n)
  {
    hide KeyOf;
    NearestConcat(map[], syms, files);
    LatestHeld(map[], syms + files, i);
    RescueKeeps(Nearest(map[], syms + files), rescue, KeyOf((syms + files)[i].cand.value));
    hide Nearest, Rescued;
  }

  /** The key of every gathered candidate is its own. */
  lemma GatheredKeys(syms: seq<Neighbour>, files: seq<Neighbour>, rescue: FtsHits, cands: Cands, k: string)
    requires Gathers(Semantic(syms, files, rescue), cands) && k in cands
    ensures KeyOf(cands[k]) == k
  {
    NearestConcat(map[], syms, files);
    NearestMembers(map[], syms + files, k);
    RescueKeeps(Nearest(map[], syms + files), rescue, k);
    hide Nearest, Rescued, CandKey;
  }

  // ---- hits ----

  lemma RankedHit(tokens: seq<string>, semantic: bool, cands: Cands, limit: nat, hits: seq<Hit>, h: Hit)
    requires IsRanking(tokens, semantic, cands, limit, hits) && h in hits
    ensures exists k :: k in cands && h == ToHit(tokens, semantic, cands[k])
  {
    hide ToHit, HitLeq, Sorted;
    var ks, all :| Ranges(cands, ks) && IsCutOf(HitsAlong(tokens, semantic, cands, ks), all, limit, hits);
    PermutationMembers(all, HitsAlong(tokens, semantic, cands, ks));
    assert h in HitsAlong(tokens, semantic, cands, ks);
    var i :| 0 <= i < |ks| && HitsAlong(tokens, semantic, cands, ks)[i] == h;
    assert ks[i] in ks;
  }

  /** The hit of a neighbour's key. */
  lemma NeighbourHit(text: string, syms: seq<Neighbour>, files: seq<Neighbour>, rescue: FtsHits, limit: nat, hits: seq<Hit>, i: int, h: Hit)
    requires Answers(text, Semantic(syms, files, rescue), limit, hits) && Latest(syms + files, i) && h in hits
    requires KeyOf(h.cand) == KeyOf((syms + files)[i].cand.value)
    ensures Scored(h.cand, (syms + files)[i])
    ensures h == ToHit(Tokens(text), true, h.cand)
  {
    var src := Semantic(syms, files, rescue);
    var cands, folded :| Gathers(src, cands) && IsFolded(cands, folded) && IsRanking(Tokens(text), src.Semantic?, folded, limit, hits);
    hide *;
    RankedHit(Tokens(text), true, folded, limit, hits, h);
    var k :| k in folded && h == ToHit(Tokens(text), true, folded[k]);
    FoldedIs(cands, folded, k);
    ToHitCand(Tokens(text), true, folded[k]);
    GatheredKeys(syms, files, rescue, cands, k);
    DistanceIsScore(syms, files, rescue, cands, i);
  }

  lemma FoldedIs(cands: Cands, folded: Cands, k: string)
    requires IsFolded(cands, folded) && k in folded
    ensures k in cands && cands[k] == folded[k]
  {
  }

  lemma ToHitCand(tokens: seq<string>, semantic: bool, c: Cand)
    ensures ToHit(tokens, semantic, c).cand == c
  {
    hide Score, Round;
  }

  /** Rounding keeps apart what differs by a unit of the last place. */
  lemma RoundApart(a: real, b: real)
    requires 0.0 <= a && a + 1.0 / 10000.0 <= b
    ensures Round(a) < Round(b)
  {
    FloorMonotone(a * 10000.0 + 0.5 + 1.0, b * 10000.0 + 0.5);
    assert (a * 10000.0 + 0.5 + 1.0).Floor == (a * 10000.0 + 0.5).Floor + 1;
  }

  lemma NearerScores(tokens: seq<string>, c: Cand, d: Cand)
    requires SignalsOf(c) == SignalsOf(d) && 0.0 <= d.vectorScore <= c.vectorScore <= 1.0
    ensures ToHit(tokens, true, c).score >= ToHit(tokens, true, d).score
    ensures c.vectorScore - d.vectorScore >= 1.0 / 7000.0 ==> ToHit(tokens, true, c).score > ToHit(tokens, true, d).score
  {
    ScoreInUnit(tokens, SignalsOf(c));
    hide Score, Round, Tokens;
    var heur := Score(tokens, SignalsOf(c));
    var a, b := Blend(true, d.vectorScore, heur), Blend(true, c.vectorScore, heur);
    RoundMonotone(a, b);
    if c.vectorScore - d.vectorScore >= 1.0 / 7000.0 {
      RoundApart(a, b);
    }
  }

  /** Of two neighbours with the same signals the nearer never scores less in the answer, and more when they are at least
      a seven-thousandth apart; so it is returned first. */
  lemma NearerLeads(text: string, syms: seq<Neighbour>, files: seq<Neighbour>, rescue: FtsHits, limit: nat, hits: seq<Hit>,
                    i: int, j: int, p: nat, q: nat)
    requires Answers(text, Semantic(syms, files, rescue), limit, hits) && Latest(syms + files, i) && Latest(syms + files, j)
    requires p < |hits| && KeyOf(hits[p].cand) == KeyOf((syms + files)[i].cand.value)
    requires q < |hits| && KeyOf(hits[q].cand) == KeyOf((syms + files)[j].cand.value)
    requires SignalsOf((syms + files)[i].cand.value) == SignalsOf((syms + files)[j].cand.value)
    requires 0.0 <= (syms + files)[i].distance <= (syms + files)[j].distance <= 1.0
    ensures hits[p].score >= hits[q].score
    ensures (syms + files)[j].distance - (syms + files)[i].distance >= 1.0 / 7000.0 ==> hits[p].score > hits[q].score && p < q
  {
    assert (syms + files)[i].cand.Some? && (syms + files)[j].cand.Some?;
    hide *;
    NeighbourHit(text, syms, files, rescue, limit, hits, i, hits[p]);
    NeighbourHit(text, syms, files, rescue, limit, hits, j, hits[q]);
    ScoredApart(hits[p].cand, hits[q].cand, (syms + files)[i], (syms + files)[j]);
    NearerScores(Tokens(text), hits[p].cand, hits[q].cand);
    AnswerOrdered(text, Semantic(syms, files, rescue), limit, hits);
  }

  lemma ScoredApart(c: Cand, d: Cand, m: Neighbour, n: Neighbour)
    requires m.cand.Some? && n.cand.Some? && Scored(c, m) && Scored(d, n) && 0.0 <= m.distance <= n.distance <= 1.0
    requires SignalsOf(m.cand.value) == SignalsOf(n.cand.value)
    ensures SignalsOf(c) == SignalsOf(d) && 0.0 <= d.vectorScore <= c.vectorScore <= 1.0
    ensures c.vectorScore - d.vectorScore == n.distance - m.distance
  {
    hide SignalsOf;
  }

  /** What is gathered is returned, or does not score more than anything returned. */
  lemma ReturnedOrCut(tokens: seq<string>, semantic: bool, cands: Cands, limit: nat, hits: seq<Hit>, k: string, g: Hit)
    requires IsRanking(tokens, semantic, cands, limit, hits) && k in cands && g in hits
    ensures ToHit(tokens, semantic, cands[k]) in hits || g.score >= ToHit(tokens, semantic, cands[k]).score
  {
    var ks, all :| Ranges(cands, ks) && IsCutOf(HitsAlong(tokens, semantic, cands, ks), all, limit, hits);
    var met := HitsAlong(tokens, semantic, cands, ks);
    hide ToHit, HitsAlong, IsCutOf, HitLeq;
    HitAlong(tokens, semantic, cands, ks, k);
    CutIsTop(met, all, limit, hits);
    var h, rest := ToHit(tokens, semantic, cands[k]), all[|hits|..];
    assert h in multiset(met) && h in multiset(hits + rest);
    assert h in hits || h in rest;
    ScoreOrder(g, h);
  }

  lemma HitAlong(tokens: seq<string>, semantic: bool, cands: Cands, ks: seq<string>, k: string)
    requires Ranges(cands, ks) && k in cands
    ensures ToHit(tokens, semantic, cands[k]) in HitsAlong(tokens, semantic, cands, ks)
  {
    hide ToHit;
    var i :| 0 <= i < |ks| && ks[i] == k;
    assert HitsAlong(tokens, semantic, cands, ks)[i] == ToHit(tokens, semantic, cands[k]);
  }

  lemma ScoreOrder(g: Hit, h: Hit)
    ensures HitLeq(g, h) ==> g.score >= h.score
  {
    hide StringLeq;
  }

  /** So when a neighbour is returned, so is every symbol with the same signals that is nearer by that much. */
  lemma NearerIsReturned(text: string, syms: seq<Neighbour>, files: seq<Neighbour>, rescue: FtsHits, limit: nat, hits: seq<Hit>,
                         i: int, j: int, q: nat)
    requires Answers(text, Semantic(syms, files, rescue), limit, hits) && Latest(syms + files, i) && Latest(syms + files, j)
    requires (syms + files)[i].cand.value.grain == SymbolHit
    requires q < |hits| && KeyOf(hits[q].cand) == KeyOf((syms + files)[j].cand.value)
    requires SignalsOf((syms + files)[i].cand.value) == SignalsOf((syms + files)[j].cand.value)
    requires 0.0 <= (syms + files)[i].distance && (syms + files)[i].distance + 1.0 / 7000.0 <= (syms + files)[j].distance <= 1.0
    ensures exists p :: 0 <= p < q && KeyOf(hits[p].cand) == KeyOf((syms + files)[i].cand.value)
  {
    var src, n := Semantic(syms, files, rescue), (syms + files)[i];
    assert n.cand.Some? && (syms + files)[j].cand.Some?;
    var cands, folded :| Gathers(src, cands) && IsFolded(cands, folded) && IsRanking(Tokens(text), src.Semantic?, folded, limit, hits);
    var k := KeyOf(n.cand.value);
    hide *;
    DistanceIsScore(syms, files, rescue, cands, i);
    ScoredGrain(cands[k], n);
    SymbolStays(cands, folded, k);
    NeighbourHit(text, syms, files, rescue, limit, hits, j, hits[q]);
    ScoredApart(folded[k], hits[q].cand, n, (syms + files)[j]);
    NearerScores(Tokens(text), folded[k], hits[q].cand);
    ReturnedOrCut(Tokens(text), true, folded, limit, hits, k, hits[q]);
    var p :| 0 <= p < |hits| && hits[p] == ToHit(Tokens(text), true, folded[k]);
    ToHitCand(Tokens(text), true, folded[k]);
    GatheredKeys(syms, files, rescue, cands, k);
    NearerLeads(text, syms, files, rescue, limit, hits, i, j, p, q);
  }

  lemma ScoredGrain(c: Cand, n: Neighbour)
    requires n.cand.Some? && Scored(c, n)
    ensures c.grain == n.cand.value.grain
  {
  }

  lemma SymbolStays(cands: Cands, folded: Cands, k: string)
    requires IsFolded(cands, folded) && k in cands && cands[k].grain == SymbolHit
    ensures k in folded && folded[k] == cands[k]
  {
  }

  // ---- what else the score is made of ----

  /** The score in numbers. */
  lemma ScoreNumbers(tokens: seq<string>, s: Signals)
    ensures Score(tokens, s) ==
      0.45 * NameMatch(tokens, s.name) + 0.13 * TokenCoverage(tokens, s.path) + 0.12 * TokenCoverage(tokens, s.signature)
      + 0.1 * Clamp01(s.contentDensity) + 0.1 * Centrality(s) + 0.05 * RoleWeight(s.role) + if s.hasMemory then 0.05 else 0.0
  {
    ScoreIs(tokens, s);
    hide Score, NameMatch, TokenCoverage, Clamp01, Centrality, RoleWeight;
  }

  /** A name that is the query or one of its words. */
  ghost predicate ExactName(tokens: seq<string>, name: string) {
    name != "" && tokens != [] && (ToLower(name) == Join(tokens, "") || exists i :: 0 <= i < |tokens| && ToLower(name) == tokens[i])
  }

  /** A name that a word of the query begins. */
  ghost predicate PrefixName(tokens: seq<string>, name: string) {
    name != "" && exists i :: 0 <= i < |tokens| && HasPrefix(ToLower(name), tokens[i])
  }

  /** A name that holds a word of the query. */
  ghost predicate PartName(tokens: seq<string>, name: string) {
    name != "" && exists i :: 0 <= i < |tokens| && Contains(ToLower(name), tokens[i])
  }

  lemma NameValues(tokens: seq<string>, name: string)
    ensures ExactName(tokens, name) ==> NameMatch(tokens, name) == 1.0
    ensures !ExactName(tokens, name) && PrefixName(tokens, name) ==> NameMatch(tokens, name) == 0.7
    ensures !ExactName(tokens, name) && !PrefixName(tokens, name) && PartName(tokens, name) ==> NameMatch(tokens, name) == 0.4
    ensures !ExactName(tokens, name) && !PrefixName(tokens, name) && !PartName(tokens, name) ==> NameMatch(tokens, name) == 0.0
  {
    hide ToLower, Join, HasPrefix, Contains;
  }

  /** Without content matches a keyword hit whose name is the query, or a word of it, outranks every hit whose name holds
      no word of it, whatever else is known about the two. */
  lemma ExactNameLeads(tokens: seq<string>, c: Cand, d: Cand)
    requires c.contentDensity == 0.0 && d.contentDensity == 0.0
    requires ExactName(tokens, c.name) && !ExactName(tokens, d.name) && !PrefixName(tokens, d.name) && !PartName(tokens, d.name)
    ensures ToHit(tokens, false, c).score > ToHit(tokens, false, d).score
  {
    var s, t := SignalsOf(c), SignalsOf(d);
    ScoreNumbers(tokens, s);
    ScoreNumbers(tokens, t);
    NameValues(tokens, c.name);
    NameValues(tokens, d.name);
    CoverageInUnit(tokens, s.path);
    CoverageInUnit(tokens, s.signature);
    CoverageInUnit(tokens, t.path);
    CoverageInUnit(tokens, t.signature);
    UnitParts(s);
    UnitParts(t);
    hide Score, NameMatch, TokenCoverage, Centrality, RoleWeight, ExactName, PrefixName, PartName, Round;
    RoundApart(Score(tokens, t), Score(tokens, s));
  }

  lemma UnitParts(s: Signals)
    ensures 0.0 <= Centrality(s) <= 1.0 && 0.4 <= RoleWeight(s.role) <= 1.0
  {
  }

  /** So it stands before them in the answer of a search without content matches. */
  lemma ExactNameFirst(text: string, rows: FtsHits, limit: nat, hits: seq<Hit>, p: nat, q: nat)
    requires AllFromRows(rows) && Answers(text, Keyword(rows, None), limit, hits) && p < |hits| && q < |hits|
    requires ExactName(Tokens(text), hits[p].cand.name)
    requires !ExactName(Tokens(text), hits[q].cand.name) && !PrefixName(Tokens(text), hits[q].cand.name) && !PartName(Tokens(text), hits[q].cand.name)
    ensures p < q
  {
    hide *;
    KeywordHit(text, rows, limit, hits, hits[p]);
    KeywordHit(text, rows, limit, hits, hits[q]);
    ExactNameLeads(Tokens(text), hits[p].cand, hits[q].cand);
    AnswerOrdered(text, Keyword(rows, None), limit, hits);
  }

  lemma KeywordHit(text: string, rows: FtsHits, limit: nat, hits: seq<Hit>, h: Hit)
    requires AllFromRows(rows) && Answers(text, Keyword(rows, None), limit, hits) && h in hits
    ensures h == ToHit(Tokens(text), false, h.cand) && h.cand.contentDensity == 0.0
  {
    var src := Keyword(rows, None);
    var cands, folded :| Gathers(src, cands) && IsFolded(cands, folded) && IsRanking(Tokens(text), src.Semantic?, folded, limit, hits);
    assert cands == Rescued(map[], rows);
    hide *;
    RankedHit(Tokens(text), false, folded, limit, hits, h);
    var k :| k in folded && h == ToHit(Tokens(text), false, folded[k]);
    FoldedIs(cands, folded, k);
    ToHitCand(Tokens(text), false, folded[k]);
    RescueKeeps(map[], rows, k);
    RowsPlain(rows, folded[k]);
  }

  lemma RowsPlain(rows: FtsHits, c: Cand)
    requires AllFromRows(rows) && Some(c) in rows
    ensures c.contentDensity == 0.0
  {
    var i :| 0 <= i < |rows| && rows[i] == Some(c);
  }

  /** Other things being equal, a hit scores more for an exact name than for a prefix, for a prefix than for a part, and for
      a part than for no match, in both modes. */
  lemma BetterName(tokens: seq<string>, semantic: bool, c: Cand, d: Cand)
    requires SignalsOf(c).(name := d.name) == SignalsOf(d) && 0.0 <= c.vectorScore && c.vectorScore == d.vectorScore
    requires !ExactName(tokens, d.name) &&
             (|| ExactName(tokens, c.name)
              || (PrefixName(tokens, c.name) && !PrefixName(tokens, d.name))
              || (PartName(tokens, c.name) && !PrefixName(tokens, d.name) && !PartName(tokens, d.name)))
    ensures ToHit(tokens, semantic, c).score > ToHit(tokens, semantic, d).score
  {
    ScoreNumbers(tokens, SignalsOf(c));
    ScoreNumbers(tokens, SignalsOf(d));
    NameValues(tokens, c.name);
    NameValues(tokens, d.name);
    ScoreInUnit(tokens, SignalsOf(d));
    assert Centrality(SignalsOf(c)) == Centrality(SignalsOf(d));
    hide Score, NameMatch, TokenCoverage, Clamp01, Centrality, RoleWeight, ExactName, PrefixName, PartName, Round;
    HigherHeuristic(tokens, semantic, c, d);
  }

  lemma HigherHeuristic(tokens: seq<string>, semantic: bool, c: Cand, d: Cand)
    requires 0.0 <= c.vectorScore && c.vectorScore == d.vectorScore
    requires 0.0 <= Score(tokens, SignalsOf(d)) && Score(tokens, SignalsOf(d)) + 1.0 / 3000.0 <= Score(tokens, SignalsOf(c))
    ensures ToHit(tokens, semantic, c).score > ToHit(tokens, semantic, d).score
  {
    hide Score, Round, SignalsOf;
    RoundApart(Blend(semantic, d.vectorScore, Score(tokens, SignalsOf(d))), Blend(semantic, c.vectorScore, Score(tokens, SignalsOf(c))));
  }

  /** Other things being equal, implementation scores more than documents, documents more than tests. */
  lemma BetterRole(tokens: seq<string>, semantic: bool, c: Cand, d: Cand)
    requires SignalsOf(c).(role := d.role) == SignalsOf(d) && 0.0 <= c.vectorScore && c.vectorScore == d.vectorScore
    requires (c.role == "impl" && d.role != "impl") || (c.role == "doc" && d.role == "test")
    ensures ToHit(tokens, semantic, c).score > ToHit(tokens, semantic, d).score
  {
    ScoreNumbers(tokens, SignalsOf(c));
    ScoreNumbers(tokens, SignalsOf(d));
    ScoreInUnit(tokens, SignalsOf(d));
    assert RoleWeight(c.role) >= RoleWeight(d.role) + 0.2;
    assert Centrality(SignalsOf(c)) == Centrality(SignalsOf(d));
    hide Score, NameMatch, TokenCoverage, Clamp01, Centrality, RoleWeight, Round;
    HigherHeuristic(tokens, semantic, c, d);
  }

  /** Other things being equal, a candidate scores more with more importers, up to five, with tests where these do not
      reach five, with a memory, and with more content matches, up to three. */
  lemma BetterConnected(tokens: seq<string>, semantic: bool, c: Cand, d: Cand, m: nat, n: nat)
    requires 0.0 <= c.vectorScore && c.vectorScore == d.vectorScore
    requires c.contentDensity == Density(m) && d.contentDensity == Density(n)
    requires var s := SignalsOf(d);
             || (SignalsOf(c) == s.(importedByCount := c.importedByCount) && 0 <= d.importedByCount < 5 && d.importedByCount < c.importedByCount && !d.hasTests)
             || (SignalsOf(c) == s.(hasTests := true) && !d.hasTests && 0 <= d.importedByCount < 5)
             || (SignalsOf(c) == s.(hasMemory := true) && !d.hasMemory)
             || (SignalsOf(c) == s.(contentDensity := c.contentDensity) && n < 3 && n < m)
    ensures ToHit(tokens, semantic, c).score > ToHit(tokens, semantic, d).score
  {
    ScoreNumbers(tokens, SignalsOf(c));
    ScoreNumbers(tokens, SignalsOf(d));
    ScoreInUnit(tokens, SignalsOf(d));
    CentralityIs(SignalsOf(c));
    CentralityIs(SignalsOf(d));
    DensityIs(m);
    DensityIs(n);
    hide Score, NameMatch, TokenCoverage, Centrality, RoleWeight, Round, Density, Clamp01;
    var x, y := Centrality(SignalsOf(c)), Centrality(SignalsOf(d));
    assert y >= 0.0 && (c.hasTests == d.hasTests && c.importedByCount == d.importedByCount ==> x == y);
    assert c.hasTests == d.hasTests == false && 0 <= d.importedByCount < 5 && d.importedByCount < c.importedByCount ==> x >= y + 0.2;
    assert c.hasTests && !d.hasTests && c.importedByCount == d.importedByCount && 0 <= d.importedByCount < 5 ==> x >= y + 0.2;
    assert n < 3 && n < m ==> c.contentDensity >= d.contentDensity + 1.0 / 3.0;
    HigherHeuristic(tokens, semantic, c, d);
  }

  /** Fifths of the importers up to five, and three tenths for tests, up to one in all. */
  lemma CentralityIs(s: Signals)
    ensures var fifths := if s.importedByCount <= 0 then 0.0 else if s.importedByCount >= 5 then 1.0 else s.importedByCount as real / 5.0;
            Centrality(s) == if !s.hasTests then fifths else if fifths >= 0.7 then 1.0 else fifths + 0.3
  {
  }

  /** Thirds of the matches up to three. */
  lemma DensityIs(n: nat)
    ensures Density(n) == if n >= 3 then 1.0 else n as real / 3.0
    ensures Clamp01(Density(n)) == Density(n)
  {
  }

  // ---- memories ----

  /** What a memory search ranks. */
  function MemoryRanking(hits: seq<(Id, real)>, ids: seq<Id>): seq<MemCand> {
    Sort(ByText(ByVector(hits), ids), MemLeq)
  }

  /** The score of a neighbour at this distance, to four decimals. */
  ghost predicate ByDistance(c: MemCand, hit: (Id, real)) {
    && c.id == hit.0 && c.byVector
    && (hit.1 <= 0.0 ==> c.score == 1.0)
    && (0.0 <= hit.1 <= 1.0 ==> -1.0 / 20000.0 <= c.score - (1.0 - hit.1) <= 1.0 / 20000.0)
    && (1.0 <= hit.1 ==> c.score == 0.0)
  }

  ghost predicate FromHit(hits: seq<(Id, real)>, c: MemCand) {
    exists i :: 0 <= i < |hits| && ByDistance(c, hits[i])
  }

  lemma VectorByDistance(hits: seq<(Id, real)>, i: nat)
    requires i < |hits|
    ensures ByDistance(ByVector(hits)[i], hits[i])
  {
    RoundError(Clamp01(1.0 - hits[i].1));
    assert Round(0.0) == 0.0 && Round(1.0) == 1.0;
    hide Round;
  }

  /** Each neighbour is ranked by its distance, and each memory that only its text found scores 0.6. */
  lemma MemoriesScored(hits: seq<(Id, real)>, ids: seq<Id>)
    ensures forall i :: 0 <= i < |hits| ==> exists c :: c in MemoryRanking(hits, ids) && ByDistance(c, hits[i])
    ensures forall c :: c in MemoryRanking(hits, ids) ==>
      FromHit(hits, c) || (!c.byVector && c.score == 0.6 && c.id in ids && forall i :: 0 <= i < |hits| ==> hits[i].0 != c.id)
  {
    var base, text, r := ByVector(hits), ByText(ByVector(hits), ids), MemoryRanking(hits, ids);
    assert |base| == |hits|;
    RankingMembers(hits, ids);
    hide *;
    ByTextIs(base, ids);
    TextTail(base, text);
    forall i | 0 <= i < |hits| ensures exists c :: c in r && ByDistance(c, hits[i]) {
      VectorByDistance(hits, i);
      assert base[i] in base;
    }
    forall c | c in r
      ensures FromHit(hits, c) || (!c.byVector && c.score == 0.6 && c.id in ids && forall i :: 0 <= i < |hits| ==> hits[i].0 != c.id)
    {
      OneScored(hits, ids, base, text, c);
    }
  }

  lemma OneScored(hits: seq<(Id, real)>, ids: seq<Id>, base: seq<MemCand>, text: seq<MemCand>, c: MemCand)
    requires base == ByVector(hits) && c in text && IdsOf(text) == IdsOf(base) + set id | id in ids
    requires c in base || (c == MemCand(c.id, 0.6, false) && c.id !in IdsOf(base))
    ensures FromHit(hits, c) || (!c.byVector && c.score == 0.6 && c.id in ids && forall i :: 0 <= i < |hits| ==> hits[i].0 != c.id)
  {
    hide ByDistance, Round;
    if c in base {
      var i :| 0 <= i < |base| && base[i] == c;
      VectorByDistance(hits, i);
    } else {
      assert forall i :: 0 <= i < |hits| ==> base[i] in base && base[i].id == hits[i].0;
      assert c.id in IdsOf(text);
    }
  }

  lemma RankingMembers(hits: seq<(Id, real)>, ids: seq<Id>)
    ensures forall c :: c in MemoryRanking(hits, ids) <==> c in ByText(ByVector(hits), ids)
  {
    hide ByText, ByVector;
    SortPermutes(ByText(ByVector(hits), ids), MemLeq);
    hide Sort;
    PermutationMembers(MemoryRanking(hits, ids), ByText(ByVector(hits), ids));
  }

  lemma TextTail(base: seq<MemCand>, text: seq<MemCand>)
    requires Continues(base, text)
    ensures forall c :: c in base ==> c in text
    ensures forall c :: c in text ==> c in base || (c == MemCand(c.id, 0.6, false) && c.id !in IdsOf(base))
  {
    forall c | c in text ensures c in base || (c == MemCand(c.id, 0.6, false) && c.id !in IdsOf(base)) {
      var i :| 0 <= i < |text| && text[i] == c;
      if i < |base| {
        assert base[i] == c;
      }
    }
  }

  /** A memory stands before another that is further away by more than rounding can hide, before what only its text found
      when it is nearer than 0.3999, and behind that when it is farther than 0.4001. */
  lemma NearerMemoryFirst(hits: seq<(Id, real)>, ids: seq<Id>, i: nat, j: nat, p: nat, q: nat)
    requires p < |MemoryRanking(hits, ids)| && q < |MemoryRanking(hits, ids)|
    requires i < |hits| && ByDistance(MemoryRanking(hits, ids)[p], hits[i]) && 0.0 <= hits[i].1 <= 1.0
    ensures j < |hits| && ByDistance(MemoryRanking(hits, ids)[q], hits[j]) && hits[i].1 + 1.0 / 9999.0 <= hits[j].1 <= 1.0 ==> p < q
    ensures !MemoryRanking(hits, ids)[q].byVector && hits[i].1 <= 0.3999 ==> p < q
    ensures !MemoryRanking(hits, ids)[q].byVector && hits[i].1 >= 0.4001 ==> q < p
  {
    var r := MemoryRanking(hits, ids);
    hide *;
    MemoriesScored(hits, ids);
    BestFirst(hits, ids, p, q);
    BestFirst(hits, ids, q, p);
    assert r[q] in r;
    assert !r[q].byVector ==> r[q].score == 0.6 by { NotFromHit(hits, r[q]); }
    DistanceBounds(r[p], hits[i]);
    if j < |hits| && ByDistance(r[q], hits[j]) {
      DistanceBounds(r[q], hits[j]);
    }
  }

  lemma NotFromHit(hits: seq<(Id, real)>, c: MemCand)
    ensures FromHit(hits, c) ==> c.byVector
  {
  }

  lemma DistanceBounds(c: MemCand, hit: (Id, real))
    requires ByDistance(c, hit)
    ensures 0.0 <= hit.1 <= 1.0 ==> -1.0 / 20000.0 <= c.score - (1.0 - hit.1) <= 1.0 / 20000.0
  {
  }

  lemma BestFirst(hits: seq<(Id, real)>, ids: seq<Id>, p: nat, q: nat)
    ensures var r := MemoryRanking(hits, ids); p < q < |r| ==> r[p].score >= r[q].score
  {
    MemOrder();
    hide ByText, ByVector;
    SortSorted(ByText(ByVector(hits), ids), MemLeq);
    hide Sort;
  }

  /** The positions of the query's words that occur in the text. */
  ghost function Covered(tokens: seq<string>, text: string): set<int> {
    set i | 0 <= i < |tokens| && Contains(ToLower(text), tokens[i])
  }

  /** Paths and signatures score the fraction of the query's words they hold, in any case. */
  lemma CoverageIs(tokens: seq<string>, text: string)
    requires tokens != [] && text != ""
    ensures TokenCoverage(tokens, text) == |Covered(tokens, text)| as real / |tokens| as real
  {
    HitsCounted(tokens, text);
    hide ToLower, Contains;
  }

  lemma {:induction false} HitsCounted(tokens: seq<string>, text: string)
    ensures Hits(tokens, ToLower(text)) == |Covered(tokens, text)|
  {
    hide ToLower, Contains;
    if tokens == [] {
      assert Covered(tokens, text) == {};
    } else {
      var n := |tokens| - 1;
      HitsCounted(tokens[..n], text);
      assert Covered(tokens, text) == Covered(tokens[..n], text) + if Contains(ToLower(text), tokens[n]) then {n} else {};
    }
  }

  // ---- which candidates are one ----

  ghost predicate NulFree(c: Cand) {
    NUL !in c.path && NUL !in c.container && NUL !in c.name
  }

  /** Two candidates share a key exactly when both are symbols or both files, of one path and name, and as symbols of one
      container: methods of one name in two classes are two candidates. */
  lemma KeysTellApart(c: Cand, d: Cand)
    requires NulFree(c) && NulFree(d)
    ensures KeyOf(c) == KeyOf(d) <==>
      c.grain == d.grain && c.path == d.path && c.name == d.name && (c.grain == SymbolHit ==> c.container == d.container)
  {
    var x, y := if c.grain == SymbolHit then c.container else "", if d.grain == SymbolHit then d.container else "";
    assert NUL !in x && NUL !in y;
    if KeyOf(c) == KeyOf(d) {
      assert Free([c.path, x, c.name], NUL) && Free([d.path, y, d.name], NUL);
      CandKeyInjective(c.grain, c.path, x, c.name, d.grain, d.path, y, d.name);
    }
  }

  // ---- words and explanations ----

  lemma InLower(c: char)
    ensures 'a' <= c <= 'z' <==> c in LOWER
  {
    if 'a' <= c <= 'z' {
      assert LOWER[c as int - 'a' as int] == c;
    }
  }

  lemma InUpper(c: char)
    ensures 'A' <= c <= 'Z' <==> c in UPPER
  {
    if 'A' <= c <= 'Z' {
      assert UPPER[c as int - 'A' as int] == c;
    }
  }

  /** Words are made of letters and digits of ASCII and the underscore. */
  lemma WordCharacters(c: char)
    ensures IsWordChar(c) <==> c == '_' || c in LOWER || c in UPPER || c in "0123456789"
  {
    InLower(c);
    InUpper(c);
    if '0' <= c <= '9' {
      assert "0123456789"[c as int - '0' as int] == c;
    }
  }

  /** A hit is explained by its vector exactly when that makes the larger part of its score; a keyword hit never is. */
  lemma ExplainedByVector(tokens: seq<string>, c: Cand)
    ensures ToHit(tokens, true, c).leadsByVector <==> 0.7 * c.vectorScore > 0.3 * Score(tokens, SignalsOf(c))
    ensures !ToHit(tokens, false, c).leadsByVector
  {
    hide Score, Round;
  }
}
