/** The feature score of a search candidate, over the reals. */
module Ranking {
  import opened Base
  import opened Text

  const W_NAME := 0.45
  const W_PATH := 0.13
  const W_SIG := 0.12
  const W_CONTENT := 0.10
  const W_CENTRAL := 0.10
  const W_ROLE := 0.05
  const W_MEMORY := 0.05
  const W_VECTOR := 0.70
  const W_HEURISTIC := 0.30

  datatype Signals = Signals(
    name: string, signature: string, path: string, role: string,
    importedByCount: int, hasTests: bool, hasMemory: bool, contentDensity: real)

  datatype Feature = Feature(name: string, weight: real, value: real)

  function Contribution(f: Feature): real {
    f.weight * f.value
  }

  function Clamp01(v: real): real {
    if v < 0.0 then 0.0 else if v > 1.0 then 1.0 else v
  }

  function BoolVal(b: bool): real {
    if b then 1.0 else 0.0
  }

  function RoleWeight(role: string): real {
    if role == "impl" then 1.0
    else if role == "doc" then 0.6
    else if role == "test" then 0.4
    else 0.5
  }

  function Centrality(s: Signals): real {
    var v := Clamp01(s.importedByCount as real / 5.0);
    if s.hasTests then Clamp01(v + 0.3) else v
  }

  // ---- text features ----

  predicate SomePrefix(tokens: seq<string>, low: string) {
    exists i :: 0 <= i < |tokens| && HasPrefix(low, tokens[i])
  }

  predicate SomeContained(tokens: seq<string>, low: string) {
    exists i :: 0 <= i < |tokens| && Contains(low, tokens[i])
  }

  /** What the best match of a name is worth: the whole query or a token, a prefix, a substring, nothing. */
  function NameMatch(tokens: seq<string>, name: string): real {
    var low := ToLower(name);
    if name == "" || tokens == [] then 0.0
    else if low == Join(tokens, "") || low in tokens then 1.0
    else if SomePrefix(tokens, low) then 0.7
    else if SomeContained(tokens, low) then 0.4
    else 0.0
  }

  lemma PrefixIsContained(s: string, p: string)
    requires HasPrefix(s, p)
    ensures Contains(s, p)
  {
    assert s[0..] == s;
    assert s[0..][..|p|] == p;
  }

  /** nameMatch as it runs: one pass that keeps the best and stops at an exact token. */
  method ScoreName(tokens: seq<string>, name: string) returns (best: real)
    ensures best == NameMatch(tokens, name)
  {
    if name == "" || |tokens| == 0 {
      return 0.0;
    }
    var low := ToLower(name);
    if low == Join(tokens, "") {
      return 1.0;
    }
    hide ToLower, Join, Contains;
    best := 0.0;
    var i := 0;
    while i < |tokens|
      invariant 0 <= i <= |tokens|
      invariant low !in tokens[..i]
      invariant best == if SomePrefix(tokens[..i], low) then 0.7 else if SomeContained(tokens[..i], low) then 0.4 else 0.0
    {
      var tok := tokens[i];
      TokensSnoc(tokens, i, low);
      if low == tok {
        return 1.0;
      } else if HasPrefix(low, tok) {
        PrefixIsContained(low, tok);
        best := if 0.7 > best then 0.7 else best;
      } else if Contains(low, tok) {
        best := if 0.4 > best then 0.4 else best;
      }
      i := i + 1;
    }
    assert tokens[..i] == tokens;
  }

  lemma TokensSnoc(tokens: seq<string>, i: nat, low: string)
    requires i < |tokens|
    ensures SomePrefix(tokens[..i + 1], low) <==> SomePrefix(tokens[..i], low) || HasPrefix(low, tokens[i])
    ensures SomeContained(tokens[..i + 1], low) <==> SomeContained(tokens[..i], low) || Contains(low, tokens[i])
  {
    var all := tokens[..i + 1];
    hide Contains;
    assert all[i] == tokens[i] && forall k :: 0 <= k < i ==> all[k] == tokens[..i][k];
  }

  function Hits(tokens: seq<string>, low: string): (n: nat)
    ensures n <= |tokens|
  {
    if tokens == [] then 0
    else Hits(tokens[..|tokens| - 1], low) + if Contains(low, tokens[|tokens| - 1]) then 1 else 0
  }

  /** The fraction of query tokens that occur in the text. */
  function TokenCoverage(tokens: seq<string>, text: string): real {
    if tokens == [] || text == "" then 0.0 else Hits(tokens, ToLower(text)) as real / |tokens| as real
  }

  method ScoreCoverage(tokens: seq<string>, text: string) returns (r: real)
    ensures r == TokenCoverage(tokens, text)
  {
    if |tokens| == 0 || text == "" {
      return 0.0;
    }
    var low := ToLower(text);
    var hits := 0;
    var i := 0;
    while i < |tokens|
      invariant 0 <= i <= |tokens|
      invariant hits == Hits(tokens[..i], low)
    {
      assert tokens[..i + 1][..i] == tokens[..i];
      if Contains(low, tokens[i]) {
        hits := hits + 1;
      }
      i := i + 1;
    }
    assert tokens[..i] == tokens;
    r := hits as real / |tokens| as real;
  }

  // ---- the score ----

  function ScoreFeatures(tokens: seq<string>, s: Signals): seq<Feature> {
    [Feature("name", W_NAME, NameMatch(tokens, s.name)),
     Feature("path", W_PATH, TokenCoverage(tokens, s.path)),
     Feature("signature", W_SIG, TokenCoverage(tokens, s.signature)),
     Feature("content", W_CONTENT, Clamp01(s.contentDensity)),
     Feature("centrality", W_CENTRAL, Centrality(s)),
     Feature("role", W_ROLE, RoleWeight(s.role)),
     Feature("memory", W_MEMORY, BoolVal(s.hasMemory))]
  }

  function WeightedSum(feats: seq<Feature>): real {
    if feats == [] then 0.0 else WeightedSum(feats[..|feats| - 1]) + Contribution(feats[|feats| - 1])
  }

  function Score(tokens: seq<string>, s: Signals): real {
    WeightedSum(ScoreFeatures(tokens, s))
  }

  method ScoreSignals(tokens: seq<string>, s: Signals) returns (total: real)
    ensures total == Score(tokens, s)
  {
    var feats := ScoreFeatures(tokens, s);
    hide ScoreFeatures;
    total := 0.0;
    var i := 0;
    while i < |feats|
      invariant 0 <= i <= |feats|
      invariant total == WeightedSum(feats[..i])
    {
      assert feats[..i + 1][..i] == feats[..i];
      total := total + feats[i].weight * feats[i].value;
      i := i + 1;
    }
    assert feats[..i] == feats;
  }

  function Weights(feats: seq<Feature>): real {
    if feats == [] then 0.0 else Weights(feats[..|feats| - 1]) + feats[|feats| - 1].weight
  }

  ghost predicate UnitValues(feats: seq<Feature>) {
    forall i :: 0 <= i < |feats| ==> 0.0 <= feats[i].value <= 1.0 && 0.0 <= feats[i].weight
  }

  lemma CoverageInUnit(tokens: seq<string>, text: string)
    ensures 0.0 <= TokenCoverage(tokens, text) <= 1.0
  {
    if tokens != [] && text != "" {
      Quotient(Hits(tokens, ToLower(text)), |tokens|);
    }
  }

  lemma NegativeProduct(a: real, n: real)
    requires a < 0.0 && 0.0 < n
    ensures a * n < 0.0
  {
  }

  lemma Quotient(h: nat, n: nat)
    requires h <= n && 0 < n
    ensures 0.0 <= h as real / n as real <= 1.0
  {
    var q := h as real / n as real;
    assert q * n as real == h as real;
    assert (1.0 - q) * n as real == n as real - h as real;
    if q < 0.0 {
      NegativeProduct(q, n as real);
    }
    if 1.0 - q < 0.0 {
      NegativeProduct(1.0 - q, n as real);
    }
  }

  lemma {:induction false} SumInUnit(feats: seq<Feature>)
    requires UnitValues(feats)
    ensures 0.0 <= WeightedSum(feats) <= Weights(feats)
  {
    if feats != [] {
      SumInUnit(feats[..|feats| - 1]);
      InUnit(feats[|feats| - 1]);
      hide Contribution;
    }
  }

  lemma InUnit(f: Feature)
    requires 0.0 <= f.weight && 0.0 <= f.value <= 1.0
    ensures 0.0 <= Contribution(f) <= f.weight
  {
    NonNegativeProduct(f.weight, f.value);
    NonNegativeProduct(f.weight, 1.0 - f.value);
    assert f.weight * (1.0 - f.value) == f.weight - f.weight * f.value;
  }

  lemma NonNegativeProduct(a: real, b: real)
    requires 0.0 <= a && 0.0 <= b
    ensures 0.0 <= a * b
  {
  }

  lemma FeaturesInUnit(tokens: seq<string>, s: Signals)
    ensures UnitValues(ScoreFeatures(tokens, s))
  {
    CoverageInUnit(tokens, s.path);
    CoverageInUnit(tokens, s.signature);
    hide TokenCoverage;
  }

  lemma WeightsSumToOne(tokens: seq<string>, s: Signals)
    ensures Weights(ScoreFeatures(tokens, s)) == 1.0
  {
    hide NameMatch, TokenCoverage, Centrality, RoleWeight, Clamp01;
    var f := ScoreFeatures(tokens, s);
    assert f[..6][..5] == f[..5] && f[..5][..4] == f[..4] && f[..4][..3] == f[..3] && f[..3][..2] == f[..2] && f[..2][..1] == f[..1];
    assert f[..1][..0] == [];
    assert Weights(f[..1]) == W_NAME;
    assert Weights(f[..2]) == W_NAME + W_PATH;
    assert Weights(f[..3]) == W_NAME + W_PATH + W_SIG;
    assert Weights(f[..4]) == W_NAME + W_PATH + W_SIG + W_CONTENT;
    assert Weights(f[..5]) == W_NAME + W_PATH + W_SIG + W_CONTENT + W_CENTRAL;
    assert Weights(f[..6]) == W_NAME + W_PATH + W_SIG + W_CONTENT + W_CENTRAL + W_ROLE;
  }

  /** The heuristic score of any candidate for any query lies in [0, 1]. */
  lemma ScoreInUnit(tokens: seq<string>, s: Signals)
    ensures 0.0 <= Score(tokens, s) <= 1.0
  {
    hide ScoreFeatures, UnitValues;
    FeaturesInUnit(tokens, s);
    WeightsSumToOne(tokens, s);
    SumInUnit(ScoreFeatures(tokens, s));
  }

  /** The sum, feature by feature. */
  lemma ScoreIs(tokens: seq<string>, s: Signals)
    ensures Score(tokens, s) ==
      W_NAME * NameMatch(tokens, s.name) + W_PATH * TokenCoverage(tokens, s.path) + W_SIG * TokenCoverage(tokens, s.signature)
      + W_CONTENT * Clamp01(s.contentDensity) + W_CENTRAL * Centrality(s) + W_ROLE * RoleWeight(s.role) + W_MEMORY * BoolVal(s.hasMemory)
  {
    hide NameMatch, TokenCoverage, Centrality, RoleWeight, Clamp01, BoolVal;
    var f := ScoreFeatures(tokens, s);
    assert f[..6][..5] == f[..5] && f[..5][..4] == f[..4] && f[..4][..3] == f[..3] && f[..3][..2] == f[..2] && f[..2][..1] == f[..1];
    assert f[..1][..0] == [];
    assert WeightedSum(f[..1]) == Contribution(f[0]);
    assert WeightedSum(f[..2]) == WeightedSum(f[..1]) + Contribution(f[1]);
    assert WeightedSum(f[..3]) == WeightedSum(f[..2]) + Contribution(f[2]);
    assert WeightedSum(f[..4]) == WeightedSum(f[..3]) + Contribution(f[3]);
    assert WeightedSum(f[..5]) == WeightedSum(f[..4]) + Contribution(f[4]);
    assert WeightedSum(f[..6]) == WeightedSum(f[..5]) + Contribution(f[5]);
  }

  /** Without content matches a score lies between that of a test file that matches nothing and nine tenths. */
  lemma ScoreRange(tokens: seq<string>, s: Signals)
    requires s.contentDensity == 0.0
    ensures 0.02 <= Score(tokens, s) <= 0.90
  {
    ScoreIs(tokens, s);
    CoverageInUnit(tokens, s.path);
    CoverageInUnit(tokens, s.signature);
    assert 0.0 <= Centrality(s) <= 1.0;
    assert 0.0 <= NameMatch(tokens, s.name) <= 1.0;
    hide Score, NameMatch, TokenCoverage, Centrality;
  }

  const WORST := Signals("b", "", "b", "test", 0, false, false, 0.0)
  const BEST := Signals("a", "a", "a", "impl", 5, true, true, 0.0)

  /** Both ends are reached. */
  lemma ScoreRangeReached()
    ensures Score(["a"], WORST) == 0.02 && Score(["a"], BEST) == 0.90
  {
    ScoreIs(["a"], WORST);
    ScoreIs(["a"], BEST);
    OneToken();
    hide Score, NameMatch, TokenCoverage;
  }

  lemma OneToken()
    ensures NameMatch(["a"], "a") == 1.0 && NameMatch(["a"], "b") == 0.0
    ensures TokenCoverage(["a"], "a") == 1.0 && TokenCoverage(["a"], "b") == 0.0 && TokenCoverage(["a"], "") == 0.0
  {
    assert ToLower("a") == "a" && ToLower("b") == "b";
    assert HasPrefix("a", "a");
    PrefixIsContained("a", "a");
    assert !Contains("b", "a") by {
      assert "b"[0..][..1] == "b";
    }
    assert ["a"][..0] == [] && ["a"][0] == "a";
    assert Join(["a"], "") == "a";
  }

  /** At least as well connected: imported no less, tests, memory links and content kept or gained. */
  ghost predicate NoWeaker(s: Signals, t: Signals) {
    && s.name == t.name && s.signature == t.signature && s.path == t.path && s.role == t.role
    && s.importedByCount <= t.importedByCount && s.contentDensity <= t.contentDensity
    && (s.hasTests ==> t.hasTests) && (s.hasMemory ==> t.hasMemory)
  }

  ghost predicate NoLess(a: seq<Feature>, b: seq<Feature>) {
    && |a| == |b|
    && forall i :: 0 <= i < |a| ==> a[i].weight == b[i].weight && 0.0 <= a[i].weight && a[i].value <= b[i].value
  }

  lemma {:induction false} SumMonotone(a: seq<Feature>, b: seq<Feature>)
    requires NoLess(a, b)
    ensures WeightedSum(a) <= WeightedSum(b)
  {
    if a != [] {
      SumMonotone(a[..|a| - 1], b[..|b| - 1]);
      Bounded(a[|a| - 1], b[|b| - 1]);
      hide Contribution;
    }
  }

  lemma Bounded(f: Feature, g: Feature)
    requires f.weight == g.weight && 0.0 <= f.weight && f.value <= g.value
    ensures Contribution(f) <= Contribution(g)
  {
  }

  lemma CentralityMonotone(s: Signals, t: Signals)
    requires NoWeaker(s, t)
    ensures Centrality(s) <= Centrality(t)
  {
    assert s.importedByCount as real / 5.0 <= t.importedByCount as real / 5.0;
  }

  /** More importers, tests, a memory link or denser content never lower the score. */
  lemma ScoreMonotone(tokens: seq<string>, s: Signals, t: Signals)
    requires NoWeaker(s, t)
    ensures Score(tokens, s) <= Score(tokens, t)
  {
    CentralityMonotone(s, t);
    assert NoLess(ScoreFeatures(tokens, s), ScoreFeatures(tokens, t)) by {
      hide NameMatch, TokenCoverage, Centrality, RoleWeight;
    }
    hide ScoreFeatures;
    SumMonotone(ScoreFeatures(tokens, s), ScoreFeatures(tokens, t));
  }

  // ---- the explanation ----

  /** why's loop: the first feature of largest contribution. */
  method Dominant(feats: seq<Feature>) returns (best: nat)
    requires feats != []
    ensures best < |feats|
    ensures forall i :: 0 <= i < |feats| ==> Contribution(feats[i]) <= Contribution(feats[best])
    ensures forall i :: 0 <= i < best ==> Contribution(feats[i]) < Contribution(feats[best])
  {
    best := 0;
    var i := 1;
    while i < |feats|
      invariant 1 <= i <= |feats| && best < i
      invariant forall k :: 0 <= k < i ==> Contribution(feats[k]) <= Contribution(feats[best])
      invariant forall k :: 0 <= k < best ==> Contribution(feats[k]) < Contribution(feats[best])
    {
      if Contribution(feats[i]) > Contribution(feats[best]) {
        best := i;
      }
      i := i + 1;
    }
  }

  /** Every role has a positive weight, so the dominant feature never has value 0: "weak match" is never the explanation. */
  lemma NeverWeak(tokens: seq<string>, s: Signals, best: nat)
    requires best < |ScoreFeatures(tokens, s)|
    requires forall f :: f in ScoreFeatures(tokens, s) ==> Contribution(f) <= Contribution(ScoreFeatures(tokens, s)[best])
    ensures ScoreFeatures(tokens, s)[best].value != 0.0
  {
    var feats := ScoreFeatures(tokens, s);
    assert Contribution(feats[5]) > 0.0 && feats[5] in feats by { hide NameMatch, TokenCoverage, Centrality; }
    hide ScoreFeatures;
    assert Contribution(feats[best]) > 0.0;
  }

  // ---- blend and rounding ----

  /** The score before rounding: heuristics alone, or led by the vector signal. */
  function Blend(semantic: bool, vectorScore: real, heuristic: real): real {
    if semantic then W_VECTOR * vectorScore + W_HEURISTIC * heuristic else heuristic
  }

  lemma BlendInUnit(semantic: bool, v: real, h: real)
    requires 0.0 <= v <= 1.0 && 0.0 <= h <= 1.0
    ensures 0.0 <= Blend(semantic, v, h) <= 1.0
  {
  }

  /** Go's int(): truncation toward zero. */
  function Truncate(x: real): int {
    if x >= 0.0 then x.Floor else -((-x).Floor)
  }

  /** Four decimals. */
  function Round(v: real): real {
    Truncate(v * 10000.0 + 0.5) as real / 10000.0
  }

  lemma FloorMonotone(x: real, y: real)
    requires x <= y
    ensures x.Floor <= y.Floor
  {
  }

  /** Rounding a score errs by at most half a unit of the last place, and stays in [0, 1]. */
  lemma RoundError(v: real)
    requires 0.0 <= v
    ensures -1.0 / 20000.0 <= Round(v) - v <= 1.0 / 20000.0
    ensures v <= 1.0 ==> 0.0 <= Round(v) <= 1.0
  {
    var x := v * 10000.0 + 0.5;
    assert x.Floor as real <= x < x.Floor as real + 1.0;
    if v <= 1.0 {
      FloorMonotone(x, 10000.5);
    }
  }

  /** Rounding can merge scores but never invert them. */
  lemma RoundMonotone(a: real, b: real)
    requires 0.0 <= a
    ensures a <= b ==> Round(a) <= Round(b)
    ensures 0.0 <= b && Round(a) < Round(b) ==> a < b
  {
    if a <= b {
      FloorMonotone(a * 10000.0 + 0.5, b * 10000.0 + 0.5);
    } else if 0.0 <= b {
      FloorMonotone(b * 10000.0 + 0.5, a * 10000.0 + 0.5);
    }
  }

  // ---- the query's tokens ----

  predicate IsWordChar(c: char) {
    c == '_' || 'a' <= c <= 'z' || 'A' <= c <= 'Z' || '0' <= c <= '9'
  }

  /** The finished tokens and the one being read. */
  function Lex(q: string): (seq<string>, string) {
    if q == "" then ([], "")
    else
      var (done, cur) := Lex(q[..|q| - 1]);
      if IsWordChar(q[|q| - 1]) then (done, cur + [q[|q| - 1]]) else (Flushed(done, cur), "")
  }

  function Flushed(done: seq<string>, cur: string): seq<string> {
    if cur == "" then done else done + [ToLower(cur)]
  }

  function Tokens(q: string): seq<string> {
    Flushed(Lex(q).0, Lex(q).1)
  }

  method Tokenize(q: string) returns (tokens: seq<string>)
    ensures tokens == Tokens(q)
  {
    tokens := [];
    var cur := "";
    var i := 0;
    while i < |q|
      invariant 0 <= i <= |q|
      invariant (tokens, cur) == Lex(q[..i])
    {
      assert q[..i + 1][..i] == q[..i];
      if IsWordChar(q[i]) {
        cur := cur + [q[i]];
      } else {
        if |cur| > 0 {
          tokens := tokens + [ToLower(cur)];
        }
        cur := "";
      }
      i := i + 1;
    }
    assert q[..i] == q;
    if |cur| > 0 {
      tokens := tokens + [ToLower(cur)];
    }
  }

  ghost predicate Word(w: string) {
    w != "" && forall i :: 0 <= i < |w| ==> IsWordChar(w[i])
  }

  lemma {:induction false} LexWord(q: string, w: string)
    requires forall i :: 0 <= i < |w| ==> IsWordChar(w[i])
    ensures Lex(q + w) == (Lex(q).0, Lex(q).1 + w)
  {
    if w == "" {
      assert q + w == q && Lex(q).1 + w == Lex(q).1;
    } else {
      LexWord(q, w[..|w| - 1]);
      assert (q + w)[..|q + w| - 1] == q + w[..|w| - 1];
      assert Lex(q).1 + w == Lex(q).1 + w[..|w| - 1] + [w[|w| - 1]];
    }
  }

  lemma {:induction false} LexSeparator(q: string, sep: string)
    requires forall i :: 0 <= i < |sep| ==> !IsWordChar(sep[i])
    ensures sep != "" ==> Lex(q + sep) == (Tokens(q), "")
  {
    if sep != "" {
      var init := sep[..|sep| - 1];
      assert (q + sep)[..|q + sep| - 1] == q + init;
      if init == "" {
        assert q + init == q;
      } else {
        LexSeparator(q, init);
      }
    }
  }

  /** A query ends with a new token exactly when a word follows a separator: tokens are the maximal runs of word characters. */
  lemma TokensStep(q: string, sep: string, w: string)
    requires sep != "" && (forall i :: 0 <= i < |sep| ==> !IsWordChar(sep[i])) && Word(w)
    ensures Tokens(q + sep) == Tokens(q)
    ensures Tokens(q + sep + w) == Tokens(q) + [ToLower(w)]
    ensures Tokens(w) == [ToLower(w)] && Tokens("") == []
  {
    LexSeparator(q, sep);
    LexWord(q + sep, w);
    LexWord("", w);
    assert "" + w == w;
    hide ToLower;
  }

  /** There is nothing to search for exactly when the query has no word character. */
  lemma {:induction false} NoTokens(q: string)
    ensures Tokens(q) == [] <==> forall i :: 0 <= i < |q| ==> !IsWordChar(q[i])
    ensures Lex(q) == ([], "") <==> forall i :: 0 <= i < |q| ==> !IsWordChar(q[i])
  {
    if q != "" {
      NoTokens(q[..|q| - 1]);
      hide ToLower, IsWordChar;
      assert forall i :: 0 <= i < |q| - 1 ==> q[..|q| - 1][i] == q[i];
    }
  }
}
