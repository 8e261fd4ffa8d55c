/** The embedder seam: what is embedded for a symbol and a file, and the vectors that follow from it. */
module Embedder {
  import opened Base
  import opened Ids
  import opened Text
  import opened Digests
  import opened FloatCodec
  import opened VectorStore
  import opened Extraction
  import opened CodeTables
  import opened Scanning

  /** The bits of a float64. */
  type Float64 = w: int | 0 <= w < 0x1_0000_0000_0000_0000

  /** IEEE arithmetic, operation by operation, as the mean uses it. */
  datatype Arith = Arith(
    widen: Float32 -> Float64, add: (Float64, Float64) -> Float64, mul: (Float64, Float64) -> Float64,
    divide: (Float64, nat) -> Float64, narrow: Float64 -> Float32, positive: Float64 -> bool,
    inverseSqrt: Float64 -> Float32, scale: (Float32, Float32) -> Float32)

  /** A model by name. encode maps (model, text) to the text's vector: texts are encoded one by one.
      fails says which batches the runtime rejects. */
  datatype Model = Model(name: string, dim: nat, encode: (string, string) -> Vec, fails: seq<string> -> bool, arith: Arith)

  /** Every vector the model returns has its dimension. */
  ghost predicate Dimensioned(e: Model) {
    forall text :: |e.encode(e.name, text)| == e.dim
  }

  function EntryFor(e: Model, text: string): Entry {
    Entry(ChunkSha(e.name, text), e.encode(e.name, text))
  }

  /** The batch call. None is an embedder failure. */
  method Embed(e: Model, texts: seq<string>) returns (vecs: Option<seq<Vec>>)
    ensures vecs.None? <==> e.fails(texts)
    ensures vecs.Some? ==> |vecs.value| == |texts| && forall i :: 0 <= i < |texts| ==> vecs.value[i] == e.encode(e.name, texts[i])
  {
    if e.fails(texts) {
      return None;
    }
    vecs := Some(seq(|texts|, i requires 0 <= i < |texts| => e.encode(e.name, texts[i])));
  }

  // ---- the embedded texts ----

  function BodySpan(src: string, startLine: int, endLine: int): string {
    if src == "" || startLine <= 0 || endLine < startLine then "" else
    var lines := Split(src, '\n');
    if startLine > |lines| then ""
    else Join(lines[startLine - 1..if endLine > |lines| then |lines| else endLine], "\n")
  }

  function ChunkText(s: Symbol, src: string): string {
    var body := BodySpan(src, s.startLine, s.endLine);
    (if s.container != "" then s.container + " " else "")
    + s.name
    + (if s.signature != "" then "\n" + s.signature else "")
    + (if body != "" then "\n" + body else "")
  }

  function HeadSlice(content: string): string {
    if |content| > 64 * 1024 then content[..64 * 1024] else content
  }

  function NonEmpty(parts: seq<string>): seq<string> {
    if parts == [] then []
    else (if parts[0] != "" then [parts[0]] else []) + NonEmpty(parts[1..])
  }

  function Signatures(syms: seq<SymbolRecord>): seq<string> {
    seq(|syms|, i requires 0 <= i < |syms| => syms[i].signature)
  }

  function FileFallbackText(p: Parsed): string {
    Join(NonEmpty([p.record.path, p.record.pkg, p.record.role]) + NonEmpty(Signatures(p.symbols))
         + (if p.content != "" then [HeadSlice(p.content)] else []), " ")
  }

  // ---- the file vector ----

  /** The vectors that enter the mean, in symbol order. */
  datatype Slot = Unset | Filled(vec: Vec)

  function Usable(slots: seq<Slot>, dim: nat): (r: seq<Vec>)
    ensures forall v :: v in r ==> |v| == dim
  {
    if slots == [] then [] else
    var s := slots[|slots| - 1];
    Usable(slots[..|slots| - 1], dim) + (if s.Filled? && |s.vec| == dim then [s.vec] else [])
  }

  /** Component i summed over the vectors, in order. */
  function SumAt(a: Arith, vecs: seq<Vec>, i: nat): Float64
    requires forall v :: v in vecs ==> i < |v|
  {
    if vecs == [] then 0 else a.add(SumAt(a, vecs[..|vecs| - 1], i), a.widen(vecs[|vecs| - 1][i]))
  }

  function Averages(a: Arith, vecs: seq<Vec>, dim: nat): (r: seq<Float64>)
    requires vecs != [] && forall v :: v in vecs ==> |v| == dim
    ensures |r| == dim
  {
    seq<Float64>(dim, i requires 0 <= i < dim => a.divide(SumAt(a, vecs, i), |vecs|))
  }

  function NormOf(a: Arith, avgs: seq<Float64>): Float64 {
    if avgs == [] then 0 else
    var x := avgs[|avgs| - 1];
    a.add(NormOf(a, avgs[..|avgs| - 1]), a.mul(x, x))
  }

  function Normalized(a: Arith, avgs: seq<Float64>): (v: Vec)
    ensures |v| == |avgs|
  {
    var norm := NormOf(a, avgs);
    seq(|avgs|, i requires 0 <= i < |avgs| =>
      var x := a.narrow(avgs[i]);
      if a.positive(norm) then a.scale(x, a.inverseSqrt(norm)) else x)
  }

  /** The normalised mean of the usable vectors; None when there is none. */
  function MeanOf(a: Arith, vecs: seq<Vec>, dim: nat): Option<Vec>
    requires forall v :: v in vecs ==> |v| == dim
  {
    if vecs == [] then None else Some(Normalized(a, Averages(a, vecs, dim)))
  }

  lemma UsableSnoc(slots: seq<Slot>, k: int, dim: nat)
    requires 0 <= k < |slots|
    ensures Usable(slots[..k + 1], dim) ==
            Usable(slots[..k], dim) + if slots[k].Filled? && |slots[k].vec| == dim then [slots[k].vec] else []
  {
    assert slots[..k + 1][..k] == slots[..k];
  }

  /** The loops over slots and components. */
  method MeanNormalize(a: Arith, slots: seq<Slot>, dim: nat) returns (mean: Option<Vec>)
    ensures mean == MeanOf(a, Usable(slots, dim), dim)
  {
    var sum, n := SumSlots(a, slots, dim);
    if n == 0 {
      return None;
    }
    hide SumAt, Usable, Normalized;
    ghost var vecs := Usable(slots, dim);
    var avgs := new Float64[dim](i reads sum requires 0 <= i < sum.Length => a.divide(sum[i], n));
    assert avgs[..] == Averages(a, vecs, dim);
    var out := Finish(a, avgs);
    mean := Some(out);
  }

  method SumSlots(a: Arith, slots: seq<Slot>, dim: nat) returns (sum: array<Float64>, n: nat)
    ensures sum.Length == dim && n == |Usable(slots, dim)|
    ensures forall i :: 0 <= i < dim ==> sum[i] == SumAt(a, Usable(slots, dim), i)
  {
    sum := new Float64[dim](_ => 0);
    n := 0;
    ghost var used: seq<Vec> := [];
    var k := 0;
    hide Usable;
    assert slots[..0] == [];
    UsableNone(dim);
    while k < |slots|
      invariant 0 <= k <= |slots|
      invariant used == Usable(slots[..k], dim) && n == |used|
      invariant forall i :: 0 <= i < dim ==> sum[i] == SumAt(a, used, i)
    {
      hide SumAt;
      UsableSnoc(slots, k, dim);
      if slots[k].Filled? && |slots[k].vec| == dim {
        AddInto(a, sum, slots[k].vec, used);
        used := used + [slots[k].vec];
        n := n + 1;
      }
      k := k + 1;
    }
    assert slots[..k] == slots;
  }

  lemma UsableNone(dim: nat)
    ensures Usable([], dim) == []
  {
  }

  /** One usable slot: every component is added in place. */
  method AddInto(a: Arith, sum: array<Float64>, v: Vec, ghost used: seq<Vec>)
    requires |v| == sum.Length && forall u :: u in used ==> |u| == sum.Length
    requires forall i :: 0 <= i < sum.Length ==> sum[i] == SumAt(a, used, i)
    modifies sum
    ensures forall i :: 0 <= i < sum.Length ==> sum[i] == SumAt(a, used + [v], i)
  {
    assert (used + [v])[..|used|] == used;
    var i := 0;
    while i < sum.Length
      invariant 0 <= i <= sum.Length
      invariant forall j :: 0 <= j < i ==> sum[j] == SumAt(a, used + [v], j)
      invariant forall j :: i <= j < sum.Length ==> sum[j] == SumAt(a, used, j)
    {
      sum[i] := a.add(sum[i], a.widen(v[i]));
      i := i + 1;
    }
  }

  /** Narrowing, the norm, and the scaling in place. */
  method Finish(a: Arith, avgs: array<Float64>) returns (v: Vec)
    ensures v == Normalized(a, avgs[..])
  {
    var out, norm := Narrow(a, avgs);
    hide NormOf;
    if a.positive(norm) {
      Scale(a, out, a.inverseSqrt(norm));
    }
    v := out[..];
  }

  method Narrow(a: Arith, avgs: array<Float64>) returns (out: array<Float32>, norm: Float64)
    ensures fresh(out) && out.Length == avgs.Length
    ensures norm == NormOf(a, avgs[..])
    ensures forall j :: 0 <= j < out.Length ==> out[j] == a.narrow(avgs[j])
  {
    ghost var all := avgs[..];
    out := Zeros(avgs.Length);
    norm := 0;
    NormNone(a, all);
    hide NormOf;
    var i := 0;
    while i < avgs.Length
      invariant 0 <= i <= avgs.Length && avgs[..] == all
      invariant norm == NormOf(a, all[..i])
      invariant forall j :: 0 <= j < i ==> out[j] == a.narrow(all[j])
    {
      NormSnoc(a, all, i);
      out[i] := a.narrow(avgs[i]);
      norm := a.add(norm, a.mul(avgs[i], avgs[i]));
      i := i + 1;
    }
    assert all[..i] == all;
  }

  method Zeros(n: nat) returns (out: array<Float32>)
    ensures fresh(out) && out.Length == n
  {
    out := new Float32[n](_ => 0);
  }

  lemma NormNone(a: Arith, avgs: seq<Float64>)
    ensures NormOf(a, avgs[..0]) == 0
  {
  }

  lemma NormSnoc(a: Arith, avgs: seq<Float64>, i: nat)
    requires i < |avgs|
    ensures NormOf(a, avgs[..i + 1]) == a.add(NormOf(a, avgs[..i]), a.mul(avgs[i], avgs[i]))
  {
    assert avgs[..i + 1][..i] == avgs[..i];
  }

  method Scale(a: Arith, out: array<Float32>, inv: Float32)
    modifies out
    ensures forall j :: 0 <= j < out.Length ==> out[j] == a.scale(old(out[j]), inv)
  {
    var i := 0;
    while i < out.Length
      invariant 0 <= i <= out.Length
      invariant forall j :: 0 <= j < i ==> out[j] == a.scale(old(out[j]), inv)
      invariant forall j :: i <= j < out.Length ==> out[j] == old(out[j])
    {
      out[i] := a.scale(out[i], inv);
      i := i + 1;
    }
  }

  function BytesText(b: seq<Byte>): string {
    seq(|b|, i requires 0 <= i < |b| => b[i] as char)
  }

  /** The digest stored with a derived file vector. */
  function VecSha(model: string, v: Vec): Digest {
    Sha256(model + BytesText(FloatCodec.Encode(v)))
  }

  function MeanEntry(e: Model, v: Vec): Entry {
    Entry(VecSha(e.name, v), v)
  }
}
