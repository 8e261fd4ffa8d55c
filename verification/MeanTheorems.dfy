/** The file vector read as numbers: the mean of the symbol vectors, scaled to length one. */
module MeanTheorems {
  import opened Base
  import opened Digests
  import opened FloatCodec
  import opened Embedder
  import opened MemoryEdits

  /** The numbers the bits stand for; None is no finite number. */
  datatype Reading = Reading(wide: Float64 -> Option<real>, single: Float32 -> Option<real>)

  ghost predicate Wide(r: Reading, u: real) {
    exists x :: r.wide(x) == Some(u)
  }

  ghost predicate Single(r: Reading, u: real) {
    exists x :: r.single(x) == Some(u)
  }

  function Times(u: real, v: real): real {
    u * v
  }

  function Over(u: real, n: nat): real
    requires 0 < n
  {
    u / n as real
  }

  ghost predicate Adds(a: Arith, r: Reading) {
    forall x, y :: r.wide(x).Some? && r.wide(y).Some? && Wide(r, r.wide(x).value + r.wide(y).value) ==>
      r.wide(a.add(x, y)) == Some(r.wide(x).value + r.wide(y).value)
  }

  ghost predicate Multiplies(a: Arith, r: Reading) {
    forall x, y :: r.wide(x).Some? && r.wide(y).Some? && Wide(r, Times(r.wide(x).value, r.wide(y).value)) ==>
      r.wide(a.mul(x, y)) == Some(Times(r.wide(x).value, r.wide(y).value))
  }

  ghost predicate Divides(a: Arith, r: Reading) {
    forall x, n: nat :: 0 < n && r.wide(x).Some? && Wide(r, Over(r.wide(x).value, n)) ==>
      r.wide(a.divide(x, n)) == Some(Over(r.wide(x).value, n))
  }

  ghost predicate Converts(a: Arith, r: Reading) {
    && r.wide(0) == Some(0.0)
    && (forall x :: r.single(x).Some? ==> r.wide(a.widen(x)) == r.single(x))
    && (forall x :: r.wide(x).Some? && Single(r, r.wide(x).value) ==> r.single(a.narrow(x)) == r.wide(x))
    && (forall x :: r.wide(x).Some? ==> (a.positive(x) <==> r.wide(x).value > 0.0))
  }

  ghost predicate TakesRoots(a: Arith, r: Reading) {
    forall x, w: real :: r.wide(x).Some? && IsInverseRoot(w, r.wide(x).value) && Wide(r, 1.0 / w) && Single(r, w) ==>
      r.single(a.inverseSqrt(x)) == Some(w)
  }

  ghost predicate Scales(a: Arith, r: Reading) {
    forall x, y :: r.single(x).Some? && r.single(y).Some? && Single(r, Times(r.single(x).value, r.single(y).value)) ==>
      r.single(a.scale(x, y)) == Some(Times(r.single(x).value, r.single(y).value))
  }

  /** Every operation gives the exact result whenever that is a number of its format, as IEEE 754 demands. */
  ghost predicate Correct(a: Arith, r: Reading) {
    Adds(a, r) && Multiplies(a, r) && Divides(a, r) && Converts(a, r) && TakesRoots(a, r) && Scales(a, r)
  }

  ghost predicate IsInverseRoot(w: real, u: real) {
    w > 0.0 && Times(Times(w, w), u) == 1.0
  }

  // ---- the same computation over the reals ----

  ghost function At(r: Reading, v: Vec, i: nat): real
    requires i < |v|
  {
    r.single(v[i]).GetOr(0.0)
  }

  /** Component i of the vectors, summed. */
  ghost function Total(r: Reading, vecs: seq<Vec>, i: nat): real
    requires forall v :: v in vecs ==> i < |v|
  {
    if vecs == [] then 0.0 else At(r, vecs[0], i) + Total(r, vecs[1..], i)
  }

  /** Component i of the mean. */
  ghost function Mean(r: Reading, vecs: seq<Vec>, i: nat): real
    requires vecs != [] && forall v :: v in vecs ==> i < |v|
  {
    Over(Total(r, vecs, i), |vecs|)
  }

  /** The squares of the mean's components before k, summed. */
  ghost function SquaresBefore(r: Reading, vecs: seq<Vec>, k: nat): real
    requires vecs != [] && forall v :: v in vecs ==> k <= |v|
  {
    if k == 0 then 0.0 else SquaresBefore(r, vecs, k - 1) + Times(Mean(r, vecs, k - 1), Mean(r, vecs, k - 1))
  }

  /** Every number on the way is one of its format, and w is the number the mean is scaled by. */
  ghost predicate Exact(r: Reading, vecs: seq<Vec>, dim: nat, w: real)
    requires vecs != [] && forall v :: v in vecs ==> |v| == dim
  {
    && (forall i :: 0 <= i < dim ==> Summable(r, vecs, i))
    && (forall i :: 0 <= i < dim ==> Wide(r, Mean(r, vecs, i)) && Single(r, Mean(r, vecs, i)))
    && (forall i :: 0 <= i < dim ==> Wide(r, Times(Mean(r, vecs, i), Mean(r, vecs, i))))
    && (forall k :: 0 <= k <= dim ==> Wide(r, SquaresBefore(r, vecs, k)))
    && IsInverseRoot(w, SquaresBefore(r, vecs, dim)) && Wide(r, 1.0 / w) && Single(r, w)
    && (forall i :: 0 <= i < dim ==> Single(r, Times(Mean(r, vecs, i), w)))
  }

  /** The total of the first k vectors. */
  ghost function TotalOf(r: Reading, vecs: seq<Vec>, k: nat, i: nat): real
    requires k <= |vecs| && forall v :: v in vecs ==> i < |v|
  {
    assert forall v :: v in vecs[..k] ==> v in vecs;
    Total(r, vecs[..k], i)
  }

  // ---- single operations ----

  lemma AddExact(a: Arith, r: Reading, x: Float64, y: Float64, u: real, v: real)
    requires Correct(a, r) && r.wide(x) == Some(u) && r.wide(y) == Some(v) && Wide(r, u + v)
    ensures r.wide(a.add(x, y)) == Some(u + v)
  {
    hide Multiplies, Divides, Converts, TakesRoots, Scales, Wide, Single, Times, Over, IsInverseRoot;
  }

  lemma WidenExact(a: Arith, r: Reading, x: Float32)
    requires Correct(a, r) && r.single(x).Some?
    ensures r.wide(a.widen(x)) == r.single(x)
  {
    hide Adds, Multiplies, Divides, TakesRoots, Scales, Wide, Single, Times, Over, IsInverseRoot;
  }

  lemma MulExact(a: Arith, r: Reading, x: Float64, u: real)
    requires Correct(a, r) && r.wide(x) == Some(u) && Wide(r, Times(u, u))
    ensures r.wide(a.mul(x, x)) == Some(Times(u, u))
  {
    hide Adds, Divides, Converts, TakesRoots, Scales, Wide, Single, Times, Over, IsInverseRoot;
  }

  lemma DivideExact(a: Arith, r: Reading, x: Float64, u: real, n: nat)
    requires Correct(a, r) && r.wide(x) == Some(u) && 0 < n && Wide(r, Over(u, n))
    ensures r.wide(a.divide(x, n)) == Some(Over(u, n))
  {
    hide Adds, Multiplies, Converts, TakesRoots, Scales, Wide, Single, Times, Over, IsInverseRoot;
  }

  lemma ZeroExact(a: Arith, r: Reading)
    requires Correct(a, r)
    ensures r.wide(0) == Some(0.0)
  {
    hide Adds, Multiplies, Divides, TakesRoots, Scales, Wide, Single, Times, Over, IsInverseRoot;
  }

  lemma NarrowExact(a: Arith, r: Reading, x: Float64, u: real)
    requires Correct(a, r) && r.wide(x) == Some(u) && Single(r, u)
    ensures r.single(a.narrow(x)) == Some(u)
  {
    hide Adds, Multiplies, Divides, TakesRoots, Scales, Wide, Single, Times, Over, IsInverseRoot;
  }

  lemma RootExact(a: Arith, r: Reading, x: Float64, u: real, w: real)
    requires Correct(a, r) && r.wide(x) == Some(u) && IsInverseRoot(w, u) && Wide(r, 1.0 / w) && Single(r, w)
    ensures a.positive(x) && r.single(a.inverseSqrt(x)) == Some(w)
  {
    NormPositive(w, u);
    hide Adds, Multiplies, Divides, Scales, Wide, Single, Times, Over, IsInverseRoot;
  }

  lemma ScaleExact(a: Arith, r: Reading, x: Float32, y: Float32, u: real, w: real)
    requires Correct(a, r) && r.single(x) == Some(u) && r.single(y) == Some(w) && Single(r, Times(u, w))
    ensures r.single(a.scale(x, y)) == Some(Times(u, w))
  {
    hide Adds, Multiplies, Divides, Converts, TakesRoots, Wide, Single, Times, Over, IsInverseRoot;
  }

  lemma NormPositive(w: real, u: real)
    requires IsInverseRoot(w, u)
    ensures u > 0.0
  {
    SquarePositive(w);
    ProductSign(w * w, u);
  }

  lemma SquarePositive(w: real)
    requires w > 0.0
    ensures w * w > 0.0
  {
  }

  lemma ProductSign(x: real, u: real)
    requires x > 0.0 && x * u > 0.0
    ensures u > 0.0
  {
  }

  // ---- the sums ----

  /** Component i of every vector is a number, and so is each of its sums over the first ones. */
  ghost predicate Summable(r: Reading, vecs: seq<Vec>, i: nat) {
    && (forall v :: v in vecs ==> i < |v| && r.single(v[i]).Some?)
    && (forall k :: 0 <= k <= |vecs| ==> Wide(r, TotalOf(r, vecs, k, i)))
  }

  lemma {:induction false} TotalSnoc(r: Reading, vecs: seq<Vec>, v: Vec, i: nat)
    requires (forall u :: u in vecs ==> i < |u|) && i < |v|
    ensures Total(r, vecs + [v], i) == Total(r, vecs, i) + At(r, v, i)
  {
    if vecs == [] {
      assert ([] + [v])[1..] == [];
    } else {
      assert (vecs + [v])[1..] == vecs[1..] + [v];
      TotalSnoc(r, vecs[1..], v, i);
    }
  }

  lemma SumStep(a: Arith, r: Reading, u: seq<Vec>, x: Vec, i: nat)
    requires Correct(a, r) && (forall v :: v in u ==> i < |v|) && i < |x| && r.single(x[i]).Some?
    requires r.wide(SumAt(a, u, i)) == Some(Total(r, u, i)) && Wide(r, Total(r, u + [x], i))
    ensures r.wide(SumAt(a, u + [x], i)) == Some(Total(r, u + [x], i))
  {
    hide Correct, Wide, Total;
    assert (u + [x])[..|u|] == u;
    TotalSnoc(r, u, x, i);
    WidenExact(a, r, x[i]);
    AddExact(a, r, SumAt(a, u, i), a.widen(x[i]), Total(r, u, i), At(r, x, i));
  }

  lemma NoSum(a: Arith, r: Reading, i: nat)
    requires Correct(a, r)
    ensures r.wide(SumAt(a, [], i)) == Some(Total(r, [], i))
  {
    hide Correct;
    ZeroExact(a, r);
  }

  lemma SummableInit(r: Reading, u: seq<Vec>, x: Vec, i: nat)
    requires Summable(r, u + [x], i)
    ensures Summable(r, u, i) && (forall v :: v in u ==> i < |v|) && i < |x| && r.single(x[i]).Some?
    ensures Wide(r, Total(r, u + [x], i))
  {
    hide Wide, Total;
    var vecs := u + [x];
    assert forall v :: v in u ==> v in vecs;
    assert x in vecs && vecs[..|u| + 1] == vecs;
    assert Wide(r, TotalOf(r, vecs, |u| + 1, i));
    forall k | 0 <= k <= |u| ensures Wide(r, TotalOf(r, u, k, i)) {
      assert u[..k] == vecs[..k] && Wide(r, TotalOf(r, vecs, k, i));
    }
  }

  /** The in-order sum is the total. */
  lemma {:induction false} SumIsTotal(a: Arith, r: Reading, vecs: seq<Vec>, i: nat)
    requires Correct(a, r) && Summable(r, vecs, i)
    ensures forall v :: v in vecs ==> i < |v|
    ensures r.wide(SumAt(a, vecs, i)) == Some(Total(r, vecs, i))
  {
    SummableLong(r, vecs, i);
    hide *;
    if vecs == [] {
      NoSum(a, r, i);
    } else {
      var u, x := vecs[..|vecs| - 1], vecs[|vecs| - 1];
      assert vecs == u + [x];
      SummableInit(r, u, x, i);
      SumIsTotal(a, r, u, i);
      SumStep(a, r, u, x, i);
    }
  }

  lemma SummableLong(r: Reading, vecs: seq<Vec>, i: nat)
    requires Summable(r, vecs, i)
    ensures forall v :: v in vecs ==> i < |v|
  {
    hide Wide, Single;
  }

  lemma AveragesAreMeans(a: Arith, r: Reading, vecs: seq<Vec>, dim: nat, w: real)
    requires Correct(a, r) && vecs != [] && (forall v :: v in vecs ==> |v| == dim) && Exact(r, vecs, dim, w)
    ensures forall i :: 0 <= i < dim ==> r.wide(Averages(a, vecs, dim)[i]) == Some(Mean(r, vecs, i))
  {
    hide Correct, Wide, Single, SumAt, Total, Summable, IsInverseRoot, Over, Times, SquaresBefore;
    forall i | 0 <= i < dim ensures r.wide(Averages(a, vecs, dim)[i]) == Some(Mean(r, vecs, i)) {
      SumIsTotal(a, r, vecs, i);
      assert Wide(r, Mean(r, vecs, i));
      DivideExact(a, r, SumAt(a, vecs, i), Total(r, vecs, i), |vecs|);
    }
  }

  lemma {:induction false} NormIsSquares(a: Arith, r: Reading, vecs: seq<Vec>, dim: nat, w: real, avgs: seq<Float64>, k: nat)
    requires Correct(a, r) && vecs != [] && (forall v :: v in vecs ==> |v| == dim) && Exact(r, vecs, dim, w)
    requires |avgs| == dim && k <= dim && forall i :: 0 <= i < dim ==> r.wide(avgs[i]) == Some(Mean(r, vecs, i))
    ensures r.wide(NormOf(a, avgs[..k])) == Some(SquaresBefore(r, vecs, k))
  {
    hide Correct, Times, Over, Wide, Single, Mean, IsInverseRoot;
    if k == 0 {
      ZeroExact(a, r);
    } else {
      NormIsSquares(a, r, vecs, dim, w, avgs, k - 1);
      assert avgs[..k][..k - 1] == avgs[..k - 1];
      var m := Mean(r, vecs, k - 1);
      hide Exact, SquaresBefore;
      RoundsNowhere(r, vecs, dim, w, k);
      MulExact(a, r, avgs[k - 1], m);
      AddExact(a, r, NormOf(a, avgs[..k - 1]), a.mul(avgs[k - 1], avgs[k - 1]), SquaresBefore(r, vecs, k - 1), Times(m, m));
    }
  }

  lemma RoundsNowhere(r: Reading, vecs: seq<Vec>, dim: nat, w: real, k: nat)
    requires vecs != [] && (forall v :: v in vecs ==> |v| == dim) && Exact(r, vecs, dim, w) && 0 < k <= dim
    ensures Wide(r, Times(Mean(r, vecs, k - 1), Mean(r, vecs, k - 1))) && Wide(r, SquaresBefore(r, vecs, k))
    ensures SquaresBefore(r, vecs, k) == SquaresBefore(r, vecs, k - 1) + Times(Mean(r, vecs, k - 1), Mean(r, vecs, k - 1))
    ensures Single(r, Mean(r, vecs, k - 1)) && Single(r, Times(Mean(r, vecs, k - 1), w))
  {
    hide Wide, Single, Mean, IsInverseRoot;
  }

  /** The squares of a vector's components, summed. */
  ghost function LengthSquared(r: Reading, v: Vec): real {
    if v == [] then 0.0 else LengthSquared(r, v[..|v| - 1]) + Times(At(r, v, |v| - 1), At(r, v, |v| - 1))
  }

  lemma {:induction false} ScaledSquares(r: Reading, vecs: seq<Vec>, dim: nat, w: real, v: Vec)
    requires vecs != [] && |v| <= dim && forall u :: u in vecs ==> |u| == dim
    requires forall i :: 0 <= i < |v| ==> At(r, v, i) == Times(Mean(r, vecs, i), w)
    ensures LengthSquared(r, v) == Times(Times(w, w), SquaresBefore(r, vecs, |v|))
  {
    if v != [] {
      var n := |v| - 1;
      assert forall i :: 0 <= i < n ==> At(r, v[..n], i) == At(r, v, i);
      ScaledSquares(r, vecs, dim, w, v[..n]);
      hide Mean, At, Times;
      Distribute(w, SquaresBefore(r, vecs, n), Mean(r, vecs, n));
    }
  }

  lemma Distribute(w: real, s: real, m: real)
    ensures Times(Times(w, w), s) + Times(Times(m, w), Times(m, w)) == Times(Times(w, w), s + Times(m, m))
  {
  }

  /** When no operation has to round, the file vector is the mean of the symbol vectors, scaled to length one. */
  lemma MeanIsUnit(a: Arith, r: Reading, vecs: seq<Vec>, dim: nat, w: real)
    requires Correct(a, r) && vecs != [] && (forall v :: v in vecs ==> |v| == dim) && Exact(r, vecs, dim, w)
    ensures MeanOf(a, vecs, dim).Some? && |MeanOf(a, vecs, dim).value| == dim
    ensures forall i :: 0 <= i < dim ==> r.single(MeanOf(a, vecs, dim).value[i]) == Some(Times(Mean(r, vecs, i), w))
    ensures LengthSquared(r, MeanOf(a, vecs, dim).value) == 1.0
  {
    hide *;
    var avgs := Averages(a, vecs, dim);
    AveragesAreMeans(a, r, vecs, dim, w);
    NormIsSquares(a, r, vecs, dim, w, avgs, dim);
    assert avgs[..dim] == avgs;
    ExactRoot(r, vecs, dim, w);
    RootExact(a, r, NormOf(a, avgs), SquaresBefore(r, vecs, dim), w);
    MeanIs(a, vecs, dim);
    var m := MeanOf(a, vecs, dim).value;
    forall i | 0 <= i < dim ensures r.single(m[i]) == Some(Times(Mean(r, vecs, i), w)) && At(r, m, i) == Times(Mean(r, vecs, i), w) {
      RoundsNowhere(r, vecs, dim, w, i + 1);
      NarrowExact(a, r, avgs[i], Mean(r, vecs, i));
      ScaleExact(a, r, a.narrow(avgs[i]), a.inverseSqrt(NormOf(a, avgs)), Mean(r, vecs, i), w);
      AtIs(r, m, i);
    }
    ScaledSquares(r, vecs, dim, w, m);
    RootIs(w, SquaresBefore(r, vecs, dim));
  }

  lemma AtIs(r: Reading, v: Vec, i: nat)
    requires i < |v|
    ensures r.single(v[i]).Some? ==> At(r, v, i) == r.single(v[i]).value
  {
  }

  lemma ExactRoot(r: Reading, vecs: seq<Vec>, dim: nat, w: real)
    requires vecs != [] && (forall v :: v in vecs ==> |v| == dim) && Exact(r, vecs, dim, w)
    ensures IsInverseRoot(w, SquaresBefore(r, vecs, dim)) && Wide(r, 1.0 / w) && Single(r, w)
  {
    hide IsInverseRoot, SquaresBefore, Wide, Single, Summable, Mean, Times;
  }

  lemma MeanIs(a: Arith, vecs: seq<Vec>, dim: nat)
    requires vecs != [] && forall v :: v in vecs ==> |v| == dim
    ensures var avgs := Averages(a, vecs, dim);
            && MeanOf(a, vecs, dim).Some? && |MeanOf(a, vecs, dim).value| == dim
            && (a.positive(NormOf(a, avgs)) ==>
                  forall i :: 0 <= i < dim ==> MeanOf(a, vecs, dim).value[i] == a.scale(a.narrow(avgs[i]), a.inverseSqrt(NormOf(a, avgs))))
  {
    hide Averages, NormOf;
  }

  lemma RootIs(w: real, u: real)
    requires IsInverseRoot(w, u)
    ensures Times(Times(w, w), u) == 1.0
  {
  }

  // ---- which vectors, and their digest ----

  /** The positions of the slots that are filled with a vector of this dimension. */
  ghost predicate UsableAt(slots: seq<Slot>, dim: nat, at: seq<int>) {
    && Ascends(at, |slots|)
    && forall i :: 0 <= i < |slots| ==> (i in at <==> slots[i].Filled? && |slots[i].vec| == dim)
  }

  /** These are the vectors at those positions. */
  ghost predicate VectorsAt(slots: seq<Slot>, at: seq<int>, vecs: seq<Vec>) {
    |at| == |vecs| && forall k :: 0 <= k < |at| ==> 0 <= at[k] < |slots| && slots[at[k]] == Filled(vecs[k])
  }

  /** The mean is over exactly these vectors, in order. */
  lemma {:induction false} UsablePicks(slots: seq<Slot>, dim: nat) returns (at: seq<int>)
    ensures UsableAt(slots, dim, at) && VectorsAt(slots, at, Usable(slots, dim))
  {
    if slots == [] {
      at := [];
    } else {
      var n := |slots| - 1;
      UsableSnoc(slots, n, dim);
      assert slots[..n + 1] == slots;
      hide *;
      at := UsablePicks(slots[..n], dim);
      UsableMore(slots, dim, at);
      VectorsMore(slots, at, Usable(slots[..n], dim));
      if slots[n].Filled? && |slots[n].vec| == dim {
        at := at + [n];
      }
    }
  }

  lemma VectorsMore(slots: seq<Slot>, at: seq<int>, vecs: seq<Vec>)
    requires slots != [] && VectorsAt(slots[..|slots| - 1], at, vecs)
    ensures var n := |slots| - 1;
            VectorsAt(slots, at, vecs + []) && (slots[n].Filled? ==> VectorsAt(slots, at + [n], vecs + [slots[n].vec]))
  {
    assert vecs + [] == vecs;
    forall k | 0 <= k < |at| ensures slots[at[k]] == Filled(vecs[k]) {
      assert slots[..|slots| - 1][at[k]] == slots[at[k]];
    }
  }

  lemma UsableMore(slots: seq<Slot>, dim: nat, at: seq<int>)
    requires slots != [] && UsableAt(slots[..|slots| - 1], dim, at)
    ensures var n := |slots| - 1; UsableAt(slots, dim, if slots[n].Filled? && |slots[n].vec| == dim then at + [n] else at)
  {
    var n := |slots| - 1;
    assert forall i :: 0 <= i < n ==> slots[..n][i] == slots[i];
    assert n !in at;
  }

  lemma BytesTextInjective(a: seq<Byte>, b: seq<Byte>)
    requires BytesText(a) == BytesText(b)
    ensures a == b
  {
    assert |a| == |BytesText(a)| && |b| == |BytesText(b)|;
    forall i | 0 <= i < |a| ensures a[i] == b[i] {
      assert BytesText(a)[i] == BytesText(b)[i];
    }
  }

  /** The digest stored with a file vector names the vector and, for vectors of one length, the model. */
  lemma VecShaInjective(model: string, v: Vec, model': string, u: Vec)
    requires |v| == |u| && VecSha(model, v) == VecSha(model', u)
    ensures model == model' && v == u
  {
    var a, b := BytesText(FloatCodec.Encode(v)), BytesText(FloatCodec.Encode(u));
    assert |a| == |b| && |model| == |model'|;
    assert model == (model + a)[..|model|] && model' == (model' + b)[..|model|];
    assert a == (model + a)[|model|..] && b == (model' + b)[|model|..];
    BytesTextInjective(FloatCodec.Encode(v), FloatCodec.Encode(u));
    DecodeEncode(v);
    DecodeEncode(u);
  }
}
