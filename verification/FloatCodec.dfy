/** The float32 blob format of the vector table: little-endian, four bytes a component. */
module FloatCodec {
  type Byte = b: int | 0 <= b < 256
  /** The bit pattern of a float32. */
  type Float32 = w: int | 0 <= w < 0x1_0000_0000

  type Vec = seq<Float32>

  function PutUint32(w: Float32): (b: seq<Byte>)
    ensures |b| == 4
  {
    [w % 256, w / 256 % 256, w / 65536 % 256, w / 16777216]
  }

  function Uint32(b: seq<Byte>): Float32
    requires |b| == 4
  {
    var w: int := b[0] as int + 256 * b[1] as int + 65536 * b[2] as int + 16777216 * b[3] as int;
    w
  }

  function Encode(v: Vec): (blob: seq<Byte>)
    ensures |blob| == 4 * |v|
  {
    if v == [] then [] else Encode(v[..|v| - 1]) + PutUint32(v[|v| - 1])
  }

  /** A trailing part of fewer than four bytes is ignored. */
  function Decode(blob: seq<Byte>): (v: Vec)
    ensures |v| == |blob| / 4
  {
    seq(|blob| / 4, i requires 0 <= i < |blob| / 4 => Uint32(blob[4 * i..4 * i + 4]))
  }

  lemma WordRoundTrip(w: Float32)
    ensures Uint32(PutUint32(w)) == w
  {
    var a, b, c := w / 256, w / 65536, w / 16777216;
    assert b == a / 256 && c == b / 256;
  }

  lemma {:induction false} DecodeEncode(v: Vec)
    ensures Decode(Encode(v)) == v
  {
    if v != [] {
      var n := |v| - 1;
      DecodeEncode(v[..n]);
      WordRoundTrip(v[n]);
      DecodeSnoc(Encode(v[..n]), PutUint32(v[n]));
      assert v == v[..n] + [v[n]];
    }
  }

  /** A further word is a further component. */
  lemma DecodeSnoc(blob: seq<Byte>, word: seq<Byte>)
    requires |blob| % 4 == 0 && |word| == 4
    ensures Decode(blob + word) == Decode(blob) + [Uint32(word)]
  {
    hide Uint32;
    var all, n := blob + word, |blob| / 4;
    assert all[4 * n..4 * n + 4] == word;
    forall i | 0 <= i < n ensures Decode(all)[i] == Decode(blob)[i] {
      assert all[4 * i..4 * i + 4] == blob[4 * i..4 * i + 4];
    }
  }

  /** Little-endian: the bytes of a component, least significant first, four bytes behind those of the one before it. */
  lemma {:induction false} EncodeBytes(v: Vec, i: nat)
    requires i < |v|
    ensures var b := Encode(v);
            v[i] as int == b[4 * i] as int + 256 * b[4 * i + 1] as int + 65536 * b[4 * i + 2] as int + 16777216 * b[4 * i + 3] as int
  {
    var n := |v| - 1;
    if i < n {
      EncodeBytes(v[..n], i);
    } else {
      WordRoundTrip(v[n]);
      assert Encode(v)[4 * n..4 * n + 4] == PutUint32(v[n]);
    }
  }

  method SerializeFloat32(v: Vec) returns (blob: seq<Byte>)
    ensures blob == Encode(v)
  {
    var a := new Byte[|v| * 4];
    var i := 0;
    while i < |v|
      invariant 0 <= i <= |v|
      invariant a[..4 * i] == Encode(v[..i])
    {
      var w := v[i];
      a[4 * i], a[4 * i + 1], a[4 * i + 2], a[4 * i + 3] := w % 256, w / 256 % 256, w / 65536 % 256, w / 16777216;
      assert v[..i + 1][..i] == v[..i];
      assert a[..4 * (i + 1)] == a[..4 * i] + PutUint32(w);
      i := i + 1;
    }
    assert v[..i] == v;
    blob := a[..];
  }

  method DeserializeFloat32(blob: seq<Byte>) returns (v: Vec)
    ensures v == Decode(blob)
  {
    var a := new Float32[|blob| / 4];
    var i := 0;
    while i < a.Length
      invariant 0 <= i <= a.Length
      invariant forall k :: 0 <= k < i ==> a[k] == Decode(blob)[k]
    {
      a[i] := Uint32(blob[4 * i..4 * i + 4]);
      i := i + 1;
    }
    v := a[..];
  }
}
