/** Memory identifiers and the evidence and link notations. */
module MemoryText {
  import opened Base
  import opened Text
  import opened Decimal

  const ID_PREFIX := "mem_"

  function Zeros(k: nat): string {
    seq(k, i => '0')
  }

  /** %03d */
  function Padded(n: nat): string {
    var d := Digits(n);
    if |d| >= 3 then d else Zeros(3 - |d|) + d
  }

  function FormatID(id: Id): string {
    ID_PREFIX + Padded(id)
  }

  function ParseID(s: string): Option<Id> {
    match ParseInt(TrimPrefix(s, ID_PREFIX))
    case Some(v) => if v > 0 then Some(v) else None
    case None => None
  }

  lemma {:induction false} LeadingZeros(k: nat, s: string)
    requires AllDigits(s)
    ensures AllDigits(Zeros(k) + s) && ValueOf(Zeros(k) + s) == ValueOf(s)
    decreases |s|, k
  {
    if s != "" {
      var n := |s| - 1;
      LeadingZeros(k, s[..n]);
      assert (Zeros(k) + s)[..k + n] == Zeros(k) + s[..n];
    } else if k > 0 {
      LeadingZeros(k - 1, s);
      assert (Zeros(k) + s)[..k - 1] == Zeros(k - 1) + s;
    }
  }

  lemma PaddedValue(n: nat)
    ensures Padded(n) != "" && AllDigits(Padded(n)) && ValueOf(Padded(n)) == n
  {
    DigitsValue(n);
    var d := Digits(n);
    if |d| < 3 {
      LeadingZeros(3 - |d|, d);
    }
  }

  lemma ParseDigits(s: string)
    requires s != "" && AllDigits(s) && ValueOf(s) <= MAX_INT64
    ensures ParseInt(s) == Some(ValueOf(s))
  {
    assert IsDigit(s[0]);
    hide ValueOf;
  }

  /** Every id the store can hold survives formatting and parsing. */
  lemma ParseFormatID(n: Id)
    requires 0 < n <= MAX_INT64
    ensures ParseID(FormatID(n)) == Some(n)
  {
    assert TrimPrefix(FormatID(n), ID_PREFIX) == Padded(n);
    PaddedValue(n);
    ParseDigits(Padded(n));
    hide Padded, ParseInt, ValueOf, AllDigits;
  }

  lemma {:induction false} NoLeadingZero(n: nat)
    requires n > 0
    ensures Digits(n) != "" && Digits(n)[0] != '0'
  {
    if n >= 10 {
      NoLeadingZero(n / 10);
    }
  }

  /** mem_ and the decimal number, padded with zeros to three digits and no more. */
  lemma FormatIDShape(n: Id)
    requires 0 < n
    ensures var s := FormatID(n);
            && |s| >= 7 && s[..4] == "mem_" && AllDigits(s[4..]) && ValueOf(s[4..]) == n
            && (|s| > 7 ==> s[4] != '0')
  {
    PaddedValue(n);
    NoLeadingZero(n);
    assert FormatID(n)[4..] == Padded(n);
    hide Digits, ValueOf, AllDigits;
  }

  datatype EvidenceSpec = EvidenceSpec(path: string, start: int, end: int)

  function ParseRange(rng: string): Option<(int, int)> {
    var dash := IndexByte(rng, '-');
    if dash >= 0 then
      match (ParseInt(rng[..dash]), ParseInt(rng[dash + 1..]))
      case (Some(start), Some(end)) => if start <= 0 || end < start then None else Some((start, end))
      case _ => None
    else
      match ParseInt(rng)
      case Some(n) => if n <= 0 then None else Some((n, n))
      case None => None
  }

  /** path:start-end or path:start, cut at the last colon. */
  function ParseEvidence(s: string): Option<EvidenceSpec> {
    var i := LastIndexByte(s, ':');
    if i <= 0 || i == |s| - 1 then None
    else
      match ParseRange(s[i + 1..])
      case Some(r) => Some(EvidenceSpec(s[..i], r.0, r.1))
      case None => None
  }

  function RangeText(start: int, end: int): string {
    FormatInt(start) + "-" + FormatInt(end)
  }

  lemma ParseRangeText(start: int, end: int)
    requires 0 < start <= end <= MAX_INT64
    ensures ParseRange(RangeText(start, end)) == Some((start, end))
  {
    var s := RangeText(start, end);
    DigitsFree(start, '-');
    assert s[|FormatInt(start)|] == '-';
    var dash := IndexByte(s, '-');
    assert s == s[..dash] + ['-'] + s[dash + 1..];
    CutUnique(FormatInt(start), FormatInt(end), s[..dash], s[dash + 1..], '-');
    ParseFormatInt(start);
    ParseFormatInt(end);
  }

  lemma RangeTextFree(start: int, end: int, c: char)
    requires !IsDigit(c) && c != '-'
    ensures c !in RangeText(start, end)
  {
    FormatIntFree(start, c);
    FormatIntFree(end, c);
  }

  /** Any path, also one with colons and dashes, comes back with its range. */
  lemma ParseEvidenceText(path: string, start: int, end: int)
    requires path != "" && 0 < start <= end <= MAX_INT64
    ensures ParseEvidence(path + ":" + RangeText(start, end)) == Some(EvidenceSpec(path, start, end))
  {
    var rng := RangeText(start, end);
    var s := path + ":" + rng;
    RangeTextFree(start, end, ':');
    assert s[|path|] == ':';
    var i := LastIndexByte(s, ':');
    assert s == s[..i] + [':'] + s[i + 1..];
    LastCutUnique(path, rng, s[..i], s[i + 1..], ':');
    ParseRangeText(start, end);
    assert rng != "";
  }

  lemma ParsedRange(rng: string)
    ensures ParseRange(rng).Some? ==> 0 < ParseRange(rng).value.0 <= ParseRange(rng).value.1
  {
    hide ParseInt;
  }

  /** Every accepted value is a non-empty path, a colon, and a range of positive lines without a colon. */
  lemma ParsedEvidence(s: string)
    requires ParseEvidence(s).Some?
    ensures var e := ParseEvidence(s).value;
            && e.path != "" && 0 < e.start <= e.end
            && exists rng :: s == e.path + ":" + rng && ':' !in rng && ParseRange(rng) == Some((e.start, e.end))
  {
    hide ParseRange;
    var i := LastIndexByte(s, ':');
    ParsedRange(s[i + 1..]);
    assert s == s[..i] + ":" + s[i + 1..];
  }

  datatype LinkSpec = LinkSpec(kind: string, ref: string)

  /** file:<path> or symbol:<name>, cut at the first colon. */
  function ParseLink(s: string): Option<LinkSpec> {
    var i := IndexByte(s, ':');
    if i < 0 then None
    else
      var kind, ref := s[..i], s[i + 1..];
      if ref == "" || (kind != "file" && kind != "symbol") then None else Some(LinkSpec(kind, ref))
  }

  lemma ParseLinkExact(s: string, l: LinkSpec)
    ensures ParseLink(s) == Some(l) <==> s == l.kind + ":" + l.ref && l.ref != "" && l.kind in ["file", "symbol"]
  {
    var i := IndexByte(s, ':');
    if s == l.kind + ":" + l.ref && l.ref != "" && l.kind in ["file", "symbol"] {
      assert ':' !in l.kind;
      assert s[|l.kind|] == ':';
      assert s == s[..i] + [':'] + s[i + 1..];
      CutUnique(l.kind, l.ref, s[..i], s[i + 1..], ':');
    }
    if i >= 0 {
      assert s == s[..i] + ":" + s[i + 1..];
    }
  }
}
