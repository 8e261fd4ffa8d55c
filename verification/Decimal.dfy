/** Decimal integers as fmt writes them and strconv reads them. */
module Decimal {
  import opened Base

  const MAX_INT64 := 0x7fff_ffff_ffff_ffff

  predicate IsDigit(c: char) {
    '0' <= c <= '9'
  }

  predicate AllDigits(s: string) {
    forall i :: 0 <= i < |s| ==> IsDigit(s[i])
  }

  function DigitChar(d: nat): char
    requires d < 10
  {
    (d + '0' as int) as char
  }

  function Digits(n: nat): string {
    if n < 10 then [DigitChar(n)] else Digits(n / 10) + [DigitChar(n % 10)]
  }

  function ValueOf(s: string): nat
    requires AllDigits(s)
  {
    if s == "" then 0 else ValueOf(s[..|s| - 1]) * 10 + (s[|s| - 1] as int - '0' as int)
  }

  lemma {:induction false} DigitsValue(n: nat)
    ensures AllDigits(Digits(n)) && ValueOf(Digits(n)) == n && Digits(n) != ""
  {
    if n < 10 {
      assert Digits(n)[..0] == "";
    } else {
      DigitsValue(n / 10);
      assert Digits(n)[..|Digits(n)| - 1] == Digits(n / 10);
    }
  }

  function FormatInt(n: int): string {
    if n < 0 then "-" + Digits(-n) else Digits(n)
  }

  /** strconv.ParseInt(s, 10, 64). */
  function ParseInt(s: string): Option<int> {
    if s == "" then None
    else
      var neg := s[0] == '-';
      var digits := if neg || s[0] == '+' then s[1..] else s;
      if digits == "" || !AllDigits(digits) then None
      else
        var v: int := ValueOf(digits);
        if neg then (if v > MAX_INT64 + 1 then None else Some(-v))
        else if v > MAX_INT64 then None
        else Some(v)
  }

  lemma ParseFormatInt(n: int)
    requires -MAX_INT64 - 1 <= n <= MAX_INT64
    ensures ParseInt(FormatInt(n)) == Some(n)
  {
    var m := if n < 0 then -n else n;
    DigitsValue(m);
    assert IsDigit(Digits(m)[0]);
    if n < 0 {
      assert FormatInt(n)[1..] == Digits(m);
    }
  }

  lemma DigitsFree(n: nat, c: char)
    requires !IsDigit(c)
    ensures c !in Digits(n)
  {
    DigitsValue(n);
  }

  lemma FormatIntFree(n: int, c: char)
    requires !IsDigit(c) && c != '-'
    ensures c !in FormatInt(n)
  {
    DigitsFree(if n < 0 then -n else n, c);
  }

  /** A sign shows in the first character. */
  lemma FormatIntSign(n: int)
    ensures FormatInt(n) != "" && (FormatInt(n)[0] == '-' <==> n < 0)
  {
    DigitsValue(if n < 0 then -n else n);
    assert n >= 0 ==> IsDigit(FormatInt(n)[0]);
  }

  lemma FormatIntInjective(a: int, b: int)
    requires FormatInt(a) == FormatInt(b)
    ensures a == b
  {
    FormatIntSign(a);
    FormatIntSign(b);
    var m, n := if a < 0 then -a else a, if b < 0 then -b else b;
    DigitsValue(m);
    DigitsValue(n);
    if a < 0 {
      assert Digits(m) == FormatInt(a)[1..] && Digits(n) == FormatInt(b)[1..];
    }
  }
}
