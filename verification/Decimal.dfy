/** Printing and parsing decimal integers, as fmt's %d and strconv.ParseInt(_, 10, 64) do. */
module Decimal {
  const MAX_INT64: int := 0x7fff_ffff_ffff_ffff
  type Int64 = x: int | -MAX_INT64 - 1 <= x <= MAX_INT64

  predicate IsDigit(c: char) {
    '0' <= c <= '9'
  }

  predicate AllDigits(s: string) {
    forall i :: 0 <= i < |s| ==> IsDigit(s[i])
  }

  function Digit(n: nat): (c: char)
    requires n < 10
    ensures IsDigit(c)
  {
    (n + '0' as int) as char
  }

  function FormatNat(n: nat): (s: string)
    ensures s != "" && AllDigits(s)
  {
    if n < 10 then [Digit(n)] else FormatNat(n / 10) + [Digit(n % 10)]
  }

  function FormatInt(n: int): string {
    if n < 0 then "-" + FormatNat(-n) else FormatNat(n)
  }

  function DigitValue(c: char): (d: nat)
    requires IsDigit(c)
    ensures d < 10
  {
    var d := c as int - '0' as int;
    d
  }

  /** The number a string of digits denotes. */
  function Value(s: string): nat
    requires AllDigits(s)
  {
    if s == "" then 0
    else
      var last := s[|s| - 1];
      assert IsDigit(last);
      10 * Value(s[..|s| - 1]) + DigitValue(last)
  }

  function Saturate(n: int): Int64 {
    if n > MAX_INT64 then MAX_INT64 else if n < -MAX_INT64 - 1 then -MAX_INT64 - 1 else n
  }

  /** Zero on a syntax error; the nearest int64 when out of range (the caller drops the error). */
  function ParseInt64(s: string): Int64 {
    var signed := s != "" && (s[0] == '-' || s[0] == '+');
    var digits := if signed then s[1..] else s;
    if digits == "" || !AllDigits(digits) then 0
    else if signed && s[0] == '-' then Saturate(0 - Value(digits))
    else Saturate(Value(digits))
  }

  lemma {:induction false} ValueOfFormat(n: nat)
    ensures Value(FormatNat(n)) == n
  {
    if n >= 10 {
      ValueOfFormat(n / 10);
      var s := FormatNat(n / 10) + [Digit(n % 10)];
      assert s[..|s| - 1] == FormatNat(n / 10);
    } else {
      assert Value("") == 0 && [Digit(n)][..0] == "";
    }
  }

  lemma ParseOfNegative(k: nat)
    requires 0 < k <= MAX_INT64 + 1
    ensures ParseInt64("-" + FormatNat(k)) == 0 - k
  {
    var s := "-" + FormatNat(k);
    assert s[1..] == FormatNat(k);
    ValueOfFormat(k);
  }

  lemma ParseOfNatural(k: nat)
    requires k <= MAX_INT64
    ensures ParseInt64(FormatNat(k)) == k
  {
    assert IsDigit(FormatNat(k)[0]);
    ValueOfFormat(k);
  }

  /** Reading back what was printed gives the number, for every int64. */
  lemma ParseOfFormat(n: int)
    requires -MAX_INT64 - 1 <= n <= MAX_INT64
    ensures ParseInt64(FormatInt(n)) == n
  {
    if n < 0 {
      ParseOfNegative(-n);
    } else {
      ParseOfNatural(n);
    }
  }

  function Distance(a: int, b: int): nat {
    if a < b then b - a else a - b
  }

  /** A printed number of any size reads as the int64 nearest to it, with or without a plus sign. */
  lemma ParseIsNearest(n: int, y: Int64)
    ensures Distance(ParseInt64(FormatInt(n)), n) <= Distance(y, n)
    ensures n >= 0 ==> ParseInt64("+" + FormatInt(n)) == ParseInt64(FormatInt(n))
  {
    if n < 0 {
      var s := "-" + FormatNat(-n);
      assert s[1..] == FormatNat(-n);
      ValueOfFormat(-n);
    } else {
      assert IsDigit(FormatNat(n)[0]);
      assert ("+" + FormatNat(n))[1..] == FormatNat(n);
      ValueOfFormat(n);
    }
  }
}
