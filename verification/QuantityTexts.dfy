/** What the texts parseMemory and parseCPU accept mean, by the grammar and the powers behind the unit
    letters (pkg/controller/preemption.go). */
module QuantityTexts {
  import opened Options
  import opened Text
  import opened Arithmetic
  import opened Decimal
  import opened Quantity

  // ----- units

  function Power(base: nat, exponent: nat): nat {
    if exponent == 0 then 1 else base * Power(base, exponent - 1)
  }

  const LETTERS := "KMGTPE"

  predicate KnownUnit(unit: string) {
    unit == "" || (1 <= |unit| <= 2 && unit[0] in LETTERS && (|unit| == 2 ==> unit[1] == 'i'))
  }

  function IndexOf(s: string, c: char): (i: nat)
    requires c in s
    ensures i < |s| && s[i] == c
  {
    if s[0] == c then 0 else 1 + IndexOf(s[1..], c)
  }

  /** What a unit is worth by its letter's place in the row: a power of 1000, or of 1024 with an i. */
  function Worth(unit: string): nat
    requires KnownUnit(unit)
  {
    if unit == "" then 1 else Power(if |unit| == 2 then 1024 else 1000, IndexOf(LETTERS, unit[0]) + 1)
  }

  /** The units the code's table misses. */
  predicate Exa(unit: string) {
    unit == "E" || unit == "Ei"
  }

  lemma Powers(base: nat)
    ensures Power(base, 1) == base && Power(base, 2) == base * base && Power(base, 3) == base * (base * base)
    ensures Power(base, 4) == base * Power(base, 3) && Power(base, 5) == base * Power(base, 4)
    ensures Power(base, 6) == base * Power(base, 5)
  {
    assert Power(base, 1) == base * Power(base, 0);
  }

  lemma Places()
    ensures IndexOf(LETTERS, 'K') == 0 && IndexOf(LETTERS, 'M') == 1 && IndexOf(LETTERS, 'G') == 2
    ensures IndexOf(LETTERS, 'T') == 3 && IndexOf(LETTERS, 'P') == 4 && IndexOf(LETTERS, 'E') == 5
  {
    assert LETTERS[0] == 'K' && LETTERS[1] == 'M' && LETTERS[2] == 'G' && LETTERS[3] == 'T' && LETTERS[4] == 'P';
  }

  lemma DecimalWorths()
    ensures Worth("K") == 1000 && Worth("M") == 1000_000 && Worth("G") == 1000_000_000
    ensures Worth("T") == 1000_000_000_000 && Worth("P") == 1000_000_000_000_000 && Worth("E") > 0
  {
    Powers(1000);
    Places();
  }

  lemma BinaryWorths()
    ensures Worth("Ki") == KI && Worth("Mi") == MI && Worth("Gi") == GI && Worth("Ti") == TI && Worth("Pi") == PI
    ensures Worth("Ei") > 0
  {
    Powers(1024);
    Places();
  }

  lemma ScaledByWorth(value: nat, unit: string)
    requires KnownUnit(unit)
    ensures Worth(unit) > 0 && Scaled(value, unit) == if Exa(unit) then 0 else value * Worth(unit)
  {
    DecimalWorths();
    BinaryWorths();
    if |unit| == 1 {
      assert unit == [unit[0]];
    } else if |unit| == 2 {
      assert unit == [unit[0], unit[1]];
    }
  }

  // ----- the pattern

  /** Digits, with or without a fraction. */
  ghost predicate IsNumber(s: string) {
    (s != "" && AllDigits(s)) || exists k :: PointAt(s, k)
  }

  predicate PointAt(s: string, k: int) {
    0 < k < |s| - 1 && s[k] == '.' && AllDigits(s[..k]) && AllDigits(s[k + 1..])
  }

  predicate IsBlank(c: char) {
    c in {' ', '\t', '\n', '\r', 12 as char}
  }

  /** The parts of a text that ^(\d+(?:\.\d+)?)\s*([KMGTPE]i?)?[Bb]?$ accepts. */
  ghost predicate Written(number: string, spaces: string, unit: string, suffix: string) {
    && IsNumber(number) && (forall i :: 0 <= i < |spaces| ==> IsBlank(spaces[i]))
    && KnownUnit(unit) && suffix in {"", "B", "b"}
  }

  lemma {:induction false} DigitsUpTo(s: string, i: nat, j: nat)
    requires i <= j <= |s| && (forall k :: i <= k < j ==> IsDigit(s[k])) && (j < |s| ==> !IsDigit(s[j]))
    ensures DigitsAt(s, i) == j
    decreases j - i
  {
    if i < j {
      DigitsUpTo(s, i + 1, j);
    }
  }

  lemma {:induction false} BlanksUpTo(s: string, i: nat, j: nat)
    requires i <= j <= |s| && (forall k :: i <= k < j ==> IsBlank(s[k])) && (j < |s| ==> !IsBlank(s[j]))
    ensures SpacesAt(s, i) == j
    decreases j - i
  {
    if i < j {
      BlanksUpTo(s, i + 1, j);
    }
  }

  lemma NumberStops(number: string, rest: string)
    requires IsNumber(number) && (rest != "" ==> !IsDigit(rest[0]) && rest[0] != '.')
    ensures NumberEnd(number + rest) == |number| && DigitsAt(number + rest, 0) > 0
  {
    var s := number + rest;
    if AllDigits(number) {
      DigitsUpTo(s, 0, |number|);
    } else {
      var k :| PointAt(number, k);
      assert forall i :: 0 <= i < k ==> s[i] == number[..k][i];
      assert forall i :: k + 1 <= i < |number| ==> s[i] == number[k + 1..][i - k - 1];
      DigitsUpTo(s, 0, k);
      DigitsUpTo(s, k + 1, |number|);
    }
  }

  lemma UnitStops(s: string, i: nat, unit: string, suffix: string)
    requires i <= |s| && s[i..] == unit + suffix && KnownUnit(unit) && suffix in {"", "B", "b"}
    ensures UnitEnd(s, i) == i + |unit|
    ensures |s| == i + |unit| + |suffix| && (suffix != "" ==> s[i + |unit|] in {'B', 'b'})
  {
    assert |s| == i + |unit| + |suffix|;
    assert forall k :: i <= k < |s| ==> s[k] == (unit + suffix)[k - i];
  }

  /** The pattern accepts every text so written, and takes its number and its unit. */
  lemma PatternTakes(number: string, spaces: string, unit: string, suffix: string)
    requires Written(number, spaces, unit, suffix)
    ensures MatchMemory(number + spaces + unit + suffix) == Some((number, unit))
  {
    var s, m := number + spaces + unit + suffix, |number| + |spaces|;
    PartsOf(number, spaces, unit, suffix);
    UnitStops(s, m, unit, suffix);
    RestStarts(unit, suffix);
    NumberThenSpaces(number, spaces, unit + suffix);
    MatchOfParts(s, |number|, m, m + |unit|);
  }

  lemma PartsOf(number: string, spaces: string, unit: string, suffix: string)
    ensures var s, m := number + spaces + unit + suffix, |number| + |spaces|;
            && s == number + (spaces + (unit + suffix)) && s[m..] == unit + suffix
            && s[..|number|] == number && s[m..m + |unit|] == unit
  {
  }

  lemma RestStarts(unit: string, suffix: string)
    requires KnownUnit(unit) && suffix in {"", "B", "b"}
    ensures var rest := unit + suffix; rest != "" ==> !IsDigit(rest[0]) && rest[0] != '.' && !IsBlank(rest[0])
  {
  }

  lemma MatchOfParts(s: string, n: nat, m: nat, e: nat)
    requires NumberEnd(s) == n && DigitsAt(s, 0) > 0 && SpacesAt(s, n) == m && UnitEnd(s, m) == e
    requires e < |s| ==> s[e] in {'B', 'b'} && |s| == e + 1
    ensures MatchMemory(s) == Some((s[..n], s[m..e]))
  {
  }

  lemma NumberThenSpaces(number: string, spaces: string, rest: string)
    requires IsNumber(number) && forall i :: 0 <= i < |spaces| ==> IsBlank(spaces[i])
    requires rest != "" ==> !IsDigit(rest[0]) && rest[0] != '.' && !IsBlank(rest[0])
    ensures var s := number + (spaces + rest);
            NumberEnd(s) == |number| && DigitsAt(s, 0) > 0 && SpacesAt(s, |number|) == |number| + |spaces|
  {
    NumberStops(number, spaces + rest);
    SpacesAfter(number, spaces, rest);
  }

  lemma SpacesAfter(number: string, spaces: string, rest: string)
    requires (forall i :: 0 <= i < |spaces| ==> IsBlank(spaces[i])) && (rest != "" ==> !IsBlank(rest[0]))
    ensures SpacesAt(number + (spaces + rest), |number|) == |number| + |spaces|
  {
    var s, n := number + (spaces + rest), |number|;
    assert forall i :: n <= i < n + |spaces| ==> s[i] == spaces[i - n];
    BlanksUpTo(s, n, n + |spaces|);
  }

  lemma {:induction false} DigitsFound(s: string, i: nat)
    requires i <= |s|
    ensures forall k :: i <= k < DigitsAt(s, i) ==> IsDigit(s[k])
    decreases |s| - i
  {
    if i < |s| && IsDigit(s[i]) {
      DigitsFound(s, i + 1);
    }
  }

  lemma {:induction false} BlanksFound(s: string, i: nat)
    requires i <= |s|
    ensures forall k :: i <= k < SpacesAt(s, i) ==> IsBlank(s[k])
    decreases |s| - i
  {
    if i < |s| && IsBlank(s[i]) {
      BlanksFound(s, i + 1);
    }
  }

  lemma NumberFound(s: string)
    requires DigitsAt(s, 0) > 0
    ensures IsNumber(s[..NumberEnd(s)])
  {
    var whole, n := DigitsAt(s, 0), NumberEnd(s);
    DigitsFound(s, 0);
    if n != whole {
      DigitsFound(s, whole + 1);
      assert PointAt(s[..n], whole);
    }
  }

  lemma FourParts(s: string, i: nat, j: nat, k: nat)
    requires i <= j <= k <= |s|
    ensures s == s[..i] + s[i..j] + s[j..k] + s[k..]
  {
  }

  lemma UnitFound(s: string, i: nat)
    requires i <= |s|
    ensures KnownUnit(s[i..UnitEnd(s, i)])
  {
  }

  lemma RestIsSuffix(s: string, i: nat)
    requires i <= |s| && (i < |s| ==> s[i] in {'B', 'b'} && |s| == i + 1)
    ensures s[i..] in {"", "B", "b"}
  {
    assert s[i..] == if i < |s| then [s[i]] else "";
  }

  /** It accepts no other text. */
  lemma PatternRejects(s: string) returns (spaces: string, suffix: string)
    requires MatchMemory(s).Some?
    ensures var (number, unit) := MatchMemory(s).value;
            Written(number, spaces, unit, suffix) && s == number + spaces + unit + suffix
  {
    var n := NumberEnd(s);
    var m := SpacesAt(s, n);
    var e := UnitEnd(s, m);
    NumberFound(s);
    BlanksFound(s, n);
    UnitFound(s, m);
    RestIsSuffix(s, e);
    FourParts(s, n, m, e);
    spaces, suffix := s[n..m], s[e..];
    assert MatchMemory(s) == Some((s[..n], s[m..e]));
    assert forall i :: 0 <= i < |spaces| ==> spaces[i] == s[n + i];
  }

  // ----- reading

  /** float64 holds the number and what it amounts to. */
  predicate InExactRange(value: nat, unit: string)
    requires KnownUnit(unit)
  {
    value <= EXACT_FLOAT && (Exa(unit) || Exact(value, value * Worth(unit), Binary(unit)))
  }

  /** For any text the pattern accepts with a whole number, within the range float64 holds exactly:
      parseMemory gives number times unit exactly when the number is zero or the unit is not an exa unit;
      those read as zero. */
  lemma UnitsReadExactlyWhen(s: string, number: string, spaces: string, unit: string, suffix: string, fp: FloatUnit)
    requires TrimSpace(s) == number + spaces + unit + suffix && Written(number, spaces, unit, suffix)
    requires AllDigits(number) && InExactRange(Value(number), unit)
    ensures Exa(unit) ==> ParseMemory(s, fp) == 0
    ensures ParseMemory(s, fp) == Value(number) * Worth(unit) <==> Value(number) == 0 || !Exa(unit)
  {
    PatternTakes(number, spaces, unit, suffix);
    ScaledByWorth(Value(number), unit);
    NumberNotEmpty(number);
    if Value(number) > 0 {
      PositiveProduct(Value(number), Worth(unit));
    }
  }

  /** Any other number is left to float64, with the worth of its unit as the factor, or zero for exa units. */
  lemma OtherNumbersAreScaled(s: string, number: string, spaces: string, unit: string, suffix: string, fp: FloatUnit)
    requires TrimSpace(s) == number + spaces + unit + suffix && Written(number, spaces, unit, suffix)
    requires AllDigits(number) ==> !InExactRange(Value(number), unit)
    ensures ParseMemory(s, fp) == fp(number, if Exa(unit) then 0 else Worth(unit))
  {
    PatternTakes(number, spaces, unit, suffix);
    NumberNotEmpty(number);
    ScaledByWorth(1, unit);
    if AllDigits(number) {
      ScaledByWorth(Value(number), unit);
    }
  }

  lemma NumberNotEmpty(number: string)
    requires IsNumber(number)
    ensures number != ""
  {
  }

  lemma PositiveProduct(x: int, y: int)
    requires x > 0 && y > 0
    ensures x * y > 0
  {
  }

  /** CPU texts: millicores with an m, cores without. */
  lemma CpuTextsRead(s: string, n: int, fp: FloatUnit)
    requires -MAX_INT64 - 1 <= n <= MAX_INT64
    ensures TrimSpace(s) == FormatInt(n) + "m" ==> ParseCPU(s, fp) == n
    ensures TrimSpace(s) == FormatInt(n) && 0 <= n && 1000 * n <= EXACT_FLOAT ==> ParseCPU(s, fp) == 1000 * n
  {
    FormatEnds(n);
    ParseOfFormat(n);
    if TrimSpace(s) == FormatInt(n) + "m" {
      assert TrimSpace(s)[..|TrimSpace(s)| - 1] == FormatInt(n);
    }
    if n >= 0 {
      ValueOfFormat(n);
    }
  }

  // ----- printing

  /** Whole cores are printed as cores, everything else in millicores. */
  lemma CpuIsPrinted(n: int, cores: int)
    ensures n == 1000 * cores && cores >= 1 ==> FormatMillicores(n) == FormatInt(cores)
    ensures (n <= 0 || n % 1000 != 0) ==> FormatMillicores(n) == FormatInt(n) + "m"
  {
  }

  /** Memory is printed in the largest of the units up to Ti that it reaches, as a whole number, rounded down. */
  lemma MemoryIsPrinted(b: nat) returns (k: nat, unit: string)
    ensures unit in {"", "Ki", "Mi", "Gi", "Ti"} && FormatBytes(b) == FormatNat(k) + unit
    ensures k * Worth(unit) <= b < k * Worth(unit) + Worth(unit)
    ensures (k >= 1 || unit == "") && (k < 1024 || unit == "Ti")
  {
    BinaryWorths();
    if b >= TI {
      unit := "Ti";
      k := InUnit(b, TI);
    } else if b >= GI {
      unit := "Gi";
      k := InUnit(b, GI);
    } else if b >= MI {
      unit := "Mi";
      k := InUnit(b, MI);
    } else if b >= KI {
      unit := "Ki";
      k := InUnit(b, KI);
    } else {
      k, unit := b, "";
      assert FormatNat(k) + "" == FormatNat(k);
    }
  }

  lemma InUnit(b: nat, worth: nat) returns (k: nat)
    requires 0 < worth <= b
    ensures k == b / worth >= 1 && k * worth <= b < k * worth + worth
    ensures b < 1024 * worth ==> k < 1024
  {
    k := b / worth;
    FloorFacts(b, worth);
    if k >= 1024 {
      MulMonotone(1024, k, worth);
    }
  }
}
