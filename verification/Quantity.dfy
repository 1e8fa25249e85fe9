/** The quantity strings of the preemption controller (pkg/controller/preemption.go): "1500m", "3Gi". */
module Quantity {
  import opened Options
  import opened Text
  import opened Decimal
  import opened Arithmetic

  /** int64(ParseFloat(text) * multiplier) for a text or product float64 does not hold exactly. */
  type FloatUnit = (string, int) -> Int64

  const KI: int := 1024
  const MI: int := 1024 * 1024
  const GI: int := 1024 * 1024 * 1024
  const TI: int := 1024 * 1024 * 1024 * 1024
  const PI: int := 1024 * 1024 * 1024 * 1024 * 1024

  /** A whole number up to 2^53 is exact in a float64; so is its product with a multiplier when that is
      up to 2^53 too, or when the multiplier is a power of two and the product an int64. */
  predicate Exact(value: nat, product: nat, binary: bool) {
    value <= EXACT_FLOAT && (product <= EXACT_FLOAT || (binary && product <= MAX_INT64))
  }

  function FormatMillicores(n: int): string {
    if n >= 1000 && n % 1000 == 0 then FormatInt(n / 1000) else FormatInt(n) + "m"
  }

  function ParseCPU(s: string, fp: FloatUnit): Int64 {
    var t := TrimSpace(s);
    if t == "" then 0
    else if t[|t| - 1] == 'm' then ParseInt64(t[..|t| - 1])
    else if AllDigits(t) && Exact(Value(t), 1000 * Value(t), false) then 1000 * Value(t)
    else fp(t, 1000)
  }

  function FormatBytes(b: int): string {
    if b >= TI then FormatInt(b / TI) + "Ti"
    else if b >= GI then FormatInt(b / GI) + "Gi"
    else if b >= MI then FormatInt(b / MI) + "Mi"
    else if b >= KI then FormatInt(b / KI) + "Ki"
    else FormatInt(b)
  }

  function DigitsAt(s: string, i: nat): nat
    requires i <= |s|
    ensures i <= DigitsAt(s, i) <= |s|
    decreases |s| - i
  {
    if i < |s| && IsDigit(s[i]) then DigitsAt(s, i + 1) else i
  }

  function SpacesAt(s: string, i: nat): nat
    requires i <= |s|
    ensures i <= SpacesAt(s, i) <= |s|
    decreases |s| - i
  {
    if i < |s| && s[i] in {' ', '\t', '\n', '\r', 12 as char} then SpacesAt(s, i + 1) else i
  }

  /** Where the number at the start of a text ends. */
  function NumberEnd(s: string): (n: nat)
    ensures DigitsAt(s, 0) <= n <= |s|
  {
    var whole := DigitsAt(s, 0);
    if whole + 1 < |s| && s[whole] == '.' && IsDigit(s[whole + 1]) then DigitsAt(s, whole + 1) else whole
  }

  /** Where the unit at a position ends. */
  function UnitEnd(s: string, i: nat): (n: nat)
    requires i <= |s|
    ensures i <= n <= |s|
  {
    var letter := if i < |s| && s[i] in {'K', 'M', 'G', 'T', 'P', 'E'} then i + 1 else i;
    if i < letter < |s| && s[letter] == 'i' then letter + 1 else letter
  }

  /** The number and unit of ^(\d+(?:\.\d+)?)\s*([KMGTPE]i?)?[Bb]?$, if the text matches. */
  function MatchMemory(s: string): Option<(string, string)> {
    var number := NumberEnd(s);
    var unit := SpacesAt(s, number);
    var suffix := UnitEnd(s, unit);
    var end := if suffix < |s| && s[suffix] in {'B', 'b'} then suffix + 1 else suffix;
    if DigitsAt(s, 0) == 0 || end < |s| then None else Some((s[..number], s[unit..suffix]))
  }

  /** A number in a unit. Exa units pass the pattern but are missing from the table: they count as zero. */
  function Scaled(value: nat, unit: string): nat {
    match unit
    case "" => value
    case "K" => value * 1000
    case "Ki" => value * KI
    case "M" => value * 1000_000
    case "Mi" => value * MI
    case "G" => value * 1000_000_000
    case "Gi" => value * GI
    case "T" => value * 1000_000_000_000
    case "Ti" => value * TI
    case "P" => value * 1000_000_000_000_000
    case "Pi" => value * PI
    case _ => 0
  }

  predicate Binary(unit: string) {
    |unit| == 2 && unit[1] == 'i'
  }

  function ParseMemory(s: string, fp: FloatUnit): Int64 {
    var t := TrimSpace(s);
    if t == "" then 0
    else match MatchMemory(t)
      case None => ParseInt64(t)
      case Some((number, unit)) =>
        if AllDigits(number) && Exact(Value(number), Scaled(Value(number), unit), Binary(unit))
        then Scaled(Value(number), unit)
        else fp(number, Scaled(1, unit))
  }

  // ----- cpu: printing loses nothing

  lemma FormatEnds(n: int)
    ensures var s := FormatInt(n); s != "" && IsDigit(s[|s| - 1]) && (IsDigit(s[0]) || s[0] == '-')
  {
  }

  lemma TrimmedStays(s: string)
    requires Trimmed(s)
    ensures TrimSpace(s) == s
  {
  }

  /** parseCPU reads back what formatMillicores printed: for every int64, up to 2^53 for whole cores
      (which go through float64). */
  lemma CpuRoundTrip(n: Int64, fp: FloatUnit)
    requires CpuExact(n)
    ensures ParseCPU(FormatMillicores(n), fp) == n
  {
    var s := FormatMillicores(n);
    if n >= 1000 && n % 1000 == 0 {
      var k := n / 1000;
      FormatEnds(k);
      TrimmedStays(s);
      ValueOfFormat(k);
      assert s == FormatNat(k) && k * 1000 == n;
    } else {
      FormatEnds(n);
      TrimmedStays(s);
      assert s[..|s| - 1] == FormatInt(n);
      ParseOfFormat(n);
    }
  }

  // ----- memory: printing rounds down to a whole unit

  /** What survives printing and parsing. */
  function Rounded(b: int): int {
    if b >= TI then b / TI * TI
    else if b >= GI then b / GI * GI
    else if b >= MI then b / MI * MI
    else if b >= KI then b / KI * KI
    else b
  }

  lemma {:induction false} DigitsStop(digits: string, rest: string, i: nat)
    requires i <= |digits| && AllDigits(digits) && (rest != "" ==> !IsDigit(rest[0]))
    ensures DigitsAt(digits + rest, i) == |digits|
    decreases |digits| - i
  {
    if i < |digits| {
      DigitsStop(digits, rest, i + 1);
    }
  }

  predicate PrintedUnit(unit: string) {
    unit in {"", "Ki", "Mi", "Gi", "Ti"}
  }

  lemma PrintedUnitEnds(digits: string, unit: string)
    requires PrintedUnit(unit)
    ensures var s, i := digits + unit, |digits|;
            SpacesAt(s, i) == i && UnitEnd(s, i) == |s| && (i < |s| ==> s[i] != '.')
  {
    var s := digits + unit;
    assert unit != "" ==> s[|digits|] == unit[0] && s[|digits| + 1] == unit[1] == 'i' && |s| == |digits| + 2;
  }

  lemma MatchOfPrinted(k: nat, unit: string)
    requires PrintedUnit(unit)
    ensures MatchMemory(FormatNat(k) + unit) == Some((FormatNat(k), unit))
  {
    var digits := FormatNat(k);
    var s := digits + unit;
    DigitsStop(digits, unit, 0);
    PrintedUnitEnds(digits, unit);
    assert s[..|digits|] == digits && s[|digits|..|s|] == unit;
  }

  lemma ParsePrinted(k: nat, unit: string, fp: FloatUnit)
    requires PrintedUnit(unit) && Exact(k, Scaled(k, unit), Binary(unit))
    ensures ParseMemory(FormatNat(k) + unit, fp) == Scaled(k, unit)
  {
    var s := FormatNat(k) + unit;
    assert Trimmed(s);
    TrimmedStays(s);
    MatchOfPrinted(k, unit);
    ValueOfFormat(k);
  }

  /** parseMemory reads back the printed quantity, for every int64. */
  lemma MemoryRoundTrip(b: Int64, fp: FloatUnit)
    ensures ParseMemory(FormatBytes(b), fp) == Rounded(b)
  {
    if b < 0 {
      NegativePrinted(b, fp);
    } else if b < KI {
      ParsePrinted(b, "", fp);
      assert FormatInt(b) + "" == FormatInt(b);
    } else if b >= TI {
      ParsePrinted(b / TI, "Ti", fp);
    } else if b >= GI {
      ParsePrinted(b / GI, "Gi", fp);
    } else if b >= MI {
      ParsePrinted(b / MI, "Mi", fp);
    } else {
      ParsePrinted(b / KI, "Ki", fp);
    }
  }

  lemma NegativePrinted(b: Int64, fp: FloatUnit)
    requires b < 0
    ensures ParseMemory(FormatBytes(b), fp) == b
  {
    var s := FormatInt(b);
    FormatEnds(b);
    TrimmedStays(s);
    assert DigitsAt(s, 0) == 0;
    ParseOfFormat(b);
  }

  lemma FloorFacts(b: int, u: int)
    requires 0 < u <= b
    ensures var r := b / u * u; u <= r <= b < r + u && b < 2 * r && r / u == b / u >= 1
  {
    var k := b / u;
    assert b == k * u + b % u;
    QuotientOfMultiple(k, u);
    if k < 1 {
      MulMonotone(k, 0, u);
    } else {
      MulMonotone(1, k, u);
    }
  }

  function UnitOf(b: int): (u: int)
    ensures u > 0
  {
    if b >= TI then TI else if b >= GI then GI else if b >= MI then MI else if b >= KI then KI else 1
  }

  /** Rounding loses less than half, keeps the unit and settles at once. */
  lemma {:induction false} RoundedBounds(b: int)
    ensures Rounded(b) <= b && (b > 0 ==> b < 2 * Rounded(b)) && (b < KI ==> Rounded(b) == b)
    ensures Rounded(Rounded(b)) == Rounded(b)
    ensures UnitOf(Rounded(b)) == UnitOf(b) && (b >= KI ==> UnitOf(b) <= Rounded(b))
  {
    if b >= TI {
      FloorFacts(b, TI);
    } else if b >= GI {
      FloorFacts(b, GI);
    } else if b >= MI {
      FloorFacts(b, MI);
    } else if b >= KI {
      FloorFacts(b, KI);
    }
  }

  /** Printing what was read back gives the same text again. */
  lemma PrintingSettles(b: int)
    ensures FormatBytes(Rounded(b)) == FormatBytes(b)
  {
    RoundedBounds(b);
    if b >= TI {
      FloorFacts(b, TI);
    } else if b >= GI {
      FloorFacts(b, GI);
    } else if b >= MI {
      FloorFacts(b, MI);
    } else if b >= KI {
      FloorFacts(b, KI);
    }
  }

  /** Rounding never reverses an order. */
  lemma RoundedMonotone(a: int, b: int)
    requires a <= b
    ensures Rounded(a) <= Rounded(b)
  {
    RoundedBounds(a);
    RoundedBounds(b);
    if UnitOf(a) == UnitOf(b) && a >= KI {
      QuotientMonotone(a, b, UnitOf(a));
    }
  }

  lemma MultipleOf(q: int, u: int)
    requires u > 0
    ensures Multiple(q * u, u)
  {
    QuotientOfMultiple(q, u);
  }

  predicate Multiple(b: int, u: int)
    requires u > 0
  {
    b / u * u == b
  }

  /** The next printable amount after one in units of u, u not the largest unit. */
  lemma NextMultiple(b: int, u: int, bound: int)
    requires 0 < u <= b < bound && Multiple(bound, u)
    ensures Multiple(b / u * u + u, u) && b < b / u * u + u <= bound
  {
    var q, n := b / u, bound / u;
    FloorFacts(b, u);
    assert (q + 1) * u == q * u + u;
    MultipleOf(q + 1, u);
    if n < q + 1 {
      MulMonotone(n, q, u);
    } else {
      MulMonotone(q + 1, n, u);
    }
  }

  /** The smallest amount at or above b that prints without loss. */
  function RoundedUp(b: int): int {
    if Rounded(b) == b then b else Rounded(b) + UnitOf(b)
  }

  /** Between b rounded down and the next printable amount above b the unit does not change. */
  ghost predicate StepOk(b: int, u: int)
    requires u > 0
  {
    var up := b / u * u + u;
    && b < up && Rounded(up) == up && (forall x :: b <= x < up ==> UnitOf(x) == u)
  }

  lemma StepInTebibytes(b: int)
    requires b >= TI
    ensures StepOk(b, TI)
  {
    NextMultiple(b, TI, (b / TI + 1) * TI);
  }

  lemma StepInGibibytes(b: int)
    requires GI <= b < TI
    ensures StepOk(b, GI)
  {
    NextMultiple(b, GI, TI);
  }

  lemma StepInMebibytes(b: int)
    requires MI <= b < GI
    ensures StepOk(b, MI)
  {
    NextMultiple(b, MI, GI);
  }

  lemma StepInKibibytes(b: int)
    requires KI <= b < MI
    ensures StepOk(b, KI)
  {
    NextMultiple(b, KI, MI);
  }

  lemma StepStaysPrintable(b: int)
    requires b >= KI
    ensures StepOk(b, UnitOf(b)) && Rounded(b) == b / UnitOf(b) * UnitOf(b)
  {
    if b >= TI {
      StepInTebibytes(b);
    } else if b >= GI {
      StepInGibibytes(b);
    } else if b >= MI {
      StepInMebibytes(b);
    } else {
      StepInKibibytes(b);
    }
  }

  /** Rounding down and up are adjoint: what is left of x reaches b exactly when x reaches b rounded up. */
  lemma RoundingAdjoint(x: int, b: int)
    ensures Rounded(x) >= b <==> x >= RoundedUp(b)
  {
    RoundedBounds(x);
    RoundedBounds(b);
    if Rounded(b) == b {
      if x >= b {
        RoundedMonotone(b, x);
      }
    } else {
      StepStaysPrintable(b);
      var up := RoundedUp(b);
      if x >= up {
        RoundedMonotone(up, x);
      } else if b <= x {
        SameFloor(x, b, UnitOf(b));
      }
    }
  }

  lemma SameFloor(x: int, b: int, u: int)
    requires u > 0 && b / u * u <= x < b / u * u + u
    ensures x / u == b / u
  {
    QuotientIs(x, b / u, u);
  }

  /** A printable total moves by less than nothing: it grows exactly when a whole unit is added. */
  lemma GrowsExactlyWhen(held: int, t: int)
    requires 0 <= held == Rounded(held) && t >= 0
    ensures held <= Rounded(held + t) <= held + t
    ensures Rounded(held + t) > held <==> t >= UnitOf(held)
  {
    RoundedBounds(held + t);
    RoundedMonotone(held, held + t);
    if held >= KI {
      StepStaysPrintable(held);
      if t >= UnitOf(held) {
        RoundedMonotone(held + UnitOf(held), held + t);
      } else {
        SameFloor(held + t, held, UnitOf(held));
      }
    } else if t >= 1 {
      RoundedMonotone(held + 1, held + t);
    }
  }

  // ----- a running total kept in print

  /** What a total holds that is rounded after every addition. */
  function Kept(xs: seq<int>): int
    decreases |xs|
  {
    if xs == [] then 0 else Rounded(Kept(xs[..|xs| - 1]) + xs[|xs| - 1])
  }

  lemma {:induction false} KeptBounds(xs: seq<int>)
    requires NonNegative(xs)
    ensures 0 <= Kept(xs) <= Sum(xs) && Rounded(Kept(xs)) == Kept(xs)
    decreases |xs|
  {
    if xs != [] {
      var prior, x := xs[..|xs| - 1], xs[|xs| - 1];
      KeptBounds(prior);
      RoundedBounds(Kept(prior) + x);
      RoundedMonotone(Kept(prior), Kept(prior) + x);
    }
  }

  ghost predicate PartialSumsPrint(xs: seq<int>) {
    forall k :: 0 <= k <= |xs| ==> Prints(Sum(xs[..k]))
  }

  /** Printing loses nothing. */
  predicate Prints(b: int) {
    Rounded(b) == b
  }

  /** The total is the exact sum exactly when every partial sum prints without loss; what was lost once
      is never made up for. */
  lemma {:induction false} KeptExactlyWhen(xs: seq<int>)
    requires NonNegative(xs)
    ensures Kept(xs) == Sum(xs) <==> PartialSumsPrint(xs)
    decreases |xs|
  {
    if xs == [] {
      assert xs[..0] == [];
    } else {
      var n := |xs| - 1;
      KeptExactlyWhen(xs[..n]);
      KeptBounds(xs[..n]);
      RoundedBounds(Kept(xs[..n]) + xs[n]);
      PartialSumsAppend(xs);
    }
  }

  lemma PartialSumsAppend(xs: seq<int>)
    requires xs != []
    ensures PartialSumsPrint(xs) <==> PartialSumsPrint(xs[..|xs| - 1]) && Prints(Sum(xs))
  {
    assert xs[..|xs|] == xs;
    if PartialSumsPrint(xs) {
      FewerSumsPrint(xs);
      assert Prints(Sum(xs[..|xs|]));
    }
    if PartialSumsPrint(xs[..|xs| - 1]) && Prints(Sum(xs)) {
      OneSumMorePrints(xs);
    }
  }

  lemma FewerSumsPrint(xs: seq<int>)
    requires xs != [] && PartialSumsPrint(xs)
    ensures PartialSumsPrint(xs[..|xs| - 1])
  {
    var prior := xs[..|xs| - 1];
    forall k | 0 <= k <= |prior| ensures Prints(Sum(prior[..k])) {
      assert prior[..k] == xs[..k];
    }
  }

  lemma OneSumMorePrints(xs: seq<int>)
    requires xs != [] && PartialSumsPrint(xs[..|xs| - 1]) && Prints(Sum(xs))
    ensures PartialSumsPrint(xs)
  {
    var prior := xs[..|xs| - 1];
    forall k | 0 <= k <= |xs| ensures Prints(Sum(xs[..k])) {
      if k < |xs| {
        assert prior[..k] == xs[..k];
      } else {
        assert xs[..k] == xs;
      }
    }
  }

  ghost predicate HasUnit(xs: seq<int>, u: int) {
    exists i :: 0 <= i < |xs| && xs[i] >= u
  }

  lemma HasUnitAppend(xs: seq<int>, x: int, u: int)
    ensures HasUnit(xs + [x], u) <==> HasUnit(xs, u) || x >= u
  {
    var all := xs + [x];
    assert all[|xs|] == x && forall i :: 0 <= i < |xs| ==> all[i] == xs[i];
  }

  lemma KeptAppend(xs: seq<int>, x: int)
    requires NonNegative(xs) && x >= 0
    ensures NonNegative(xs + [x]) && Kept(xs) <= Kept(xs + [x])
    ensures Kept(xs + [x]) > Kept(xs) <==> x >= UnitOf(Kept(xs))
  {
    assert (xs + [x])[..|xs|] == xs;
    KeptBounds(xs);
    GrowsExactlyWhen(Kept(xs), x);
  }

  /** From any point on, the total moves exactly when some single addition reaches its unit. */
  lemma {:induction false} KeptMovesExactlyWhen(xs: seq<int>, more: seq<int>)
    requires NonNegative(xs) && NonNegative(more)
    ensures Kept(xs) <= Kept(xs + more)
    ensures Kept(xs + more) > Kept(xs) <==> HasUnit(more, UnitOf(Kept(xs)))
    decreases |more|
  {
    if more == [] {
      assert xs + more == xs;
    } else {
      var n := |more| - 1;
      assert more == more[..n] + [more[n]] && xs + more == (xs + more[..n]) + [more[n]];
      KeptMovesExactlyWhen(xs, more[..n]);
      KeptAppend(xs + more[..n], more[n]);
      HasUnitAppend(more[..n], more[n], UnitOf(Kept(xs)));
    }
  }

  // ----- the codec as its users see it

  /** Printing and reading the two kinds of quantity; the controller depends on nothing else of them. */
  datatype Codec = Codec(printCpu: int -> string, printMemory: int -> string,
                         readCpu: string -> Int64, readMemory: string -> Int64)

  /** The functions of the controller on a platform's floating point. */
  function GoCodec(fp: FloatUnit): Codec {
    Codec(n => FormatMillicores(n), b => FormatBytes(b), s => ParseCPU(s, fp), s => ParseMemory(s, fp))
  }

  /** CPU amounts that survive printing: whole cores go through float64. */
  predicate CpuExact(n: int) {
    -MAX_INT64 - 1 <= n <= MAX_INT64 && (n < 1000 || n % 1000 != 0 || n <= EXACT_FLOAT)
  }

  ghost predicate ReadsCpu(codec: Codec, n: int) {
    codec.readCpu(codec.printCpu(n)) == n
  }

  ghost predicate ReadsMemory(codec: Codec, b: int) {
    codec.readMemory(codec.printMemory(b)) == Rounded(b)
  }

  ghost predicate Faithful(codec: Codec) {
    && (forall n: int :: CpuExact(n) ==> ReadsCpu(codec, n))
    && (forall b: Int64 :: ReadsMemory(codec, b))
    && codec.readCpu("0m") == 0 && codec.readMemory("0Mi") == 0
  }

  /** What was printed is read back: CPU exactly, memory rounded down to its printed unit. */
  lemma GoCodecIsFaithful(fp: FloatUnit)
    ensures Faithful(GoCodec(fp))
  {
    forall n: int | CpuExact(n) ensures ReadsCpu(GoCodec(fp), n) {
      CpuRoundTrip(n, fp);
    }
    forall b: Int64 ensures ReadsMemory(GoCodec(fp), b) {
      MemoryRoundTrip(b, fp);
    }
    StartIsZero(fp);
  }

  lemma StartIsZero(fp: FloatUnit)
    ensures ParseCPU("0m", fp) == 0 && ParseMemory("0Mi", fp) == 0
  {
    assert "0m"[..1] == "0" && ParseInt64("0") == 0;
    ZeroMebibytes(fp);
  }

  lemma ZeroMebibytes(fp: FloatUnit)
    ensures ParseMemory("0Mi", fp) == 0
  {
    var zero := FormatNat(0);
    assert zero == "0";
    ParsePrinted(0, "Mi", fp);
    assert zero + "Mi" == "0Mi";
  }
}
