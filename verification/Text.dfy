/** The string functions the controllers use: trimming, ASCII case, decimal integers. */
module Text {
  /** strings.TrimSpace's white space within Latin-1. */
  predicate IsSpace(c: char) {
    c == ' ' || '\t' <= c <= '\r' || c == 0x85 as char || c == 0xA0 as char
  }

  function TrimLeft(s: string): string {
    if s != "" && IsSpace(s[0]) then TrimLeft(s[1..]) else s
  }

  function TrimRight(s: string): string {
    if s != "" && IsSpace(s[|s| - 1]) then TrimRight(s[..|s| - 1]) else s
  }

  function TrimSpace(s: string): string {
    TrimRight(TrimLeft(s))
  }

  function LowerChar(c: char): char {
    if 'A' <= c <= 'Z' then (c as int + 32) as char else c
  }

  function ToLower(s: string): (r: string)
    ensures |r| == |s|
  {
    seq(|s|, i requires 0 <= i < |s| => LowerChar(s[i]))
  }

  /** Nothing to trim at either end. */
  predicate Trimmed(s: string) {
    s == "" || (!IsSpace(s[0]) && !IsSpace(s[|s| - 1]))
  }

  lemma {:induction false} TrimLeftFixes(s: string)
    ensures var t := TrimLeft(s); t == "" || !IsSpace(t[0])
  {
    if s != "" && IsSpace(s[0]) {
      TrimLeftFixes(s[1..]);
    }
  }

  lemma {:induction false} TrimRightKeepsHead(s: string)
    requires s != "" && !IsSpace(s[0])
    ensures var t := TrimRight(s); t != "" && t[0] == s[0] && !IsSpace(t[|t| - 1])
  {
    if IsSpace(s[|s| - 1]) {
      TrimRightKeepsHead(s[..|s| - 1]);
    }
  }

  lemma TrimSpaceTrims(s: string)
    ensures Trimmed(TrimSpace(s))
  {
    TrimLeftFixes(s);
    if TrimLeft(s) != "" {
      TrimRightKeepsHead(TrimLeft(s));
    }
  }

  /** Lower case then trim, the order of resolveRequestedStage and buildStagePlan together, is stable. */
  lemma LowerKeepsTrimmed(s: string)
    requires Trimmed(s)
    ensures Trimmed(ToLower(s)) && TrimSpace(ToLower(s)) == ToLower(s) && ToLower(ToLower(s)) == ToLower(s)
  {
    forall c: char ensures IsSpace(LowerChar(c)) <==> IsSpace(c) {
    }
  }

  predicate AllSpace(s: string) {
    forall i :: 0 <= i < |s| ==> IsSpace(s[i])
  }

  lemma {:induction false} TrimLeftDrops(s: string) returns (left: string)
    ensures s == left + TrimLeft(s) && AllSpace(left)
  {
    left := "";
    if s != "" && IsSpace(s[0]) {
      left := TrimLeftDrops(s[1..]);
      left := [s[0]] + left;
    }
  }

  lemma {:induction false} TrimRightDrops(s: string) returns (right: string)
    ensures s == TrimRight(s) + right && AllSpace(right)
  {
    right := "";
    if s != "" && IsSpace(s[|s| - 1]) {
      right := TrimRightDrops(s[..|s| - 1]);
      right := right + [s[|s| - 1]];
    }
  }

  /** Trimming takes off white space at both ends, all of it, and nothing else. */
  lemma TrimSpaceDrops(s: string) returns (left: string, right: string)
    ensures s == left + TrimSpace(s) + right && AllSpace(left) && AllSpace(right) && Trimmed(TrimSpace(s))
  {
    left := TrimLeftDrops(s);
    right := TrimRightDrops(TrimLeft(s));
    TrimSpaceTrims(s);
  }

  const UPPER := "ABCDEFGHIJKLMNOPQRSTUVWXYZ"
  const LOWER := "abcdefghijklmnopqrstuvwxyz"

  lemma LowerCharMeans(c: char, k: nat)
    requires k < 26
    ensures c == UPPER[k] ==> LowerChar(c) == LOWER[k]
    ensures c !in UPPER ==> LowerChar(c) == c
  {
    assert UPPER[k] as int == 'A' as int + k && LOWER[k] as int == 'a' as int + k;
    if 'A' <= c <= 'Z' {
      assert UPPER[c as int - 'A' as int] == c;
    }
  }

  /** Lower case replaces each capital by the small letter at its place, and nothing else. */
  lemma LowerMeans(s: string, i: nat, k: nat)
    requires i < |s| && k < 26
    ensures s[i] == UPPER[k] ==> ToLower(s)[i] == LOWER[k]
    ensures s[i] !in UPPER ==> ToLower(s)[i] == s[i]
  {
    LowerCharMeans(s[i], k);
  }
}
