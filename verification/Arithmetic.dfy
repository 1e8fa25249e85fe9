/** Sums, and facts about products that the solver should not have to rediscover. */
module Arithmetic {
  /** Integers up to 2^53 are exact in a float64. */
  const EXACT_FLOAT: int := 0x20_0000_0000_0000

  function Sum(xs: seq<int>): int {
    if xs == [] then 0 else Sum(xs[..|xs| - 1]) + xs[|xs| - 1]
  }

  predicate NonNegative(xs: seq<int>) {
    forall i :: 0 <= i < |xs| ==> xs[i] >= 0
  }

  lemma {:induction false} SumAppend(xs: seq<int>, ys: seq<int>)
    ensures Sum(xs + ys) == Sum(xs) + Sum(ys)
    decreases |ys|
  {
    if ys == [] {
      assert xs + ys == xs;
    } else {
      assert (xs + ys)[..|xs + ys| - 1] == xs + ys[..|ys| - 1];
      SumAppend(xs, ys[..|ys| - 1]);
    }
  }

  lemma {:induction false} SumNonNegative(xs: seq<int>)
    requires NonNegative(xs)
    ensures Sum(xs) >= 0
    decreases |xs|
  {
    if xs != [] {
      SumNonNegative(xs[..|xs| - 1]);
    }
  }

  /** Sums of terms that never exceed others are equal only if all terms are. */
  lemma {:induction false} SumsCompare(xs: seq<int>, ys: seq<int>)
    requires |xs| == |ys| && forall i :: 0 <= i < |xs| ==> xs[i] <= ys[i]
    ensures Sum(xs) <= Sum(ys)
    ensures Sum(xs) == Sum(ys) <==> xs == ys
    decreases |xs|
  {
    if xs != [] {
      var n := |xs| - 1;
      SumsCompare(xs[..n], ys[..n]);
      assert xs == xs[..n] + [xs[n]] && ys == ys[..n] + [ys[n]];
    }
  }

  lemma NonNegativeProduct(x: int, k: int)
    requires x >= 0 && k >= 0
    ensures x * k >= 0
  {
  }

  lemma MulMonotone(x: int, y: int, k: int)
    requires x <= y && k >= 0
    ensures x * k <= y * k
    ensures x < y ==> x * k + k <= y * k
  {
    NonNegativeProduct(y - x, k);
    assert y * k == x * k + (y - x) * k;
    if x < y {
      NonNegativeProduct(y - x - 1, k);
      assert (y - x) * k == (y - x - 1) * k + k;
    }
  }

  lemma QuotientOfMultiple(k: int, u: int)
    requires u > 0
    ensures (k * u) / u == k
  {
    var q := (k * u) / u;
    assert k * u == q * u + (k * u) % u;
    if q < k {
      MulMonotone(q, k, u);
    } else if k < q {
      MulMonotone(k, q, u);
    }
  }

  lemma QuotientMonotone(a: int, b: int, u: int)
    requires 0 <= a <= b && u > 0
    ensures a / u <= b / u && a / u * u <= b / u * u
  {
    var p, q := a / u, b / u;
    assert a == p * u + a % u && b == q * u + b % u;
    if q < p {
      MulMonotone(q, p, u);
    } else {
      MulMonotone(p, q, u);
    }
  }

  lemma ResidueIsUnique(x: int, q: int, r: int, m: int)
    requires m > 0 && x == q * m + r && 0 <= r < m
    ensures x % m == r
  {
    var p := x / m;
    assert x == p * m + x % m;
    if p < q {
      MulMonotone(p, q, m);
    } else if q < p {
      MulMonotone(q, p, m);
    }
  }

  lemma QuotientIs(x: int, q: int, n: int)
    requires n > 0 && q * n <= x < q * n + n
    ensures x / n == q
  {
    var p := x / n;
    assert x == p * n + x % n;
    if p < q {
      MulMonotone(p, q, n);
    } else if q < p {
      MulMonotone(q, p, n);
    }
  }

  lemma QuotientStep(y: int, x: int, n: int)
    requires n > 0 && y <= x < y + n
    ensures 0 <= x / n - y / n <= 1
  {
    var q := y / n;
    assert y == q * n + y % n;
    assert (q + 1) * n == q * n + n;
    QuotientIs(x, if x < q * n + n then q else q + 1, n);
  }

  lemma BelowQuotient(x: int, k: int, n: int)
    requires n > 0 && k < x / n
    ensures k * n + n <= x
  {
    var q := x / n;
    assert x == q * n + x % n;
    MulMonotone(k, q, n);
  }

  lemma ProductReflects(x: int, y: int, k: int)
    requires x * k < y * k && k >= 0
    ensures x < y
  {
    if y <= x {
      MulMonotone(y, x, k);
    }
  }
}
