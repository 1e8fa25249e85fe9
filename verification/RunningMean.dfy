/** The average duration kept by completeMigration: an integer mean updated in place. */
module RunningMean {
  import opened Arithmetic

  /** Go's integer division, which truncates toward zero. */
  function GoDiv(a: int, b: int): int
    requires b > 0
  {
    if a >= 0 then a / b else -((-a) / b)
  }

  /** The stored average after one more duration; n counts that one too. */
  function Update(average: int, n: int, duration: int): int
    requires n > 0
  {
    GoDiv(average * (n - 1) + duration, n)
  }

  /** The stored average after a sequence of durations. */
  function Average(ds: seq<int>): int {
    if ds == [] then 0 else Update(Average(ds[..|ds| - 1]), |ds|, ds[|ds| - 1])
  }

  function Abs(x: int): nat {
    if x < 0 then -x else x
  }

  lemma EuclideanBounds(a: nat, b: int)
    requires b > 0
    ensures 0 <= a - (a / b) * b <= b - 1
  {
    assert a == b * (a / b) + a % b;
  }

  lemma GoDivBounds(a: int, b: int)
    requires b > 0
    ensures var r := a - GoDiv(a, b) * b; -(b - 1) <= r <= b - 1 && (a >= 0 ==> r >= 0) && (a <= 0 ==> r <= 0)
  {
    if a >= 0 {
      EuclideanBounds(a, b);
    } else {
      EuclideanBounds(-a, b);
      var p := (-a) / b;
      assert (-p) * b == -(p * b);
    }
  }

  lemma GoDivNonNegative(a: nat, b: int)
    requires b > 0
    ensures GoDiv(a, b) >= 0
  {
  }

  lemma ErrorAdds(k: int, n: int, sum: int, average: int, d: int, q: int)
    requires n == k + 1
    ensures (sum + d) - n * q == (sum - k * average) + ((average * k + d) - q * n)
    ensures n * (n - 1) == k * (k - 1) + 2 * k
  {
  }

  lemma ErrorStep(k: nat, n: nat, sum: int, average: int, d: int)
    requires n == k + 1 && 2 * Abs(sum - k * average) <= k * (k - 1)
    ensures 2 * Abs((sum + d) - n * Update(average, n, d)) <= n * (n - 1)
  {
    GoDivBounds(average * k + d, n);
    ErrorAdds(k, n, sum, average, d, Update(average, n, d));
  }

  lemma UnderstatesStep(k: nat, n: nat, sum: int, average: int, d: int)
    requires n == k + 1 && d >= 0 && average >= 0 && k * average <= sum
    ensures 0 <= Update(average, n, d) && n * Update(average, n, d) <= sum + d
  {
    NonNegativeProduct(average, k);
    GoDivBounds(average * k + d, n);
    GoDivNonNegative(average * k + d, n);
    ErrorAdds(k, n, sum, average, d, Update(average, n, d));
  }

  /** The exact error bound: after n durations the average is off by at most (n - 1) / 2, and for
      non-negative durations it never overstates. */
  lemma {:induction false} MeanError(ds: seq<int>)
    ensures 2 * Abs(Sum(ds) - |ds| * Average(ds)) <= |ds| * (|ds| - 1)
    ensures (forall i :: 0 <= i < |ds| ==> ds[i] >= 0) ==> 0 <= Average(ds) && |ds| * Average(ds) <= Sum(ds)
  {
    if ds != [] {
      var n, prior, d := |ds|, ds[..|ds| - 1], ds[|ds| - 1];
      MeanError(prior);
      ErrorStep(|prior|, n, Sum(prior), Average(prior), d);
      if forall i :: 0 <= i < |ds| ==> ds[i] >= 0 {
        UnderstatesStep(|prior|, n, Sum(prior), Average(prior), d);
      }
    }
  }

  lemma GoDivBetween(a: int, b: int, low: int, high: int)
    requires b > 0 && low * b <= a <= high * b
    ensures low <= GoDiv(a, b) <= high
  {
    var q := GoDiv(a, b);
    GoDivBounds(a, b);
    if q < low {
      MulMonotone(q, low, b);
    } else if high < q {
      MulMonotone(high, q, b);
    }
  }

  /** The average stays between the smallest and the largest duration. */
  lemma {:induction false} MeanBetween(ds: seq<int>, low: int, high: int)
    requires ds != [] && forall i :: 0 <= i < |ds| ==> low <= ds[i] <= high
    ensures low <= Average(ds) <= high
  {
    var n, prior, d := |ds|, ds[..|ds| - 1], ds[|ds| - 1];
    if n == 1 {
      FirstAverage(d);
    } else {
      MeanBetween(prior, low, high);
      BetweenStep(|prior|, n, Average(prior), d, low, high);
    }
  }

  lemma FirstAverage(d: int)
    ensures Update(0, 1, d) == d
  {
  }

  lemma Distribute(x: int, k: int)
    ensures x * (k + 1) == x * k + x
  {
  }

  lemma BetweenStep(k: nat, n: nat, average: int, d: int, low: int, high: int)
    requires n == k + 1 && low <= average <= high && low <= d <= high
    ensures low <= Update(average, n, d) <= high
  {
    MulMonotone(low, average, k);
    MulMonotone(average, high, k);
    Distribute(low, k);
    Distribute(high, k);
    GoDivBetween(average * k + d, n, low, high);
  }

  /** Durations 0, 1, .., n - 1. */
  function Staircase(n: nat): seq<int> {
    if n == 0 then [] else Staircase(n - 1) + [n - 1]
  }

  /** The bound is attained for every n: the staircase reports 0 while its mean is (n - 1) / 2. */
  lemma {:induction false} ErrorBoundIsTight(n: nat)
    ensures |Staircase(n)| == n && Average(Staircase(n)) == 0 && 2 * Sum(Staircase(n)) == n * (n - 1)
  {
    if n > 0 {
      ErrorBoundIsTight(n - 1);
      assert Staircase(n)[..n - 1] == Staircase(n - 1);
      TightStep(n);
    }
  }

  lemma TightStep(n: nat)
    requires n > 0
    ensures Update(0, n, n - 1) == 0 && n * (n - 1) == (n - 1) * (n - 2) + 2 * (n - 1)
  {
    assert (n - 1) / n == 0;
  }
}
