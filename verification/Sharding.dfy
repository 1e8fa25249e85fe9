/** Splitting a sorted file list over shards (pkg/controller/caching.go, filesAssignedToShard). */
module Sharding {
  import opened Arithmetic

  /** Go's %: the result takes the sign of the dividend. */
  function GoRem(a: int, b: int): int
    requires b > 0
  {
    if a >= 0 then a % b else -((-a) % b)
  }

  function ShardCount(total: int): (n: int)
    ensures n >= 1
  {
    if total < 1 then 1 else total
  }

  function ShardIndex(idx: int, n: int): int
    requires n > 0
  {
    GoRem(GoRem(idx, n) + n, n)
  }

  /** The files at positions congruent to the shard. */
  function Assigned(files: seq<string>, shard: int, n: int): seq<string>
    requires n > 0
    decreases |files|
  {
    if files == [] then []
    else
      var last := |files| - 1;
      Assigned(files[..last], shard, n) + if last % n == shard then [files[last]] else []
  }

  /** The files the operation gives to a shard. */
  function Shard(sorted: seq<string>, shardIdx: int, totalShards: int): seq<string> {
    Assigned(sorted, ShardIndex(shardIdx, ShardCount(totalShards)), ShardCount(totalShards))
  }

  /** How many of the first count positions are congruent to the shard. */
  function SizeOf(count: nat, shard: nat, n: nat): int
    requires n > 0
  {
    (count + n - 1 - shard) / n
  }

  /** The files at the positions congruent to r, each at its place: as many as there are such positions. */
  ghost predicate EveryNth(sorted: seq<string>, out: seq<string>, r: nat, n: nat)
    requires r < n
  {
    && |out| == SizeOf(|sorted|, r, n)
    && forall i {:trigger sorted[i]} :: 0 <= i < |sorted| && i % n == r ==>
         0 <= i / n < |out| && out[i / n] == sorted[i]
  }

  method FilesAssignedToShard(sorted: seq<string>, shardIdx: int, totalShards: int) returns (out: seq<string>)
    ensures out == Shard(sorted, shardIdx, totalShards)
    ensures totalShards < 1 ==> out == sorted
    ensures totalShards >= 1 ==> EveryNth(sorted, out, shardIdx % totalShards, totalShards)
  {
    var n := totalShards;
    if n < 1 {
      n := 1;
    }
    var idx := GoRem(GoRem(shardIdx, n) + n, n);
    out := [];
    for i := 0 to |sorted|
      invariant out == Assigned(sorted[..i], idx, n)
    {
      assert sorted[..i + 1][..i] == sorted[..i];
      if GoRem(i, n) == idx {
        out := out + [sorted[i]];
      }
    }
    assert sorted[..|sorted|] == sorted;
    ShardIsEveryNth(sorted, shardIdx, totalShards);
  }

  /** What a shard holds, in terms of the arguments alone. */
  lemma ShardIsEveryNth(sorted: seq<string>, shardIdx: int, totalShards: int)
    ensures totalShards < 1 ==> Shard(sorted, shardIdx, totalShards) == sorted
    ensures totalShards >= 1 ==>
              EveryNth(sorted, Shard(sorted, shardIdx, totalShards), shardIdx % totalShards, totalShards)
  {
    ShardIs(sorted, shardIdx, totalShards);
    if totalShards < 1 {
      OneShard(sorted);
    } else {
      ShardsInterleave(sorted, totalShards, shardIdx % totalShards);
    }
  }

  lemma ShardIs(sorted: seq<string>, shardIdx: int, totalShards: int)
    ensures totalShards < 1 ==> Shard(sorted, shardIdx, totalShards) == Assigned(sorted, 0, 1)
    ensures totalShards >= 1 ==>
              Shard(sorted, shardIdx, totalShards) == Assigned(sorted, shardIdx % totalShards, totalShards)
  {
    IndexIsResidue(shardIdx, ShardCount(totalShards));
  }

  lemma {:induction false} OneShard(files: seq<string>)
    ensures Assigned(files, 0, 1) == files
    decreases |files|
  {
    if files != [] {
      OneShard(files[..|files| - 1]);
    }
  }

  /** Any index, negative ones included, names the shard of its residue. */
  lemma IndexIsResidue(idx: int, n: int)
    requires n > 0
    ensures ShardIndex(idx, n) == idx % n && 0 <= ShardIndex(idx, n) < n
  {
    var r := GoRem(idx, n);
    if idx >= 0 {
      ResidueIsUnique(r + n, 1, r, n);
    } else {
      var q, s := (-idx) / n, (-idx) % n;
      assert idx == (-q) * n - s;
      if s == 0 {
        ResidueIsUnique(idx, -q, 0, n);
        ResidueIsUnique(n, 1, 0, n);
      } else {
        assert (-q - 1) * n == (-q) * n - n;
        ResidueIsUnique(idx, -q - 1, n - s, n);
        ResidueIsUnique(n - s, 0, n - s, n);
      }
    }
  }

  lemma SizeAt(q: int, r: nat, shard: nat, n: nat)
    requires shard < n && r <= n
    ensures (q * n + r + n - 1 - shard) / n == q + if r > shard then 1 else 0
  {
    assert (q + 1) * n == q * n + n;
    QuotientIs(q * n + r + n - 1 - shard, q + if r > shard then 1 else 0, n);
  }

  lemma SizeGrows(count: nat, shard: nat, n: nat)
    requires shard < n
    ensures SizeOf(count + 1, shard, n) == SizeOf(count, shard, n) + if count % n == shard then 1 else 0
    ensures count % n == shard ==> SizeOf(count, shard, n) == count / n
  {
    var q, r := count / n, count % n;
    assert count == q * n + r;
    SizeAt(q, r, shard, n);
    SizeAt(q, r + 1, shard, n);
  }

  /** Sizes, and where each file goes: nothing is lost, repeated or put out of order. */
  lemma {:induction false} ShardsInterleave(files: seq<string>, n: nat, shard: nat)
    requires shard < n
    ensures EveryNth(files, Assigned(files, shard, n), shard, n)
    decreases |files|
  {
    if files == [] {
      QuotientIs(n - 1 - shard, 0, n);
    } else {
      var last := |files| - 1;
      var prior := Assigned(files[..last], shard, n);
      ShardsInterleave(files[..last], n, shard);
      SizeGrows(last, shard, n);
      forall i | 0 <= i < |files| && i % n == shard
        ensures 0 <= i / n < |Assigned(files, shard, n)| && Assigned(files, shard, n)[i / n] == files[i]
      {
        if i < last {
          assert files[..last][i] == files[i];
        }
      }
    }
  }

  /** Conversely, the k-th file of a shard is the one at position shard + k n. */
  lemma ShardPosition(files: seq<string>, n: nat, shard: nat, k: nat)
    requires shard < n && k < |Assigned(files, shard, n)|
    ensures 0 <= shard + k * n < |files| && Assigned(files, shard, n)[k] == files[shard + k * n]
  {
    ShardsInterleave(files, n, shard);
    var i := shard + k * n;
    NonNegativeProduct(k, n);
    ResidueIsUnique(i, k, shard, n);
    QuotientIs(i, k, n);
    BelowQuotient(|files| + n - 1 - shard, k, n);
  }

  /** Shard sizes differ by at most one. */
  lemma SizesAreEven(files: seq<string>, n: nat, a: nat, b: nat)
    requires a < b < n
    ensures 0 <= |Assigned(files, a, n)| - |Assigned(files, b, n)| <= 1
  {
    ShardsInterleave(files, n, a);
    ShardsInterleave(files, n, b);
    QuotientStep(|files| + n - 1 - b, |files| + n - 1 - a, n);
  }

  // ----- conservation

  function Sum(f: nat -> multiset<string>, k: nat): multiset<string>
    decreases k
  {
    if k == 0 then multiset{} else Sum(f, k - 1) + f(k - 1)
  }

  function If(c: bool, x: string): multiset<string> {
    if c then multiset{x} else multiset{}
  }

  lemma Regroup(a: multiset<string>, b: multiset<string>, c: multiset<string>, d: multiset<string>)
    ensures (a + c) + (b + d) == (a + b) + (c + d)
  {
  }

  /** One term grows by x, the others stay: so does the sum, once it covers that term. */
  lemma {:induction false} SumGrows(f: nat -> multiset<string>, g: nat -> multiset<string>, r: nat, x: string, k: nat)
    requires forall s: nat :: g(s) == f(s) + If(s == r, x)
    ensures Sum(g, k) == Sum(f, k) + If(r < k, x)
    decreases k
  {
    if k > 0 {
      SumGrows(f, g, r, x, k - 1);
      Regroup(Sum(f, k - 1), f(k - 1), If(r < k - 1, x), If(k - 1 == r, x));
      assert If(r < k - 1, x) + If(k - 1 == r, x) == If(r < k, x);
    }
  }

  lemma {:induction false} EmptySum(f: nat -> multiset<string>, k: nat)
    requires forall s: nat :: f(s) == multiset{}
    ensures Sum(f, k) == multiset{}
    decreases k
  {
    if k > 0 {
      EmptySum(f, k - 1);
    }
  }

  function Share(files: seq<string>, n: nat): nat -> multiset<string>
    requires n > 0
  {
    (shard: nat) => multiset(Assigned(files, shard, n))
  }

  lemma ShareGrows(files: seq<string>, x: string, shard: nat, n: nat)
    requires n > 0
    ensures Share(files + [x], n)(shard) == Share(files, n)(shard) + If(shard == |files| % n, x)
  {
    assert (files + [x])[..|files|] == files;
  }

  /** Together the shards hold exactly the files, with their multiplicities. */
  lemma {:induction false} ShardsConserveFiles(files: seq<string>, n: nat)
    requires n > 0
    ensures Sum(Share(files, n), n) == multiset(files)
    decreases |files|
  {
    if files == [] {
      EmptySum(Share(files, n), n);
    } else {
      var last := |files| - 1;
      var prior, x := files[..last], files[last];
      ShardsConserveFiles(prior, n);
      assert files == prior + [x];
      OneFileMore(prior, x, n);
    }
  }

  lemma OneFileMore(files: seq<string>, x: string, n: nat)
    requires n > 0
    ensures Sum(Share(files + [x], n), n) == Sum(Share(files, n), n) + multiset{x}
  {
    forall shard: nat ensures Share(files + [x], n)(shard) == Share(files, n)(shard) + If(shard == |files| % n, x) {
      ShareGrows(files, x, shard, n);
    }
    SumGrows(Share(files, n), Share(files + [x], n), |files| % n, x, n);
  }

  /** What the operation hands out for each shard index. */
  function HandedOut(sorted: seq<string>, totalShards: int): nat -> multiset<string> {
    (shard: nat) => multiset(Shard(sorted, shard, totalShards))
  }

  /** Calling the operation once for every shard index hands out every file, and none twice. */
  lemma AllFilesAreHandedOut(sorted: seq<string>, totalShards: int)
    requires totalShards >= 1
    ensures Sum(HandedOut(sorted, totalShards), totalShards) == multiset(sorted)
  {
    forall shard: nat | shard < totalShards
      ensures HandedOut(sorted, totalShards)(shard) == Share(sorted, totalShards)(shard)
    {
      ShardAt(sorted, shard, totalShards);
    }
    SameSums(HandedOut(sorted, totalShards), Share(sorted, totalShards), totalShards);
    ShardsConserveFiles(sorted, totalShards);
  }

  lemma ShardAt(sorted: seq<string>, shard: nat, n: nat)
    requires shard < n
    ensures Shard(sorted, shard, n) == Assigned(sorted, shard, n)
  {
    IndexIsResidue(shard, n);
    ResidueIsUnique(shard, 0, shard, n);
  }

  lemma {:induction false} SameSums(f: nat -> multiset<string>, g: nat -> multiset<string>, k: nat)
    requires forall s: nat :: s < k ==> f(s) == g(s)
    ensures Sum(f, k) == Sum(g, k)
    decreases k
  {
    if k > 0 {
      SameSums(f, g, k - 1);
    }
  }
}
