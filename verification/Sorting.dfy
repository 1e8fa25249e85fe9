/** sort.Slice: an in-place sort of which callers may rely on the order and on nothing else. */
module Sorting {
  ghost predicate SortedBy<T>(s: seq<T>, key: T -> real) {
    forall i, j :: 0 <= i < j < |s| ==> key(s[i]) <= key(s[j])
  }

  function Insert<T>(s: seq<T>, x: T, key: T -> real): seq<T> {
    if s == [] || key(x) <= key(s[0]) then [x] + s else [s[0]] + Insert(s[1..], x, key)
  }

  lemma TailMultiset<T>(s: seq<T>)
    requires s != []
    ensures multiset(s) == multiset(s[1..]) + multiset{s[0]}
    ensures multiset(s[1..]) == multiset(s) - multiset{s[0]}
  {
    assert s == [s[0]] + s[1..];
  }

  lemma {:induction false} InsertKeeps<T>(s: seq<T>, x: T, key: T -> real)
    ensures multiset(Insert(s, x, key)) == multiset(s) + multiset{x}
  {
    if s != [] && key(x) > key(s[0]) {
      InsertKeeps(s[1..], x, key);
      TailMultiset(s);
    }
  }

  lemma {:induction false} InsertSorts<T>(s: seq<T>, x: T, key: T -> real)
    requires SortedBy(s, key)
    ensures SortedBy(Insert(s, x, key), key)
  {
    if s != [] && key(x) > key(s[0]) {
      var tail := Insert(s[1..], x, key);
      InsertSorts(s[1..], x, key);
      InsertKeeps(s[1..], x, key);
      forall i | 0 <= i < |tail| ensures key(s[0]) <= key(tail[i]) {
        assert tail[i] in multiset(tail);
        assert tail[i] == x || tail[i] in s[1..];
      }
    }
  }

  /** The last element of a sequence, found in a rearrangement of it, and what is left of both. */
  lemma MatchLast<T>(a: seq<T>, b: seq<T>) returns (j: nat)
    requires a != [] && multiset(a) == multiset(b)
    ensures j < |b| && b == b[..j] + [a[|a| - 1]] + b[j + 1..]
    ensures multiset(a[..|a| - 1]) == multiset(b[..j] + b[j + 1..])
  {
    var x := a[|a| - 1];
    assert a == a[..|a| - 1] + [x];
    assert x in multiset(b);
    j :| 0 <= j < |b| && b[j] == x;
    assert b == b[..j] + [x] + b[j + 1..];
    assert multiset(b[..j] + b[j + 1..]) == multiset(b) - multiset{x};
  }

  function Sorted<T>(s: seq<T>, key: T -> real): (r: seq<T>)
    ensures SortedBy(r, key) && multiset(r) == multiset(s)
  {
    if s == [] then []
    else
      var tail := Sorted(s[1..], key);
      InsertKeeps(tail, s[0], key);
      InsertSorts(tail, s[0], key);
      TailMultiset(s);
      Insert(tail, s[0], key)
  }

  method SortSlice<T>(a: array<T>, key: T -> real)
    modifies a
    ensures multiset(a[..]) == multiset(old(a[..]))
    ensures SortedBy(a[..], key)
  {
    var sorted := Sorted(a[..], key);
    assert |sorted| == |multiset(sorted)| == |multiset(a[..])| == a.Length;
    forall i | 0 <= i < a.Length {
      a[i] := sorted[i];
    }
    assert a[..] == sorted;
  }

  function Drop<T>(s: seq<T>, j: nat): seq<T>
    requires j < |s|
  {
    s[..j] + s[j + 1..]
  }

  lemma DropKeeps<T>(t: seq<T>, j: nat, key: T -> real)
    requires SortedBy(t, key) && j < |t| && key(t[0]) == key(t[j])
    ensures SortedBy(Drop(t, j), key)
    ensures forall i :: 0 <= i < |Drop(t, j)| ==> key(Drop(t, j)[i]) == key(t[i + 1])
  {
    var rest := Drop(t, j);
    assert forall i :: 0 <= i < |rest| ==> rest[i] == if i < j then t[i] else t[i + 1];
    forall i | 0 <= i < j ensures key(t[i]) == key(t[i + 1]) {
      assert key(t[0]) <= key(t[i]) <= key(t[j]);
      assert key(t[0]) <= key(t[i + 1]) <= key(t[j]);
    }
  }

  lemma MatchFirst<T>(s: seq<T>, t: seq<T>, key: T -> real) returns (j: nat)
    requires s != [] && multiset(s) == multiset(t) && SortedBy(s, key) && SortedBy(t, key)
    ensures |s| == |t| && j < |t| && t[j] == s[0] && key(t[0]) == key(s[0])
    ensures multiset(s[1..]) == multiset(Drop(t, j))
  {
    assert |s| == |multiset(s)| == |multiset(t)| == |t|;
    assert s[0] in multiset(t) && t[0] in multiset(s);
    j :| 0 <= j < |t| && t[j] == s[0];
    var i :| 0 <= i < |s| && s[i] == t[0];
    assert key(t[0]) <= key(t[j]) && key(s[0]) <= key(s[i]);
    TailMultiset(s);
    DropMultiset(t, j);
  }

  lemma DropMultiset<T>(t: seq<T>, j: nat)
    requires j < |t|
    ensures multiset(Drop(t, j)) == multiset(t) - multiset{t[j]}
  {
    assert t == t[..j] + [t[j]] + t[j + 1..];
  }

  /** Two sorts of the same elements agree on the keys, place by place. */
  lemma {:induction false} SameKeys<T>(s: seq<T>, t: seq<T>, key: T -> real)
    requires multiset(s) == multiset(t) && SortedBy(s, key) && SortedBy(t, key)
    ensures |s| == |t| && forall i :: 0 <= i < |s| ==> key(s[i]) == key(t[i])
    decreases |s|
  {
    if s == [] {
      assert |t| == |multiset(t)| == 0;
    } else {
      var j := MatchFirst(s, t, key);
      DropKeeps(t, j, key);
      SameKeys(s[1..], Drop(t, j), key);
      forall i | 1 <= i < |s| ensures key(s[i]) == key(t[i]) {
        assert s[i] == s[1..][i - 1];
        assert key(Drop(t, j)[i - 1]) == key(t[i - 1 + 1]);
      }
    }
  }

  ghost predicate StrictlyBy<T>(s: seq<T>, key: T -> real) {
    forall i, j :: 0 <= i < j < |s| ==> key(s[i]) < key(s[j])
  }

  /** A sort of something already in strict order by its key changes nothing. */
  lemma {:induction false} SortingStrictOrder<T>(s: seq<T>, sorted: seq<T>, key: T -> real)
    requires multiset(s) == multiset(sorted) && SortedBy(sorted, key) && StrictlyBy(s, key)
    ensures sorted == s
  {
    assert |s| == |multiset(s)| == |multiset(sorted)| == |sorted|;
    if s != [] {
      SameHead(s, sorted, key);
      TailMultiset(s);
      TailMultiset(sorted);
      TailsInOrder(s, sorted, key);
      SortingStrictOrder(s[1..], sorted[1..], key);
      SameParts(s, sorted);
    }
  }

  lemma TailsInOrder<T>(s: seq<T>, sorted: seq<T>, key: T -> real)
    requires s != [] && sorted != [] && SortedBy(sorted, key) && StrictlyBy(s, key)
    ensures SortedBy(sorted[1..], key) && StrictlyBy(s[1..], key)
  {
  }

  lemma SameParts<T>(s: seq<T>, t: seq<T>)
    requires s != [] && t != [] && s[0] == t[0] && s[1..] == t[1..]
    ensures s == t
  {
    assert s == [s[0]] + s[1..] && t == [t[0]] + t[1..];
  }

  lemma SameHead<T>(s: seq<T>, sorted: seq<T>, key: T -> real)
    requires s != [] && sorted != [] && multiset(s) == multiset(sorted) && SortedBy(sorted, key) && StrictlyBy(s, key)
    ensures sorted[0] == s[0]
  {
    assert s[0] in multiset(sorted) && sorted[0] in multiset(s);
    var i :| 0 <= i < |sorted| && sorted[i] == s[0];
    var j :| 0 <= j < |s| && s[j] == sorted[0];
  }

  // ----- sequences without repetition

  ghost predicate Distinct<T(!new)>(s: seq<T>) {
    forall i, j :: 0 <= i < j < |s| ==> s[i] != s[j]
  }

  lemma {:induction false} OnceEach<T(!new)>(s: seq<T>, x: T)
    requires Distinct(s)
    ensures multiset(s)[x] <= 1
    decreases |s|
  {
    if s != [] {
      var n := |s| - 1;
      OnceEach(s[..n], x);
      assert s == s[..n] + [s[n]];
      if x == s[n] {
        assert x !in s[..n];
        assert x !in multiset(s[..n]);
      }
    }
  }

  lemma TwiceWhenRepeated<T>(s: seq<T>, i: nat, j: nat)
    requires i < j < |s| && s[i] == s[j]
    ensures multiset(s)[s[i]] >= 2
  {
    assert s == s[..j] + s[j..];
    assert s[i] in s[..j] && s[j] in s[j..];
    assert s[i] in multiset(s[..j]) && s[j] in multiset(s[j..]);
  }

  /** Rearranging repeats nothing. */
  lemma DistinctPermutes<T(!new)>(s: seq<T>, t: seq<T>)
    requires Distinct(s) && multiset(s) == multiset(t)
    ensures Distinct(t) && |s| == |t|
  {
    assert |s| == |multiset(s)| == |multiset(t)| == |t|;
    forall i, j | 0 <= i < j < |t| ensures t[i] != t[j] {
      OnceEach(s, t[i]);
      if t[i] == t[j] {
        TwiceWhenRepeated(t, i, j);
      }
    }
  }
}
