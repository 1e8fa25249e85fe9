/** Vocabulary shared by the two autoscalers: integer widths, metrics, recommendations, windows. */
module Scaling {
  import opened Arithmetic

  const MAX_INT32: int := 0x7fff_ffff
  type Int32 = x: int | -0x8000_0000 <= x <= MAX_INT32

  /** Replica counts: int32 values that are never negative. */
  type Count = x: int | 0 <= x <= MAX_INT32

  /** Clock readings are in nanoseconds. */
  const SECOND: int := 1_000_000_000

  datatype Metrics = Metrics(cpu: int, memory: int, gpu: int, storageRead: int, storageWrite: int, storageIOPS: int)

  /** What int32(float64(a) * float64(b) / float64(c)) yields where float64 is not exact or the
      conversion overflows: platform-defined, so every theorem holds for every such function. */
  type FloatUnit = (int, int, int) -> Int32

  /** int32(float64(current) * float64(util) / float64(target)). */
  function Quotient(current: int, util: int, target: int, fp: FloatUnit): Int32 {
    if 0 < target && 0 <= current * util <= EXACT_FLOAT && current * util / target <= MAX_INT32
    then current * util / target
    else fp(current, util, target)
  }

  datatype Recommendation = Recommendation(replicas: Count, timestamp: int)
  datatype Histories = Histories(up: seq<Recommendation>, down: seq<Recommendation>)

  const NO_HISTORY := Histories([], [])

  /** The entries younger than a cutoff, in order. */
  function Recent(h: seq<Recommendation>, cutoff: int): seq<Recommendation> {
    if h == [] then []
    else
      var last := h[|h| - 1];
      Recent(h[..|h| - 1], cutoff) + if last.timestamp > cutoff then [last] else []
  }

  ghost function Entries(h: seq<Recommendation>): set<Recommendation> {
    set r | r in h
  }

  ghost predicate IsHighest(rs: set<Recommendation>, m: Count) {
    && (exists r :: r in rs && r.replicas == m)
    && (forall r :: r in rs ==> r.replicas <= m)
  }

  lemma {:induction false} HighestExists(h: seq<Recommendation>) returns (m: Count)
    requires h != []
    ensures IsHighest(Entries(h), m)
  {
    var prior, last := h[..|h| - 1], h[|h| - 1];
    m := last.replicas;
    EntriesAppend(prior, last);
    assert last in Entries(h);
    if prior != [] {
      var before := HighestExists(prior);
      var r :| r in Entries(prior) && r.replicas == before;
      assert r in Entries(h);
      m := if last.replicas > before then last.replicas else before;
    }
  }

  /** The largest replica count recommended in a non-empty history. */
  ghost function Highest(h: seq<Recommendation>): (m: Count)
    requires h != []
    ensures IsHighest(Entries(h), m)
  {
    assert exists m: Count :: IsHighest(Entries(h), m) by { var m := HighestExists(h); }
    var m: Count :| IsHighest(Entries(h), m);
    m
  }

  lemma EntriesAppend(h: seq<Recommendation>, r: Recommendation)
    ensures Entries(h + [r]) == Entries(h) + {r}
    ensures h != [] ==> Entries(h) == Entries(h[..|h| - 1]) + {h[|h| - 1]}
  {
    if h != [] {
      assert h == h[..|h| - 1] + [h[|h| - 1]];
    }
  }

  function MaxOf(s: seq<Int32>): (m: Int32)
    requires s != []
    ensures m in s && forall x :: x in s ==> x <= m
  {
    var last := s[|s| - 1];
    if |s| == 1 then last
    else
      var m := MaxOf(s[..|s| - 1]);
      assert s == s[..|s| - 1] + [last];
      if last > m then last else m
  }

  lemma {:induction false} RecentEntries(h: seq<Recommendation>, cutoff: int)
    ensures Entries(Recent(h, cutoff)) == set r | r in Entries(h) && r.timestamp > cutoff
  {
    if h != [] {
      var prior, last := h[..|h| - 1], h[|h| - 1];
      RecentEntries(prior, cutoff);
      EntriesAppend(h, last);
      EntriesAppend(Recent(prior, cutoff), last);
      if last.timestamp <= cutoff {
        assert Recent(h, cutoff) == Recent(prior, cutoff);
      }
    }
  }

  /** Adding a recommendation to a history and pruning it. */
  lemma Windowed(h: seq<Recommendation>, rec: Recommendation, cutoff: int)
    requires cutoff < rec.timestamp
    ensures var recent := Recent(h + [rec], cutoff);
            && Entries(recent) == (set r | r in Entries(h) && r.timestamp > cutoff) + {rec}
            && recent != [] && IsHighest(Entries(recent), Highest(recent))
  {
    RecentEntries(h + [rec], cutoff);
    EntriesAppend(h, rec);
    assert rec in Entries(Recent(h + [rec], cutoff));
  }

  lemma RecentAppend(h: seq<Recommendation>, r: Recommendation, cutoff: int)
    ensures Recent(h + [r], cutoff) == Recent(h, cutoff) + if r.timestamp > cutoff then [r] else []
  {
    assert (h + [r])[..|h|] == h;
  }

  // The loops that both controllers contain.

  method LargestOf(offers: seq<Int32>) returns (m: Int32)
    requires offers != []
    ensures m == MaxOf(offers)
  {
    m := offers[0];
    for i := 0 to |offers|
      invariant m in offers && forall k :: 0 <= k < i ==> offers[k] <= m
    {
      if offers[i] > m {
        m := offers[i];
      }
    }
  }

  method Prune(h: seq<Recommendation>, cutoff: int) returns (valid: seq<Recommendation>)
    ensures valid == Recent(h, cutoff)
  {
    valid := [];
    for i := 0 to |h|
      invariant valid == Recent(h[..i], cutoff)
    {
      RecentAppend(h[..i], h[i], cutoff);
      assert h[..i] + [h[i]] == h[..i + 1];
      if h[i].timestamp > cutoff {
        valid := valid + [h[i]];
      }
    }
    assert h[..|h|] == h;
  }

  method Largest(h: seq<Recommendation>) returns (m: Count)
    requires h != []
    ensures m == Highest(h)
  {
    m := h[0].replicas;
    for i := 0 to |h|
      invariant exists r :: r in h && r.replicas == m
      invariant forall k :: 0 <= k < i ==> h[k].replicas <= m
    {
      if h[i].replicas > m {
        m := h[i].replicas;
      }
    }
    assert IsHighest(Entries(h), m) by {
      var r :| r in h && r.replicas == m;
      assert r in Entries(h);
    }
  }

  /** The highest of the recent recommendations, or the newest decision if there are none. */
  ghost function Pick(recent: seq<Recommendation>, desired: Count): Count {
    if recent == [] then desired else Highest(recent)
  }

  method PickHighest(recent: seq<Recommendation>, desired: Count) returns (m: Count)
    ensures m == Pick(recent, desired)
  {
    m := desired;
    if |recent| > 0 {
      m := Largest(recent);
    }
  }
}
