/** The scheduler's plugin framework (internal/framework/framework.go). */
module PluginFramework {
  import opened Options
  import opened Arithmetic
  import opened Sorting

  // ----- 64-bit sums

  const WORD: int := 0x1_0000_0000_0000_0000
  const HALF: int := 0x8000_0000_0000_0000

  /** Two's complement: what an int64 keeps of a result. */
  function Wrap(x: int): (r: int)
    ensures -HALF <= r < HALF
  {
    (x + HALF) % WORD - HALF
  }

  /** What an int64 holds. */
  predicate Fits(x: int) {
    -HALF <= x < HALF
  }

  lemma WrapFits(x: int)
    requires Fits(x)
    ensures Wrap(x) == x
  {
  }

  lemma WrapOver(x: int)
    requires HALF <= x < WORD
    ensures Wrap(x) == x - WORD
  {
    ResidueIsUnique(x + HALF, 1, x - HALF, WORD);
  }

  lemma SameResidue(x: int, k: int, m: int)
    requires m > 0
    ensures (x + k * m) % m == x % m
  {
    var q := x / m;
    assert x + k * m == (q + k) * m + x % m;
    ResidueIsUnique(x + k * m, q + k, x % m, m);
  }

  /** Wrapping early or late gives the same sum. */
  lemma WrapAdds(a: int, b: int)
    ensures Wrap(Wrap(a) + b) == Wrap(a + b)
  {
    var k := (a + HALF) / WORD;
    assert Wrap(a) == a + (-k) * WORD;
    SameResidue(a + b + HALF, -k, WORD);
    assert Wrap(a) + b + HALF == (a + b + HALF) + (-k) * WORD;
  }

  // ----- scoring

  /** score: the plugin's raw score for a node, if it can give one. */
  datatype ScorePlugin = ScorePlugin(name: string, weight: int, score: string -> Option<int>)

  datatype PluginScore = PluginScore(pluginName: string, score: int)

  datatype PluginResult = PluginResult(isFiltered: bool, scores: seq<PluginScore>, totalNodeScore: int)

  /** The weights APOLLO sends, and int32(w * 10) in single precision. */
  datatype Apollo = Apollo(weights: map<string, real>, tenfold: real -> int)

  const KETI_PLUGINS := {"DataLocalityAware", "StorageTierAware", "IOPatternBased", "KueueAware",
                         "PipelineStageAware", "CSIStorageAware", "ShardAware"}

  function EffectiveWeight(p: ScorePlugin, apollo: Option<Apollo>): int {
    if apollo.Some? && p.name in KETI_PLUGINS && p.name in apollo.value.weights then
      var w := apollo.value.tenfold(apollo.value.weights[p.name]);
      if w < 1 then 1 else w
    else if p.weight == 0 then 1
    else p.weight
  }

  /** APOLLO sends a weight for the plugin, and the plugin is one of its own. */
  predicate Overridden(p: ScorePlugin, apollo: Option<Apollo>) {
    && apollo.Some? && p.name in apollo.value.weights
    && (|| p.name == "DataLocalityAware" || p.name == "StorageTierAware" || p.name == "IOPatternBased"
        || p.name == "KueueAware" || p.name == "PipelineStageAware" || p.name == "CSIStorageAware"
        || p.name == "ShardAware")
  }

  /** No weight silences a plugin; one from APOLLO is at least 1 and at least what was sent; without one
      the plugin weighs what it was registered with. */
  lemma WeightMeans(p: ScorePlugin, apollo: Option<Apollo>)
    ensures EffectiveWeight(p, apollo) != 0
    ensures Overridden(p, apollo) ==>
              var sent := apollo.value.tenfold(apollo.value.weights[p.name]);
              EffectiveWeight(p, apollo) >= 1 && EffectiveWeight(p, apollo) >= sent &&
              EffectiveWeight(p, apollo) in {1, sent}
    ensures !Overridden(p, apollo) ==> EffectiveWeight(p, apollo) == EffectiveWeight(p, None)
    ensures p.weight != 0 ==> EffectiveWeight(p, None) == p.weight
    ensures EffectiveWeight(p, apollo) > 0 <==> Overridden(p, apollo) || p.weight >= 0
  {
  }

  lemma OrderTimesWeight(x: int, y: int, w: int)
    requires w != 0
    ensures x < y ==> (x * w < y * w <==> w > 0) && x * w != y * w
  {
    if x < y {
      if w > 0 {
        MulMonotone(x, y, w);
      } else {
        MulMonotone(x, y, 0 - w);
        assert x * (0 - w) == 0 - x * w && y * (0 - w) == 0 - y * w;
      }
    }
  }

  predicate CanScore(p: ScorePlugin, nodes: seq<string>) {
    forall i :: 0 <= i < |nodes| ==> p.score(nodes[i]).Some?
  }

  predicate AllCanScore(plugins: seq<ScorePlugin>, nodes: seq<string>) {
    forall k :: 0 <= k < |plugins| ==> CanScore(plugins[k], nodes)
  }

  function Occurrences(nodes: seq<string>, name: string): nat
    decreases |nodes|
  {
    if nodes == [] then 0
    else Occurrences(nodes[..|nodes| - 1], name) + if nodes[|nodes| - 1] == name then 1 else 0
  }

  /** A plugin's contribution to a node: its effective weight times its raw score. */
  function Weighted(p: ScorePlugin, name: string, apollo: Option<Apollo>): int {
    match p.score(name)
    case Some(s) => s * EffectiveWeight(p, apollo)
    case None => 0
  }

  function Repeat<T>(x: T, n: nat): (r: seq<T>)
    ensures |r| == n && forall i :: 0 <= i < n ==> r[i] == x
  {
    seq(n, _ => x)
  }

  function Entry(p: ScorePlugin, name: string, apollo: Option<Apollo>): PluginScore {
    PluginScore(p.name, Wrap(Weighted(p, name, apollo)))
  }

  /** A plugin's preference between two nodes, on the entries the run stores: as long as both products
      fit, it survives weighting exactly when the plugin's weight is positive, which means that it is
      APOLLO's or was not registered negative. Equal scores stay equal whatever the weight. */
  lemma PreferenceSurvivesExactlyWhen(p: ScorePlugin, a: string, b: string, apollo: Option<Apollo>)
    requires p.score(a).Some? && p.score(b).Some?
    requires Fits(Weighted(p, a, apollo)) && Fits(Weighted(p, b, apollo))
    ensures p.score(a).value == p.score(b).value <==> Entry(p, a, apollo).score == Entry(p, b, apollo).score
    ensures p.score(a).value < p.score(b).value ==>
              (Entry(p, a, apollo).score < Entry(p, b, apollo).score <==> Overridden(p, apollo) || p.weight >= 0)
  {
    WeightMeans(p, apollo);
    WrapFits(Weighted(p, a, apollo));
    WrapFits(Weighted(p, b, apollo));
    var x, y, w := p.score(a).value, p.score(b).value, EffectiveWeight(p, apollo);
    OrderTimesWeight(x, y, w);
    OrderTimesWeight(y, x, w);
  }

  /** Without the bound on the products only weight 1 is safe: any larger weight reverses some preference
      between two int64 scores, and a negative one reverses 0 and 1. Weights are 32 bits wide. */
  lemma EveryPreferenceSurvivesExactlyWhen(w: int)
    requires w != 0 && -0x8000_0000 <= w < 0x8000_0000
    ensures (forall x, y :: Fits(x) && Fits(y) && x < y ==> Survives(x, y, w)) <==> w == 1
  {
    if w == 1 {
      forall x, y | Fits(x) && Fits(y) && x < y ensures Survives(x, y, w) {
        WrapFits(x);
        WrapFits(y);
      }
    } else if w < 0 {
      WrapFits(0 * w);
      WrapFits(1 * w);
      assert Fits(0) && Fits(1) && !Survives(0, 1, w);
    } else {
      OverflowReverses(w);
      assert Fits(1) && Fits(HALF / w + 1);
    }
  }

  predicate Survives(x: int, y: int, w: int) {
    Wrap(x * w) < Wrap(y * w)
  }

  /** The least score whose product overflows ranks below a score of 1. */
  lemma OverflowReverses(w: int)
    requires 2 <= w < 0x8000_0000
    ensures 1 < HALF / w + 1 < HALF && !Survives(1, HALF / w + 1, w)
  {
    var q := HALF / w;
    assert HALF == q * w + HALF % w && (q + 1) * w == q * w + w;
    MulMonotone(2, w, q + 1);
    assert q >= 1 by {
      if q < 1 {
        MulMonotone(q, 0, w);
      }
    }
    assert 2 * (q + 1) <= (q + 1) * w <= HALF + w;
    WrapOver((q + 1) * w);
    WrapFits(1 * w);
  }

  /** The entries a node should end up with: one per plugin, in order, for each time it is listed. */
  function Entries(plugins: seq<ScorePlugin>, nodes: seq<string>, name: string,
                   apollo: Option<Apollo>): seq<PluginScore>
    decreases |plugins|
  {
    if plugins == [] then []
    else
      var n := |plugins| - 1;
      Entries(plugins[..n], nodes, name, apollo) + Repeat(Entry(plugins[n], name, apollo), Occurrences(nodes, name))
  }

  function WeightedSum(plugins: seq<ScorePlugin>, name: string, apollo: Option<Apollo>): int
    decreases |plugins|
  {
    if plugins == [] then 0
    else WeightedSum(plugins[..|plugins| - 1], name, apollo) + Weighted(plugins[|plugins| - 1], name, apollo)
  }

  function Total(plugins: seq<ScorePlugin>, nodes: seq<string>, name: string, apollo: Option<Apollo>): int {
    Wrap(Occurrences(nodes, name) * WeightedSum(plugins, name, apollo))
  }

  // ----- the code: every plugin in turn scores every node

  type ResultMap = map<string, PluginResult>

  function Initial(nodes: seq<string>): ResultMap {
    map name | name in nodes :: PluginResult(false, [], 0)
  }

  function ScoreNode(result: ResultMap, p: ScorePlugin, name: string, apollo: Option<Apollo>): ResultMap
    requires name in result
  {
    var r, entry := result[name], Entry(p, name, apollo);
    result[name := r.(scores := r.scores + [entry], totalNodeScore := Wrap(r.totalNodeScore + entry.score))]
  }

  function Pass(result: ResultMap, p: ScorePlugin, nodes: seq<string>, apollo: Option<Apollo>): (r: ResultMap)
    requires forall name :: name in nodes ==> name in result
    ensures r.Keys == result.Keys
    decreases |nodes|
  {
    if nodes == [] then result
    else
      var n := |nodes| - 1;
      assert nodes[n] in nodes;
      ScoreNode(Pass(result, p, nodes[..n], apollo), p, nodes[n], apollo)
  }

  lemma PassGrows(given: ResultMap, p: ScorePlugin, nodes: seq<string>, apollo: Option<Apollo>, j: nat)
    requires j < |nodes| && forall name :: name in nodes ==> name in given
    ensures nodes[j] in Pass(given, p, nodes[..j], apollo)
    ensures Pass(given, p, nodes[..j + 1], apollo)
            == ScoreNode(Pass(given, p, nodes[..j], apollo), p, nodes[j], apollo)
  {
    assert nodes[..j + 1][..j] == nodes[..j];
  }

  lemma CanScoreGrows(p: ScorePlugin, nodes: seq<string>, j: nat)
    requires j < |nodes|
    ensures CanScore(p, nodes[..j + 1]) <==> CanScore(p, nodes[..j]) && p.score(nodes[j]).Some?
    ensures CanScore(p, nodes) ==> p.score(nodes[j]).Some?
  {
    assert forall i :: 0 <= i < j ==> nodes[..j + 1][i] == nodes[..j][i];
    assert nodes[..j + 1][j] == nodes[j];
  }

  lemma RunGrows(plugins: seq<ScorePlugin>, nodes: seq<string>, apollo: Option<Apollo>, k: nat)
    requires k < |plugins|
    ensures Run(plugins[..k + 1], nodes, apollo) == Pass(Run(plugins[..k], nodes, apollo), plugins[k], nodes, apollo)
    ensures AllCanScore(plugins[..k + 1], nodes) <==> AllCanScore(plugins[..k], nodes) && CanScore(plugins[k], nodes)
    ensures AllCanScore(plugins, nodes) ==> CanScore(plugins[k], nodes)
  {
    assert plugins[..k + 1][..k] == plugins[..k];
    assert forall i :: 0 <= i < k ==> plugins[..k + 1][i] == plugins[..k][i];
    assert plugins[..k + 1][k] == plugins[k];
  }

  function Run(plugins: seq<ScorePlugin>, nodes: seq<string>, apollo: Option<Apollo>): (r: ResultMap)
    ensures r.Keys == Initial(nodes).Keys
    decreases |plugins|
  {
    if plugins == [] then Initial(nodes)
    else Pass(Run(plugins[..|plugins| - 1], nodes, apollo), plugins[|plugins| - 1], nodes, apollo)
  }

  method InitResults(nodes: seq<string>) returns (result: ResultMap)
    ensures result == Initial(nodes)
  {
    result := map[];
    for i := 0 to |nodes|
      invariant result == Initial(nodes[..i])
    {
      result := result[nodes[i] := PluginResult(false, [], 0)];
    }
    assert nodes[..|nodes|] == nodes;
  }

  method WeightOf(p: ScorePlugin, apollo: Option<Apollo>) returns (weight: int)
    ensures weight == EffectiveWeight(p, apollo) && weight != 0
    ensures Overridden(p, apollo) ==> weight >= 1
    ensures !Overridden(p, apollo) && p.weight != 0 ==> weight == p.weight
  {
    weight := p.weight;
    if weight == 0 {
      weight := 1;
    }
    if apollo.Some? && p.name in KETI_PLUGINS {
      if p.name in apollo.value.weights {
        weight := apollo.value.tenfold(apollo.value.weights[p.name]);
        if weight < 1 {
          weight := 1;
        }
      }
    }
  }

  /** Appends an entry to a node's scores and adds it to the total. */
  method AddScore(given: ResultMap, p: ScorePlugin, name: string, weightedScore: int, ghost apollo: Option<Apollo>)
    returns (result: ResultMap)
    requires name in given && weightedScore == Entry(p, name, apollo).score
    ensures result == ScoreNode(given, p, name, apollo)
  {
    var r := given[name];
    r := r.(scores := r.scores + [PluginScore(p.name, weightedScore)]);
    r := r.(totalNodeScore := Wrap(r.totalNodeScore + weightedScore));
    result := given[name := r];
  }

  /** The inner loop: one plugin over all nodes; stops at the first node it cannot score. */
  method ScoreNodes(given: ResultMap, p: ScorePlugin, nodes: seq<string>, apollo: Option<Apollo>)
    returns (result: ResultMap, ok: bool)
    requires forall name :: name in nodes ==> name in given
    ensures ok <==> CanScore(p, nodes)
    ensures ok ==> result == Pass(given, p, nodes, apollo)
  {
    result, ok := given, true;
    var weight := WeightOf(p, apollo);
    for j := 0 to |nodes|
      invariant result == Pass(given, p, nodes[..j], apollo)
      invariant CanScore(p, nodes[..j])
    {
      PassGrows(given, p, nodes, apollo, j);
      CanScoreGrows(p, nodes, j);
      var score := p.score(nodes[j]);
      if score.None? {
        return given, false;
      }
      var weightedScore := Wrap(score.value * weight);
      result := AddScore(result, p, nodes[j], weightedScore, apollo);
    }
    assert nodes[..|nodes|] == nodes;
  }

  method RunScorePluginsWithAPOLLOWeights(plugins: seq<ScorePlugin>, nodes: seq<string>, apollo: Option<Apollo>)
    returns (result: Option<ResultMap>)
    ensures result.Some? <==> AllCanScore(plugins, nodes)
    ensures result.Some? ==> result.value == Run(plugins, nodes, apollo)
  {
    var scored := InitResults(nodes);
    for k := 0 to |plugins|
      invariant scored == Run(plugins[..k], nodes, apollo)
      invariant AllCanScore(plugins[..k], nodes)
    {
      RunGrows(plugins, nodes, apollo, k);
      var next, ok := ScoreNodes(scored, plugins[k], nodes, apollo);
      if !ok {
        return None;
      }
      scored := next;
    }
    assert plugins[..|plugins|] == plugins;
    result := Some(scored);
  }

  // ----- what a run leaves behind

  lemma {:induction false} PassAddsEntries(result: ResultMap, p: ScorePlugin, nodes: seq<string>,
                                           apollo: Option<Apollo>, name: string)
    requires (forall x :: x in nodes ==> x in result) && name in result
    requires result[name].totalNodeScore == Wrap(result[name].totalNodeScore)
    ensures var before, after := result[name], Pass(result, p, nodes, apollo)[name];
            && after.isFiltered == before.isFiltered
            && after.scores == before.scores + Repeat(Entry(p, name, apollo), Occurrences(nodes, name))
            && after.totalNodeScore
               == Wrap(before.totalNodeScore + Occurrences(nodes, name) * Weighted(p, name, apollo))
    decreases |nodes|
  {
    if nodes == [] {
      assert result[name].scores + Repeat(Entry(p, name, apollo), 0) == result[name].scores;
    } else {
      var n := |nodes| - 1;
      PassAddsEntries(result, p, nodes[..n], apollo, name);
      if nodes[n] == name {
        ScoredAgain(Pass(result, p, nodes[..n], apollo), p, name, apollo, result[name], Occurrences(nodes[..n], name));
      }
    }
  }

  lemma ScoredAgain(result: ResultMap, p: ScorePlugin, name: string, apollo: Option<Apollo>,
                    given: PluginResult, c: nat)
    requires name in result && result[name].scores == given.scores + Repeat(Entry(p, name, apollo), c)
    requires result[name].totalNodeScore == Wrap(given.totalNodeScore + c * Weighted(p, name, apollo))
    ensures var after := ScoreNode(result, p, name, apollo)[name];
            && after.isFiltered == result[name].isFiltered
            && after.scores == given.scores + Repeat(Entry(p, name, apollo), c + 1)
            && after.totalNodeScore == Wrap(given.totalNodeScore + (c + 1) * Weighted(p, name, apollo))
  {
    OneMoreEntry(given.totalNodeScore, c, Weighted(p, name, apollo));
    RepeatGrows(Entry(p, name, apollo), c);
  }

  lemma OneMoreEntry(t: int, c: nat, w: int)
    ensures Wrap(Wrap(t + c * w) + Wrap(w)) == Wrap(t + (c + 1) * w)
  {
    WrapAdds(t + c * w, Wrap(w));
    WrapAdds(w, t + c * w);
    assert (c + 1) * w == c * w + w;
  }

  lemma RepeatGrows<T>(x: T, n: nat)
    ensures Repeat(x, n + 1) == Repeat(x, n) + [x]
  {
  }

  /** After a run every listed node has, per plugin in registration order, one entry for each time it is
      listed; its total is the int64 sum of effective weight times raw score, as often. */
  lemma {:induction false} RunGivesTotals(plugins: seq<ScorePlugin>, nodes: seq<string>, apollo: Option<Apollo>,
                                          name: string)
    requires name in nodes
    ensures var r := Run(plugins, nodes, apollo)[name];
            && !r.isFiltered && r.scores == Entries(plugins, nodes, name, apollo)
            && r.totalNodeScore == Total(plugins, nodes, name, apollo)
    decreases |plugins|
  {
    if plugins != [] {
      var n := |plugins| - 1;
      RunGivesTotals(plugins[..n], nodes, apollo, name);
      PassGivesTotals(Run(plugins[..n], nodes, apollo), plugins, nodes, apollo, name);
    } else {
      assert Occurrences(nodes, name) * 0 == 0;
    }
  }

  lemma PassGivesTotals(before: ResultMap, plugins: seq<ScorePlugin>, nodes: seq<string>, apollo: Option<Apollo>,
                        name: string)
    requires plugins != [] && name in nodes && forall x :: x in nodes ==> x in before
    requires var n := |plugins| - 1;
             && before[name].scores == Entries(plugins[..n], nodes, name, apollo)
             && before[name].totalNodeScore == Total(plugins[..n], nodes, name, apollo)
    ensures var after := Pass(before, plugins[|plugins| - 1], nodes, apollo)[name];
            && after.isFiltered == before[name].isFiltered
            && after.scores == Entries(plugins, nodes, name, apollo)
            && after.totalNodeScore == Total(plugins, nodes, name, apollo)
  {
    var n := |plugins| - 1;
    TotalsAdd(Occurrences(nodes, name), WeightedSum(plugins[..n], name, apollo), Weighted(plugins[n], name, apollo));
    PassAddsEntries(before, plugins[n], nodes, apollo, name);
  }

  lemma TotalsAdd(c: nat, sum: int, w: int)
    ensures Wrap(Wrap(c * sum) + c * w) == Wrap(c * (sum + w)) && Wrap(Wrap(c * sum)) == Wrap(c * sum)
  {
    WrapAdds(c * sum, c * w);
    WrapAdds(c * sum, 0);
    assert c * (sum + w) == c * sum + c * w;
  }

  /** Where node names are distinct, as a cluster's are: exactly one entry per plugin. */
  lemma {:induction false} OnceListed(nodes: seq<string>, name: string)
    requires name in nodes && forall i, j :: 0 <= i < j < |nodes| ==> nodes[i] != nodes[j]
    ensures Occurrences(nodes, name) == 1
    decreases |nodes|
  {
    var n := |nodes| - 1;
    if nodes[n] == name {
      NotListed(nodes[..n], name);
    } else {
      assert name in nodes[..n];
      OnceListed(nodes[..n], name);
    }
  }

  lemma {:induction false} NotListed(nodes: seq<string>, name: string)
    requires forall i :: 0 <= i < |nodes| ==> nodes[i] != name
    ensures Occurrences(nodes, name) == 0
    decreases |nodes|
  {
    if nodes != [] {
      NotListed(nodes[..|nodes| - 1], name);
    }
  }

  lemma {:induction false} OneEntryEach(plugins: seq<ScorePlugin>, nodes: seq<string>, name: string,
                                        apollo: Option<Apollo>, k: nat)
    requires Occurrences(nodes, name) == 1 && k < |plugins|
    ensures |Entries(plugins, nodes, name, apollo)| == |plugins|
    ensures Entries(plugins, nodes, name, apollo)[k] == Entry(plugins[k], name, apollo)
    decreases |plugins|
  {
    var n := |plugins| - 1;
    if n > 0 {
      OneEntryEach(plugins[..n], nodes, name, apollo, if k < n then k else 0);
    }
  }

  function SumOf(scores: seq<PluginScore>): int {
    if scores == [] then 0 else SumOf(scores[..|scores| - 1]) + scores[|scores| - 1].score
  }

  predicate AddsUp(r: PluginResult) {
    r.totalNodeScore == Wrap(SumOf(r.scores))
  }

  lemma ScoreAddsUp(result: ResultMap, p: ScorePlugin, name: string, apollo: Option<Apollo>)
    requires name in result && AddsUp(result[name])
    ensures AddsUp(ScoreNode(result, p, name, apollo)[name])
  {
    var scores, entry := result[name].scores, Entry(p, name, apollo);
    assert (scores + [entry])[..|scores|] == scores;
    WrapAdds(SumOf(scores), entry.score);
  }

  lemma {:induction false} PassAddsUp(result: ResultMap, p: ScorePlugin, nodes: seq<string>, apollo: Option<Apollo>,
                                      name: string)
    requires (forall x :: x in nodes ==> x in result) && name in result && AddsUp(result[name])
    ensures AddsUp(Pass(result, p, nodes, apollo)[name])
    decreases |nodes|
  {
    if nodes != [] {
      var n := |nodes| - 1;
      PassAddsUp(result, p, nodes[..n], apollo, name);
      if nodes[n] == name {
        ScoreAddsUp(Pass(result, p, nodes[..n], apollo), p, name, apollo);
      }
    }
  }

  /** In every result a node's total is the int64 sum of its own entries. */
  lemma {:induction false} TotalsAddUp(plugins: seq<ScorePlugin>, nodes: seq<string>, apollo: Option<Apollo>,
                                       name: string)
    requires name in nodes
    ensures AddsUp(Run(plugins, nodes, apollo)[name])
    decreases |plugins|
  {
    if plugins != [] {
      var n := |plugins| - 1;
      TotalsAddUp(plugins[..n], nodes, apollo, name);
      PassAddsUp(Run(plugins[..n], nodes, apollo), plugins[n], nodes, apollo, name);
    }
  }

  // ----- the order of plugins

  lemma {:induction false} SumAppend(a: seq<ScorePlugin>, b: seq<ScorePlugin>, name: string, apollo: Option<Apollo>)
    ensures WeightedSum(a + b, name, apollo) == WeightedSum(a, name, apollo) + WeightedSum(b, name, apollo)
    decreases |b|
  {
    if b == [] {
      assert a + b == a;
    } else {
      var n := |b| - 1;
      assert (a + b)[..|a + b| - 1] == a + b[..n];
      SumAppend(a, b[..n], name, apollo);
    }
  }

  lemma {:induction false} SumIgnoresOrder(a: seq<ScorePlugin>, b: seq<ScorePlugin>, name: string,
                                           apollo: Option<Apollo>)
    requires multiset(a) == multiset(b)
    ensures WeightedSum(a, name, apollo) == WeightedSum(b, name, apollo)
    decreases |a|
  {
    if a == [] {
      assert |b| == |multiset(b)| == 0;
    } else {
      var n := |a| - 1;
      var j := MatchLast(a, b);
      SumIgnoresOrder(a[..n], b[..j] + b[j + 1..], name, apollo);
      SumOfThree(b[..j], a[n], b[j + 1..], name, apollo);
      SumAppend(b[..j], b[j + 1..], name, apollo);
    }
  }

  lemma SumOfThree(a: seq<ScorePlugin>, x: ScorePlugin, b: seq<ScorePlugin>, name: string, apollo: Option<Apollo>)
    ensures WeightedSum(a + [x] + b, name, apollo)
            == WeightedSum(a, name, apollo) + Weighted(x, name, apollo) + WeightedSum(b, name, apollo)
  {
    SumAppend(a + [x], b, name, apollo);
    assert (a + [x])[..|a|] == a;
  }

  /** Registering the plugins in another order changes no node's total, even when sums overflow. */
  lemma OrderDoesNotMatter(plugins: seq<ScorePlugin>, others: seq<ScorePlugin>, nodes: seq<string>,
                           apollo: Option<Apollo>, name: string)
    requires multiset(plugins) == multiset(others) && name in nodes
    ensures Run(plugins, nodes, apollo)[name].totalNodeScore == Run(others, nodes, apollo)[name].totalNodeScore
  {
    RunGivesTotals(plugins, nodes, apollo, name);
    RunGivesTotals(others, nodes, apollo, name);
    SumIgnoresOrder(plugins, others, name, apollo);
  }

  // ----- prefilter

  /** A plugin's own node set, which the framework must not touch. */
  class NodeNames {
    var names: set<string>

    constructor (names: set<string>)
      ensures this.names == names
    {
      this.names := names;
    }
  }

  datatype PreFilter = PreFilter(success: bool, result: NodeNames?)

  /** The intersection of the node sets of the first k plugins that gave one. */
  ghost predicate Intersection(outcomes: seq<PreFilter>, k: nat, r: NodeNames?)
    requires k <= |outcomes|
    reads r, set i | 0 <= i < k :: outcomes[i].result
  {
    && (r == null <==> forall i :: 0 <= i < k ==> outcomes[i].result == null)
    && (r != null ==> forall name :: name in r.names <==>
          forall i :: 0 <= i < k && outcomes[i].result != null ==> name in outcomes[i].result.names)
  }

  method CopyNames(given: NodeNames) returns (r: NodeNames)
    ensures fresh(r) && r.names == given.names
  {
    var copied: set<string> := {};
    var left := given.names;
    while left != {}
      invariant left !! copied && left + copied == given.names
      decreases |left|
    {
      var name :| name in left;
      copied, left := copied + {name}, left - {name};
    }
    r := new NodeNames(copied);
  }

  method DropMissing(r: NodeNames, given: NodeNames)
    requires r != given
    modifies r
    ensures r.names == old(r.names) * given.names
  {
    var left := r.names;
    while left != {}
      invariant left <= r.names
      invariant forall x :: x in r.names <==> x in old(r.names) && (x in left || x in given.names)
      decreases |left|
    {
      var name :| name in left;
      if name !in given.names {
        r.names := r.names - {name};
      }
      left := left - {name};
    }
  }

  /** Fails with the first plugin that fails; otherwise the intersection, in a map of its own. Nothing
      in the frame: the plugins' own sets keep their contents. */
  method RunPreFilterPlugins(outcomes: seq<PreFilter>) returns (result: NodeNames?, ok: bool)
    ensures ok <==> forall i :: 0 <= i < |outcomes| ==> outcomes[i].success
    ensures !ok ==> result == null
    ensures result != null ==> fresh(result)
    ensures ok ==> Intersection(outcomes, |outcomes|, result)
  {
    result, ok := null, true;
    for k := 0 to |outcomes|
      invariant forall i :: 0 <= i < k ==> outcomes[i].success
      invariant result != null ==> fresh(result)
      invariant Intersection(outcomes, k, result)
    {
      var r := outcomes[k].result;
      if !outcomes[k].success {
        return null, false;
      }
      if r != null {
        if result == null {
          result := CopyNames(r);
        } else {
          DropMissing(result, r);
        }
      }
    }
  }
}
