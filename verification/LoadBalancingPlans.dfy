/** What a pod_count plan guarantees, and what it does to the spread of the pods. */
module LoadBalancingPlans {
  import opened Arithmetic
  import opened Options
  import opened Pods
  import opened Sorting
  import opened LoadBalancing

  ghost predicate DistinctNames(s: seq<NodeCount>) {
    forall i, j :: 0 <= i < j < |s| ==> s[i].name != s[j].name
  }

  ghost predicate DistinctNodes(nodes: seq<string>) {
    forall i, j :: 0 <= i < j < |nodes| ==> nodes[i] != nodes[j]
  }

  /** The nodes in some order: what sorting keeps of the counted list. */
  ghost predicate Permutes(order: seq<NodeCount>, per: seq<NodeCount>) {
    multiset(order) == multiset(per)
  }

  // ----- facts about lists of counts

  lemma {:induction false} CountedNames(namespace: string, nodes: seq<string>, list: Listing)
    requires DistinctNodes(nodes)
    ensures var per := Counted(namespace, nodes, list);
            && DistinctNames(per)
            && (forall i :: 0 <= i < |per| ==> per[i].name in nodes && per[i].count >= 0)
    decreases |nodes|
  {
    if nodes != [] {
      var prefix := nodes[..|nodes| - 1];
      CountedNames(namespace, prefix, list);
      assert forall name :: name in prefix ==> name in nodes && name != nodes[|nodes| - 1];
    }
  }

  lemma SameMembers(order: seq<NodeCount>, per: seq<NodeCount>, i: nat) returns (j: nat)
    requires Permutes(order, per) && i < |order|
    ensures j < |per| && per[j] == order[i]
  {
    assert order[i] in multiset(per);
    j :| 0 <= j < |per| && per[j] == order[i];
  }

  lemma PermutedNames(order: seq<NodeCount>, per: seq<NodeCount>)
    requires Permutes(order, per) && DistinctNames(per)
    ensures DistinctNames(order) && |order| == |per|
  {
    DistinctPermutes(per, order);
    forall i, j | 0 <= i < j < |order| ensures order[i].name != order[j].name {
      var p := SameMembers(order, per, i);
      var q := SameMembers(order, per, j);
    }
  }

  lemma {:induction false} TotalAppend(s: seq<NodeCount>, t: seq<NodeCount>)
    ensures Total(s + t) == Total(s) + Total(t)
    decreases |t|
  {
    if t == [] {
      assert s + t == s;
    } else {
      var n := |t| - 1;
      assert (s + t)[..|s + t| - 1] == s + t[..n];
      TotalAppend(s, t[..n]);
    }
  }

  lemma {:induction false} TotalPermutes(s: seq<NodeCount>, t: seq<NodeCount>)
    requires Permutes(s, t)
    ensures Total(s) == Total(t)
    decreases |s|
  {
    if s == [] {
      assert |t| == |multiset(t)| == 0;
    } else {
      var j := MatchLast(s, t);
      var x := s[|s| - 1];
      TotalPermutes(s[..|s| - 1], t[..j] + t[j + 1..]);
      TotalAppend(t[..j], t[j + 1..]);
      TotalAppend(t[..j], [x]);
      TotalAppend(t[..j] + [x], t[j + 1..]);
      assert Total([x]) == Total([]) + x.count;
    }
  }

  lemma {:induction false} TotalAtLeast(s: seq<NodeCount>, t: int)
    requires forall i :: 0 <= i < |s| ==> s[i].count >= t
    ensures Total(s) >= |s| * t
    ensures (exists i :: 0 <= i < |s| && s[i].count > t) ==> Total(s) > |s| * t
    decreases |s|
  {
    if s != [] {
      var n := |s| - 1;
      TotalAtLeast(s[..n], t);
      assert |s| * t == n * t + t;
      if s[n].count == t && exists i :: 0 <= i < |s| && s[i].count > t {
        var i :| 0 <= i < |s| && s[i].count > t;
        assert s[..n][i].count > t;
      }
    }
  }

  // ----- each move of a plan

  /** A heavy node is strictly above the mean. */
  lemma HeavyIsAboveMean(count: int, total: int, n: nat, threshold: int)
    requires Heavy(count, total, n, threshold) && threshold >= 1
    ensures count * n > total
  {
    NonNegativeProduct(threshold - 1, n);
  }

  /** What planning starts from: the counted nodes, in two orders. */
  ghost predicate Planned(cycle: Cycle, order: seq<NodeCount>) {
    && 0 < cycle.n == |order| && cycle.limit > 0 && cycle.total == Total(order)
    && DistinctNames(order) && (forall i :: 0 <= i < |order| ==> order[i].count >= 0)
    && Permutes(cycle.targets, order) && SortedBy(cycle.targets, Ascending())
  }

  function Least(cycle: Cycle): NodeCount
    requires cycle.targets != []
  {
    cycle.targets[0]
  }

  lemma TargetsNonEmpty(cycle: Cycle, order: seq<NodeCount>)
    requires Planned(cycle, order)
    ensures cycle.targets != []
  {
    assert |cycle.targets| == |multiset(cycle.targets)| == |multiset(order)| == |order|;
  }

  lemma LeastIsLeast(cycle: Cycle, order: seq<NodeCount>, i: nat)
    requires Planned(cycle, order) && cycle.targets != [] && i < |order|
    ensures Least(cycle).count <= order[i].count
    ensures order[i].name == Least(cycle).name ==> order[i] == Least(cycle)
  {
    var j := SameMembers(order, cycle.targets, i);
    assert Ascending()(cycle.targets[0]) <= Ascending()(cycle.targets[j]);
    var k := SameMembers(cycle.targets, order, 0);
  }

  /** A node above the mean exists only if the least loaded node is below it. */
  lemma LeastIsBelowMean(cycle: Cycle, order: seq<NodeCount>, i: nat)
    requires Planned(cycle, order) && cycle.targets != [] && i < |order| && order[i].count * cycle.n > cycle.total
    ensures Least(cycle).count * cycle.n < cycle.total && Least(cycle).count < order[i].count
    ensures Least(cycle).name != order[i].name
  {
    var t := Least(cycle).count;
    forall j | 0 <= j < |order| ensures order[j].count >= t {
      LeastIsLeast(cycle, order, j);
    }
    TotalAtLeast(order, t);
    ProductReflects(t, order[i].count, cycle.n);
    LeastIsLeast(cycle, order, i);
  }

  /** What every move keeps to. */
  ghost predicate MoveOk(cycle: Cycle, order: seq<NodeCount>, plan: seq<Move>, k: nat)
    requires k < |plan| && cycle.targets != []
  {
    && plan[k].target == Least(cycle).name != plan[k].source
    && Least(cycle).count * cycle.n < cycle.total
    && plan[k].priority == 100 - k
    && cycle.list(plan[k].source).Some?
    && IsFirstMovable(cycle.namespace, cycle.list(plan[k].source).value, plan[k].pod)
    && exists i :: 0 <= i < |order| && IsSource(cycle, order[i], plan[k])
  }

  predicate IsSource(cycle: Cycle, node: NodeCount, move: Move)
    requires cycle.targets != []
  {
    node.name == move.source && node.count * cycle.n > cycle.total && node.count > Least(cycle).count
  }

  ghost predicate PlanOk(cycle: Cycle, order: seq<NodeCount>, plan: seq<Move>)
    requires cycle.targets != []
  {
    && |plan| <= cycle.limit
    && (forall k :: 0 <= k < |plan| ==> MoveOk(cycle, order, plan, k))
    && (forall k, l :: 0 <= k < l < |plan| ==> plan[k].source != plan[l].source && plan[k].priority > plan[l].priority)
  }

  lemma {:induction false} FirstMovableIsListed(namespace: string, pods: seq<PodRef>)
    ensures FirstMovable(namespace, pods).Some? ==> IsFirstMovable(namespace, pods, FirstMovable(namespace, pods).value)
    ensures FirstMovable(namespace, pods).None? <==> forall i :: 0 <= i < |pods| ==> !MayMove(namespace, pods[i])
    decreases |pods|
  {
    if pods != [] {
      FirstMovableIsListed(namespace, pods[1..]);
      assert forall i :: 1 <= i < |pods| ==> pods[i] == pods[1..][i - 1];
    }
  }

  /** An offer out of a node moves one of its movable pods to the least loaded node. */
  lemma OfferIsSound(cycle: Cycle, order: seq<NodeCount>, i: nat, done: nat)
    requires Planned(cycle, order) && cycle.targets != [] && i < |order| && cycle.Offer(order[i], done).Some?
    ensures done < cycle.limit && MoveOk(cycle, order, [cycle.Offer(order[i], done).value.(priority := 100)], 0)
    ensures var m := cycle.Offer(order[i], done).value; m.priority == 100 - done && m.source == order[i].name
  {
    HeavyIsAboveMean(order[i].count, cycle.total, cycle.n, Threshold(cycle.namespace, cycle.total, cycle.n));
    LeastIsBelowMean(cycle, order, i);
    FirstMovableIsListed(cycle.namespace, cycle.list(order[i].name).value);
    assert IsSource(cycle, order[i], cycle.Offer(order[i], done).value.(priority := 100));
  }

  lemma MoveStaysOk(cycle: Cycle, order: seq<NodeCount>, plan: seq<Move>, k: nat, other: seq<Move>, l: nat)
    requires cycle.targets != [] && k < |plan| && l < |other| && MoveOk(cycle, order, plan, k)
    requires other[l] == plan[k].(priority := 100 - l)
    ensures MoveOk(cycle, order, other, l)
  {
    var i :| 0 <= i < |order| && IsSource(cycle, order[i], plan[k]);
    assert IsSource(cycle, order[i], other[l]);
  }

  /** The plan moves nothing away from the node. */
  ghost predicate Untouched(plan: seq<Move>, name: string) {
    forall k :: 0 <= k < |plan| ==> plan[k].source != name
  }

  lemma PlanGrows(cycle: Cycle, order: seq<NodeCount>, prior: seq<Move>, move: Move)
    requires cycle.targets != [] && PlanOk(cycle, order, prior) && |prior| < cycle.limit
    requires MoveOk(cycle, order, [move.(priority := 100)], 0) && move.priority == 100 - |prior|
    requires Untouched(prior, move.source)
    ensures PlanOk(cycle, order, prior + [move])
  {
    var plan := prior + [move];
    MoveStaysOk(cycle, order, [move.(priority := 100)], 0, plan, |prior|);
    forall l | 0 <= l < |prior| ensures MoveOk(cycle, order, plan, l) {
      MoveStaysOk(cycle, order, prior, l, plan, l);
    }
    forall k, l | 0 <= k < l < |plan| ensures plan[k].source != plan[l].source && plan[k].priority > plan[l].priority {
      assert MoveOk(cycle, order, plan, k) && MoveOk(cycle, order, plan, l);
    }
  }

  /** Within a prefix of the order: the plan keeps to its rules and draws from no later node. */
  lemma {:induction false} PrefixPlan(cycle: Cycle, order: seq<NodeCount>, k: nat)
    requires Planned(cycle, order) && cycle.targets != [] && k <= |order|
    ensures PlanOk(cycle, order, cycle.Chosen(order[..k]))
    ensures forall j :: k <= j < |order| ==> Untouched(cycle.Chosen(order[..k]), order[j].name)
    decreases k
  {
    if k > 0 {
      assert order[..k][..k - 1] == order[..k - 1];
      PrefixPlan(cycle, order, k - 1);
      var prior := cycle.Chosen(order[..k - 1]);
      var offer := cycle.Offer(order[k - 1], |prior|);
      if offer.Some? {
        OfferIsSound(cycle, order, k - 1, |prior|);
        PlanGrows(cycle, order, prior, offer.value);
        forall j | k <= j < |order| ensures Untouched(prior + [offer.value], order[j].name) {
          assert order[k - 1].name != order[j].name;
        }
        assert cycle.Chosen(order[..k]) == prior + [offer.value];
      } else {
        assert cycle.Chosen(order[..k]) == prior;
      }
    }
  }

  /** calculatePodCountPlan's inputs, after its two sorts. */
  ghost predicate Prepared(namespace: string, nodes: seq<string>, first: Listing, order: seq<NodeCount>, cycle: Cycle) {
    var per := Counted(namespace, nodes, first);
    && per != [] && Permutes(order, per) && Permutes(cycle.targets, per) && SortedBy(cycle.targets, Ascending())
    && cycle.limit > 0 && cycle.total == Total(per) && cycle.n == |per|
  }

  lemma PreparedIsPlanned(namespace: string, nodes: seq<string>, first: Listing, order: seq<NodeCount>, cycle: Cycle)
    requires DistinctNodes(nodes) && Prepared(namespace, nodes, first, order, cycle)
    ensures Planned(cycle, order)
  {
    CountedNames(namespace, nodes, first);
    SortedIsPlanned(Counted(namespace, nodes, first), order, cycle);
  }

  ghost predicate ProperCounts(per: seq<NodeCount>) {
    per != [] && DistinctNames(per) && forall i :: 0 <= i < |per| ==> per[i].count >= 0
  }

  lemma SortedIsPlanned(per: seq<NodeCount>, order: seq<NodeCount>, cycle: Cycle)
    requires ProperCounts(per) && cycle.limit > 0 && cycle.total == Total(per) && cycle.n == |per|
    requires Permutes(order, per) && Permutes(cycle.targets, per) && SortedBy(cycle.targets, Ascending())
    ensures Planned(cycle, order)
  {
    PermutedNames(order, per);
    TotalPermutes(order, per);
    forall i | 0 <= i < |order| ensures order[i].count >= 0 {
      var j := SameMembers(order, per, i);
    }
  }

  /** calculatePodCountPlan: every move leaves a node strictly above the mean for the least loaded
      node, strictly below it; at most one per source, at most the cycle's limit. */
  lemma PlanIsSound(namespace: string, nodes: seq<string>, first: Listing, order: seq<NodeCount>, cycle: Cycle)
    requires DistinctNodes(nodes) && Prepared(namespace, nodes, first, order, cycle)
    ensures Planned(cycle, order) && cycle.targets != [] && PlanOk(cycle, order, cycle.Chosen(order))
  {
    PreparedIsPlanned(namespace, nodes, first, order, cycle);
    TargetsNonEmpty(cycle, order);
    PrefixPlan(cycle, order, |order|);
    assert order[..|order|] == order;
  }

  ghost predicate SoundMove(per: seq<NodeCount>, second: Listing, namespace: string, m: Move, k: nat,
                            source: NodeCount, target: NodeCount)
  {
    && source in per && target in per && m.source == source.name && m.target == target.name
    && target.count * |per| < Total(per) < source.count * |per|
    && (forall c :: c in per ==> target.count <= c.count)
    && m.priority == 100 - k
    && second(m.source).Some? && IsFirstMovable(namespace, second(m.source).value, m.pod)
  }

  /** calculatePodCountPlan, from outside: every move takes a movable pod listed on its source from a
      node strictly above the mean to a least loaded node, strictly below it. */
  lemma EveryMoveIsSound(namespace: string, maxMigrations: int, nodes: seq<string>, first: Listing, second: Listing,
                         plan: seq<Move>, k: nat)
    returns (source: NodeCount, target: NodeCount)
    requires DistinctNodes(nodes) && IsPodCountPlan(namespace, maxMigrations, nodes, first, second, plan) && k < |plan|
    ensures SoundMove(Counted(namespace, nodes, first), second, namespace, plan[k], k, source, target)
    ensures |plan| <= if maxMigrations <= 0 then 1 else maxMigrations
    ensures forall l :: 0 <= l < |plan| && l != k ==> plan[l].source != plan[k].source
  {
    var per := Counted(namespace, nodes, first);
    var order, targets :| ChosenFrom(per, namespace, maxMigrations, second, order, targets, plan);
    var cycle := CycleOver(per, namespace, maxMigrations, second, targets);
    PlanIsSound(namespace, nodes, first, order, cycle);
    assert MoveOk(cycle, order, plan, k);
    var i :| 0 <= i < |order| && IsSource(cycle, order[i], plan[k]);
    source, target := order[i], Least(cycle);
    var j := SameMembers(order, per, i);
    j := SameMembers(targets, per, 0);
    forall c | c in per ensures target.count <= c.count {
      assert c in multiset(order);
      var n :| 0 <= n < |order| && order[n] == c;
      LeastIsLeast(cycle, order, n);
    }
  }

  /** A cycle moves nothing exactly when no node has anything to offer. */
  lemma {:induction false} NothingToMove(cycle: Cycle, order: seq<NodeCount>)
    requires cycle.n > 0
    ensures cycle.Chosen(order) == [] <==> forall i :: 0 <= i < |order| ==> cycle.Offer(order[i], 0).None?
    decreases |order|
  {
    if order != [] {
      NothingToMove(cycle, order[..|order| - 1]);
      assert forall i :: 0 <= i < |order| - 1 ==> order[..|order| - 1][i] == order[i];
    }
  }

  /** Sorting by priority, as execution does, leaves a plan in its order. */
  lemma ExecutionKeepsOrder(cycle: Cycle, order: seq<NodeCount>, plan: seq<Move>, sorted: seq<Move>)
    requires cycle.targets != [] && PlanOk(cycle, order, plan)
    requires multiset(sorted) == multiset(plan) && SortedBy(sorted, ByPriority())
    ensures sorted == plan
  {
    forall i, j | 0 <= i < j < |plan| ensures ByPriority()(plan[i]) < ByPriority()(plan[j]) {
      assert plan[i].priority > plan[j].priority;
    }
    SortingStrictOrder(plan, sorted, ByPriority());
  }

  // ----- the effect of a plan

  function Shift(s: seq<NodeCount>, m: Move): (r: seq<NodeCount>)
    ensures |r| == |s|
  {
    seq(|s|, i requires 0 <= i < |s| =>
      s[i].(count := s[i].count - (if s[i].name == m.source then 1 else 0) + (if s[i].name == m.target then 1 else 0)))
  }

  /** The counts once every move of the plan has been carried out. */
  function After(s: seq<NodeCount>, plan: seq<Move>): (r: seq<NodeCount>)
    ensures |r| == |s|
    decreases |plan|
  {
    if plan == [] then s else Shift(After(s, plan[..|plan| - 1]), plan[|plan| - 1])
  }

  /** The sum of the squared counts: least when the pods are spread evenly. */
  function Squares(s: seq<NodeCount>): int
    decreases |s|
  {
    if s == [] then 0 else Squares(s[..|s| - 1]) + s[|s| - 1].count * s[|s| - 1].count
  }

  function CountOf(s: seq<NodeCount>, name: string): int
    decreases |s|
  {
    if s == [] then 0
    else if s[|s| - 1].name == name then s[|s| - 1].count
    else CountOf(s[..|s| - 1], name)
  }

  /** How many pods the sources of a plan held, together. */
  function Held(s: seq<NodeCount>, plan: seq<Move>): int
    decreases |plan|
  {
    if plan == [] then 0 else Held(s, plan[..|plan| - 1]) + CountOf(s, plan[|plan| - 1].source)
  }

  lemma {:induction false} CountOfNode(s: seq<NodeCount>, i: nat)
    requires DistinctNames(s) && i < |s|
    ensures CountOf(s, s[i].name) == s[i].count
    decreases |s|
  {
    if i < |s| - 1 {
      CountOfNode(s[..|s| - 1], i);
    }
  }

  function Step(up: bool): int {
    if up then 1 else -1
  }

  function Adjusted(s: seq<NodeCount>, i: nat, up: bool): (r: seq<NodeCount>)
    requires i < |s|
    ensures |r| == |s|
  {
    s[i := s[i].(count := s[i].count + Step(up))]
  }

  lemma SquareStep(c: int)
    ensures (c - 1) * (c - 1) == c * c - 2 * c + 1 && (c + 1) * (c + 1) == c * c + 2 * c + 1
  {
  }

  /** One pod more or less on one node. */
  lemma {:induction false} Adjust(s: seq<NodeCount>, i: nat, up: bool)
    requires i < |s|
    ensures var t := Adjusted(s, i, up);
            Total(t) == Total(s) + Step(up) &&
            Squares(t) == Squares(s) + 1 + if up then 2 * s[i].count else -2 * s[i].count
    decreases |s|
  {
    var n := |s| - 1;
    var t := Adjusted(s, i, up);
    if i < n {
      assert t[..n] == Adjusted(s[..n], i, up);
      Adjust(s[..n], i, up);
    } else {
      assert t[..n] == s[..n];
      SquareStep(s[i].count);
    }
  }

  lemma TwoAdjusts(s: seq<NodeCount>, i: nat, j: nat)
    requires i < |s| && j < |s| && i != j
    ensures var t := Adjusted(Adjusted(s, i, false), j, true);
            Total(t) == Total(s) && Squares(t) == Squares(s) - 2 * (s[i].count - s[j].count - 1)
  {
    Adjust(s, i, false);
    var t := Adjusted(s, i, false);
    assert t[j] == s[j];
    Adjust(t, j, true);
  }

  /** One move: no pod is lost, and the spread changes by twice the gap it closes, less one. */
  lemma OneMove(s: seq<NodeCount>, m: Move, i: nat, j: nat)
    requires DistinctNames(s) && i < |s| && j < |s| && s[i].name == m.source && s[j].name == m.target && i != j
    ensures Total(Shift(s, m)) == Total(s)
    ensures Squares(Shift(s, m)) == Squares(s) - 2 * (s[i].count - s[j].count - 1)
  {
    ShiftIsTwoUpdates(s, m, i, j);
    TwoAdjusts(s, i, j);
  }

  lemma ShiftIsTwoUpdates(s: seq<NodeCount>, m: Move, i: nat, j: nat)
    requires DistinctNames(s) && i < |s| && j < |s| && s[i].name == m.source && s[j].name == m.target && i != j
    ensures Shift(s, m) == Adjusted(Adjusted(s, i, false), j, true)
  {
    forall k | 0 <= k < |s| && k != i && k != j
      ensures s[k].name != m.source && s[k].name != m.target
    {
      assert if k < i then s[k].name != s[i].name else s[i].name != s[k].name;
      assert if k < j then s[k].name != s[j].name else s[j].name != s[k].name;
    }
  }

  /** Nodes a plan does not draw from keep their count; the target gains one pod per move. */
  lemma {:induction false} AfterCounts(s: seq<NodeCount>, plan: seq<Move>, target: string, i: nat)
    requires i < |s| && Untouched(plan, s[i].name)
    requires forall k :: 0 <= k < |plan| ==> plan[k].target == target
    ensures After(s, plan)[i].name == s[i].name
    ensures After(s, plan)[i].count == s[i].count + if s[i].name == target then |plan| else 0
    decreases |plan|
  {
    if plan != [] {
      AfterCounts(s, plan[..|plan| - 1], target, i);
    }
  }

  lemma {:induction false} AfterNames(s: seq<NodeCount>, plan: seq<Move>)
    ensures forall i :: 0 <= i < |s| ==> After(s, plan)[i].name == s[i].name
    decreases |plan|
  {
    if plan != [] {
      AfterNames(s, plan[..|plan| - 1]);
    }
  }

  /** What m moves to a node holding t pods add to the sum of squares, before the sources' share. */
  function Gain(m: nat, t: int): int {
    if m == 0 then 0 else Gain(m - 1, t) + 2 * (t + m)
  }

  lemma {:induction false} GainInFull(m: nat, t: int)
    ensures Gain(m, t) == m * (m + 1) + 2 * (m * t)
  {
    if m > 0 {
      GainInFull(m - 1, t);
      assert m * (m + 1) == (m - 1) * m + 2 * m;
      assert m * t == (m - 1) * t + t;
    }
  }

  /** The exact effect of the first m moves: no pod is lost, and the sum of squares changes by the
      target's gain less twice what the sources held. */
  lemma {:induction false} PlanEffect(cycle: Cycle, order: seq<NodeCount>, plan: seq<Move>, m: nat)
    requires Planned(cycle, order) && cycle.targets != [] && PlanOk(cycle, order, plan) && m <= |plan|
    ensures Total(After(order, plan[..m])) == Total(order)
    ensures Squares(After(order, plan[..m])) - Squares(order)
            == Gain(m, Least(cycle).count) - 2 * Held(order, plan[..m])
    decreases m
  {
    if m > 0 {
      assert plan[..m][..m - 1] == plan[..m - 1];
      PlanEffect(cycle, order, plan, m - 1);
      LastMove(cycle, order, plan, m - 1);
    }
  }

  lemma LastMove(cycle: Cycle, order: seq<NodeCount>, plan: seq<Move>, m: nat)
    requires Planned(cycle, order) && cycle.targets != [] && PlanOk(cycle, order, plan) && m < |plan|
    ensures var before, after := After(order, plan[..m]), Shift(After(order, plan[..m]), plan[m]);
            && Total(after) == Total(before)
            && Squares(after) - Squares(before) == 2 * (Least(cycle).count + m + 1 - CountOf(order, plan[m].source))
  {
    assert MoveOk(cycle, order, plan, m);
    var i :| 0 <= i < |order| && IsSource(cycle, order[i], plan[m]);
    var j := SameMembers(cycle.targets, order, 0);
    CountOfNode(order, i);
    AfterNames(order, plan[..m]);
    forall k | 0 <= k < m ensures plan[..m][k].target == Least(cycle).name != plan[..m][k].source {
      assert MoveOk(cycle, order, plan, k);
    }
    AfterCounts(order, plan[..m], Least(cycle).name, i);
    AfterCounts(order, plan[..m], Least(cycle).name, j);
    OneMove(After(order, plan[..m]), plan[m], i, j);
  }

  // ----- the plan and its effect, from the planner's inputs

  /** The least whole number that is at least one and at least half of the mean, or, within a namespace, one. */
  ghost predicate IsThreshold(namespace: string, total: int, n: nat, t: int) {
    if namespace != "" then t == 1
    else t >= 1 && 2 * n * t >= total && forall u :: 1 <= u < t ==> 2 * n * u < total
  }

  /** The count exceeds the mean by more than the threshold less one. */
  ghost predicate Overfull(namespace: string, count: int, total: int, n: nat) {
    exists t :: IsThreshold(namespace, total, n, t) && count * n > total + (t - 1) * n
  }

  lemma ThresholdIsLeast(namespace: string, total: int, n: nat)
    requires n > 0
    ensures IsThreshold(namespace, total, n, Threshold(namespace, total, n))
  {
    if namespace == "" {
      CeilingIsLeast(total, 2 * n, (total + 2 * n - 1) / (2 * n));
    }
  }

  lemma CeilingIsLeast(total: int, m: int, q: int)
    requires m > 0 && q == (total + m - 1) / m
    ensures q <= 1 ==> m >= total
    ensures m * q >= total && forall u :: u < q ==> m * u < total
  {
    assert total + m - 1 == q * m + (total + m - 1) % m;
    SwapFactors(q, m);
    if q <= 1 {
      MulMonotone(q, 1, m);
    }
    forall u | u < q ensures m * u < total {
      MulMonotone(u, q, m);
      SwapFactors(u, m);
    }
  }

  lemma ThresholdIsUnique(namespace: string, total: int, n: nat, t: int)
    requires n > 0 && IsThreshold(namespace, total, n, t)
    ensures t == Threshold(namespace, total, n)
  {
    ThresholdIsLeast(namespace, total, n);
  }

  /** The planner's test on integers, in terms of the least threshold. */
  lemma HeavyExactlyWhen(namespace: string, count: int, total: int, n: nat)
    requires n > 0
    ensures Heavy(count, total, n, Threshold(namespace, total, n)) <==> Overfull(namespace, count, total, n)
  {
    ThresholdIsLeast(namespace, total, n);
    if Overfull(namespace, count, total, n) {
      var t :| IsThreshold(namespace, total, n, t) && count * n > total + (t - 1) * n;
      ThresholdIsUnique(namespace, total, n, t);
    }
  }

  /** Within the namespace, if any is asked for, and not of the system's own. */
  predicate MayMove(namespace: string, pod: PodRef) {
    namespace in {"", pod.namespace} && pod.namespace !in {"kube-system", "apollo"}
  }

  /** The pod is the first on the list that may be moved. */
  predicate IsFirstMovable(namespace: string, pods: seq<PodRef>, pod: PodRef) {
    exists i :: 0 <= i < |pods| && pods[i] == pod && MayMove(namespace, pod) &&
                forall j :: 0 <= j < i ==> !MayMove(namespace, pods[j])
  }

  /** A node has a pod to give: it is too full, and a pod that may be moved is listed on it. */
  ghost predicate Gives(cycle: Cycle, c: NodeCount) {
    && Overfull(cycle.namespace, c.count, cycle.total, cycle.n)
    && cycle.list(c.name).Some?
    && exists i :: 0 <= i < |cycle.list(c.name).value| && MayMove(cycle.namespace, cycle.list(c.name).value[i])
  }

  ghost function Givers(cycle: Cycle, s: seq<NodeCount>): seq<NodeCount>
    requires cycle.n > 0
    decreases |s|
  {
    if s == [] then []
    else Givers(cycle, s[..|s| - 1]) + if Gives(cycle, s[|s| - 1]) then [s[|s| - 1]] else []
  }

  function Min(a: int, b: int): int {
    if a < b then a else b
  }

  lemma OfferExactlyWhen(cycle: Cycle, order: seq<NodeCount>, i: nat, done: nat)
    requires Planned(cycle, order) && cycle.targets != [] && i < |order|
    ensures cycle.Offer(order[i], done).Some? <==> done < cycle.limit && Gives(cycle, order[i])
  {
    HeavyExactlyWhen(cycle.namespace, order[i].count, cycle.total, cycle.n);
    if cycle.list(order[i].name).Some? {
      FirstMovableIsListed(cycle.namespace, cycle.list(order[i].name).value);
    }
    if Gives(cycle, order[i]) {
      HeavyIsAboveMean(order[i].count, cycle.total, cycle.n, Threshold(cycle.namespace, cycle.total, cycle.n));
      LeastIsBelowMean(cycle, order, i);
    }
  }

  /** The sources of a plan are exactly the first givers, as many as the limit allows. */
  lemma {:induction false} SourcesAreGivers(cycle: Cycle, order: seq<NodeCount>, k: nat)
    requires Planned(cycle, order) && cycle.targets != [] && k <= |order|
    ensures var plan, givers := cycle.Chosen(order[..k]), Givers(cycle, order[..k]);
            |plan| == Min(cycle.limit, |givers|) && forall l :: 0 <= l < |plan| ==> plan[l].source == givers[l].name
    decreases k
  {
    if k > 0 {
      assert order[..k][..k - 1] == order[..k - 1];
      SourcesAreGivers(cycle, order, k - 1);
      OfferExactlyWhen(cycle, order, k - 1, |cycle.Chosen(order[..k - 1])|);
    }
  }

  lemma {:induction false} GiversExactly(cycle: Cycle, s: seq<NodeCount>, c: NodeCount)
    requires cycle.n > 0
    ensures c in Givers(cycle, s) <==> c in s && Gives(cycle, c)
    decreases |s|
  {
    if s != [] {
      GiversExactly(cycle, s[..|s| - 1], c);
      assert s == s[..|s| - 1] + [s[|s| - 1]];
    }
  }

  lemma {:induction false} GiversStaySorted(cycle: Cycle, s: seq<NodeCount>)
    requires cycle.n > 0 && SortedBy(s, Descending())
    ensures SortedBy(Givers(cycle, s), Descending())
    decreases |s|
  {
    if s != [] {
      var n := |s| - 1;
      GiversStaySorted(cycle, s[..n]);
      var prior := Givers(cycle, s[..n]);
      forall i | 0 <= i < |prior| ensures Descending()(prior[i]) <= Descending()(s[n]) {
        GiversExactly(cycle, s[..n], prior[i]);
        var p :| 0 <= p < n && s[..n][p] == prior[i];
        assert Descending()(s[p]) <= Descending()(s[n]);
      }
    }
  }

  lemma {:induction false} GiversAppend(cycle: Cycle, s: seq<NodeCount>, t: seq<NodeCount>)
    requires cycle.n > 0
    ensures Givers(cycle, s + t) == Givers(cycle, s) + Givers(cycle, t)
    decreases |t|
  {
    if t == [] {
      assert s + t == s;
    } else {
      assert (s + t)[..|s + t| - 1] == s + t[..|t| - 1];
      GiversAppend(cycle, s, t[..|t| - 1]);
    }
  }

  lemma {:induction false} GiversPermute(cycle: Cycle, s: seq<NodeCount>, t: seq<NodeCount>)
    requires cycle.n > 0 && Permutes(s, t)
    ensures Permutes(Givers(cycle, s), Givers(cycle, t))
    decreases |s|
  {
    if s == [] {
      assert |t| == |multiset(t)| == 0;
    } else {
      var j := MatchLast(s, t);
      var x := s[|s| - 1];
      GiversPermute(cycle, s[..|s| - 1], t[..j] + t[j + 1..]);
      GiversAppend(cycle, t[..j], t[j + 1..]);
      GiversAppend(cycle, t[..j], [x]);
      GiversAppend(cycle, t[..j] + [x], t[j + 1..]);
      OneGiver(cycle, x);
    }
  }

  lemma OneGiver(cycle: Cycle, x: NodeCount)
    requires cycle.n > 0
    ensures Givers(cycle, [x]) == if Gives(cycle, x) then [x] else []
  {
    assert [x][..0] == [];
  }

  /** What the sources of a plan hold is what the first givers hold. */
  lemma {:induction false} HeldByGivers(order: seq<NodeCount>, plan: seq<Move>, givers: seq<NodeCount>, m: nat)
    requires DistinctNames(order) && m <= |plan| && m <= |givers|
    requires forall l :: 0 <= l < m ==> plan[l].source == givers[l].name && givers[l] in order
    ensures Held(order, plan[..m]) == Total(givers[..m])
    decreases m
  {
    if m > 0 {
      assert plan[..m][..m - 1] == plan[..m - 1] && givers[..m][..m - 1] == givers[..m - 1];
      HeldByGivers(order, plan, givers, m - 1);
      var i :| 0 <= i < |order| && order[i] == givers[m - 1];
      CountOfNode(order, i);
    }
  }

  lemma {:induction false} SameTotals(s: seq<NodeCount>, t: seq<NodeCount>, m: nat)
    requires m <= |s| && m <= |t| && forall i :: 0 <= i < m ==> s[i].count == t[i].count
    ensures Total(s[..m]) == Total(t[..m])
    decreases m
  {
    if m > 0 {
      assert s[..m][..m - 1] == s[..m - 1] && t[..m][..m - 1] == t[..m - 1];
      SameTotals(s, t, m - 1);
    }
  }

  // ----- the order of nodes does not matter

  lemma ShiftAppend(s: seq<NodeCount>, t: seq<NodeCount>, m: Move)
    ensures Shift(s + t, m) == Shift(s, m) + Shift(t, m)
  {
  }

  lemma {:induction false} ShiftPermutes(s: seq<NodeCount>, t: seq<NodeCount>, m: Move)
    requires Permutes(s, t)
    ensures Permutes(Shift(s, m), Shift(t, m))
    decreases |s|
  {
    if s == [] {
      assert |t| == |multiset(t)| == 0;
    } else {
      var j := MatchLast(s, t);
      var x := s[|s| - 1];
      ShiftPermutes(s[..|s| - 1], t[..j] + t[j + 1..], m);
      assert s == s[..|s| - 1] + [x];
      ShiftAppend(s[..|s| - 1], [x], m);
      ShiftAppend(t[..j], t[j + 1..], m);
      ShiftAppend(t[..j], [x], m);
      ShiftAppend(t[..j] + [x], t[j + 1..], m);
    }
  }

  lemma {:induction false} AfterPermutes(s: seq<NodeCount>, t: seq<NodeCount>, plan: seq<Move>)
    requires Permutes(s, t)
    ensures Permutes(After(s, plan), After(t, plan))
    decreases |plan|
  {
    if plan != [] {
      AfterPermutes(s, t, plan[..|plan| - 1]);
      ShiftPermutes(After(s, plan[..|plan| - 1]), After(t, plan[..|plan| - 1]), plan[|plan| - 1]);
    }
  }

  lemma {:induction false} SquaresAppend(s: seq<NodeCount>, t: seq<NodeCount>)
    ensures Squares(s + t) == Squares(s) + Squares(t)
    decreases |t|
  {
    if t == [] {
      assert s + t == s;
    } else {
      assert (s + t)[..|s + t| - 1] == s + t[..|t| - 1];
      SquaresAppend(s, t[..|t| - 1]);
    }
  }

  lemma {:induction false} SquaresPermute(s: seq<NodeCount>, t: seq<NodeCount>)
    requires Permutes(s, t)
    ensures Squares(s) == Squares(t)
    decreases |s|
  {
    if s == [] {
      assert |t| == |multiset(t)| == 0;
    } else {
      var j := MatchLast(s, t);
      var x := s[|s| - 1];
      SquaresPermute(s[..|s| - 1], t[..j] + t[j + 1..]);
      assert s == s[..|s| - 1] + [x];
      SquaresAppend(s[..|s| - 1], [x]);
      SquaresAppend(t[..j], t[j + 1..]);
      SquaresAppend(t[..j], [x]);
      SquaresAppend(t[..j] + [x], t[j + 1..]);
    }
  }

  // ----- when a plan helps

  ghost predicate IsLeastCount(per: seq<NodeCount>, t: int) {
    (exists c :: c in per && c.count == t) && (forall c :: c in per ==> t <= c.count)
  }

  /** The planner's inputs, without the order its sorts leave open. */
  function Inputs(namespace: string, maxMigrations: int, per: seq<NodeCount>, second: Listing): Cycle {
    Cycle(namespace, if maxMigrations <= 0 then 1 else maxMigrations, Total(per), |per|, [], second)
  }

  /** The nodes that have a pod to give, fullest first. */
  ghost function Fullest(cycle: Cycle, per: seq<NodeCount>): seq<NodeCount>
    requires cycle.n > 0
  {
    Sorted(Givers(cycle, per), Descending())
  }

  /** A plan of m moves, on the inputs: m is the number of givers up to the limit, and the spread gets no
      worse exactly when twice what the m fullest givers hold is at least m(m + 1) + 2mt, t being the
      least count of any node. */
  ghost predicate HelpsExactlyWhen(per: seq<NodeCount>, plan: seq<Move>, limit: int, givers: seq<NodeCount>, t: int) {
    var m := Min(limit, |givers|);
    && 0 <= m == |plan| && Total(After(per, plan)) == Total(per)
    && (Squares(After(per, plan)) <= Squares(per) <==> 2 * Total(givers[..m]) >= m * (m + 1) + 2 * (m * t))
    && (m <= 1 ==> Squares(After(per, plan)) <= Squares(per))
  }

  lemma {:induction false} PlanHelpsExactlyWhen(namespace: string, maxMigrations: int, nodes: seq<string>,
                                               first: Listing, second: Listing, plan: seq<Move>, t: int)
    requires DistinctNodes(nodes) && IsPodCountPlan(namespace, maxMigrations, nodes, first, second, plan)
    requires IsLeastCount(Counted(namespace, nodes, first), t)
    ensures var per := Counted(namespace, nodes, first); var cycle := Inputs(namespace, maxMigrations, per, second);
            HelpsExactlyWhen(per, plan, cycle.limit, Fullest(cycle, per), t)
  {
    EnoughNodes(namespace, nodes, first);
    if |Counted(namespace, nodes, first)| < 2 || Total(Counted(namespace, nodes, first)) == 0 {
      NoPlanHelps(namespace, maxMigrations, nodes, first, second, t);
    } else {
      var per := Counted(namespace, nodes, first);
      var order, targets :| ChosenFrom(per, namespace, maxMigrations, second, order, targets, plan);
      CountedNames(namespace, nodes, first);
      SortedPlanHelps(per, namespace, maxMigrations, second, plan, t, order, targets);
    }
  }

  lemma NoPlanHelps(namespace: string, maxMigrations: int, nodes: seq<string>, first: Listing, second: Listing, t: int)
    requires DistinctNodes(nodes)
    requires var per := Counted(namespace, nodes, first); per != [] && (|per| < 2 || Total(per) == 0)
    ensures var per := Counted(namespace, nodes, first); var cycle := Inputs(namespace, maxMigrations, per, second);
            HelpsExactlyWhen(per, [], cycle.limit, Fullest(cycle, per), t)
  {
    var per := Counted(namespace, nodes, first);
    CountedNames(namespace, nodes, first);
    NothingToGive(Inputs(namespace, maxMigrations, per, second), per);
    EmptyPlanHelps(per, Inputs(namespace, maxMigrations, per, second).limit, t);
  }

  lemma EmptyPlanHelps(per: seq<NodeCount>, limit: int, t: int)
    requires limit > 0
    ensures HelpsExactlyWhen(per, [], limit, [], t)
  {
  }

  /** A single node, or nodes without pods, have nothing to give. */
  lemma NothingToGive(cycle: Cycle, per: seq<NodeCount>)
    requires cycle.n == |per| > 0 && cycle.total == Total(per) && (|per| < 2 || Total(per) == 0)
    requires forall i :: 0 <= i < |per| ==> per[i].count >= 0
    ensures Fullest(cycle, per) == []
  {
    forall i | 0 <= i < |per| ensures !Gives(cycle, per[i]) {
      AloneOrEmpty(per, per[i]);
      HeavyExactlyWhen(cycle.namespace, per[i].count, cycle.total, cycle.n);
      NotHeavy(per[i].count, cycle.total, cycle.n, Threshold(cycle.namespace, cycle.total, cycle.n));
    }
    NoGivers(cycle, per);
  }

  lemma NotHeavy(count: int, total: int, n: nat, threshold: int)
    requires count * n <= total && threshold >= 1
    ensures !Heavy(count, total, n, threshold)
  {
    if Heavy(count, total, n, threshold) {
      HeavyIsAboveMean(count, total, n, threshold);
    }
  }

  lemma {:induction false} NoGivers(cycle: Cycle, s: seq<NodeCount>)
    requires cycle.n > 0 && forall i :: 0 <= i < |s| ==> !Gives(cycle, s[i])
    ensures Givers(cycle, s) == []
    decreases |s|
  {
    if s != [] {
      NoGivers(cycle, s[..|s| - 1]);
    }
  }

  lemma AloneOrEmpty(per: seq<NodeCount>, c: NodeCount)
    requires c in per && (|per| < 2 || Total(per) == 0) && forall i :: 0 <= i < |per| ==> per[i].count >= 0
    ensures c.count * |per| <= Total(per)
  {
    if |per| < 2 {
      assert per[..0] == [];
    } else {
      var i :| 0 <= i < |per| && per[i] == c;
      TotalAtLeast(per, 0);
    }
  }

  lemma SortedPlanHelps(per: seq<NodeCount>, namespace: string, maxMigrations: int, second: Listing, plan: seq<Move>,
                        t: int, order: seq<NodeCount>, targets: seq<NodeCount>)
    requires ProperCounts(per) && IsLeastCount(per, t)
    requires ChosenFrom(per, namespace, maxMigrations, second, order, targets, plan)
    ensures var cycle := Inputs(namespace, maxMigrations, per, second);
            HelpsExactlyWhen(per, plan, cycle.limit, Fullest(cycle, per), t)
  {
    var cycle := CycleOver(per, namespace, maxMigrations, second, targets);
    SortedIsPlanned(per, order, cycle);
    TargetsNonEmpty(cycle, order);
    PrefixPlan(cycle, order, |order|);
    assert order[..|order|] == order;
    LeastIsLeastCount(cycle, order, per, t);
    HelpsInOrder(cycle, order);
    SameGivers(cycle, Inputs(namespace, maxMigrations, per, second), order, per);
    HelpsInAnyOrder(order, per, plan, cycle.limit, Givers(cycle, order),
                    Fullest(Inputs(namespace, maxMigrations, per, second), per), t);
  }

  predicate SamePrefixTotals(a: seq<NodeCount>, b: seq<NodeCount>) {
    |a| == |b| && forall m :: 0 <= m <= |a| ==> Total(a[..m]) == Total(b[..m])
  }

  lemma HelpsInAnyOrder(order: seq<NodeCount>, per: seq<NodeCount>, plan: seq<Move>, limit: int,
                        givers: seq<NodeCount>, fullest: seq<NodeCount>, t: int)
    requires Permutes(order, per) && SamePrefixTotals(givers, fullest) &&
             HelpsExactlyWhen(order, plan, limit, givers, t)
    ensures HelpsExactlyWhen(per, plan, limit, fullest, t)
  {
    SameSpread(order, per, plan);
    var m := Min(limit, |givers|);
    assert Total(givers[..m]) == Total(fullest[..m]);
  }

  lemma {:induction false} EnoughNodes(namespace: string, nodes: seq<string>, first: Listing)
    ensures |Counted(namespace, nodes, first)| <= |nodes|
    decreases |nodes|
  {
    if nodes != [] {
      EnoughNodes(namespace, nodes[..|nodes| - 1], first);
    }
  }

  lemma LeastIsLeastCount(cycle: Cycle, order: seq<NodeCount>, per: seq<NodeCount>, t: int)
    requires Planned(cycle, order) && cycle.targets != [] && Permutes(order, per) && IsLeastCount(per, t)
    ensures Least(cycle).count == t
  {
    var c :| c in per && c.count == t;
    assert c in multiset(order);
    var i :| 0 <= i < |order| && order[i] == c;
    LeastIsLeast(cycle, order, i);
    var j := SameMembers(cycle.targets, order, 0);
    var k := SameMembers(order, per, j);
  }

  lemma HelpsInOrder(cycle: Cycle, order: seq<NodeCount>)
    requires Planned(cycle, order) && cycle.targets != [] && PlanOk(cycle, order, cycle.Chosen(order))
    ensures HelpsExactlyWhen(order, cycle.Chosen(order), cycle.limit, Givers(cycle, order), Least(cycle).count)
  {
    var plan, givers := cycle.Chosen(order), Givers(cycle, order);
    assert plan[..|plan|] == plan;
    FirstGiversAreSources(cycle, order);
    PlanEffect(cycle, order, plan, |plan|);
    HeldByGivers(order, plan, givers, |plan|);
    HelpsBySums(cycle, order, plan, givers);
  }

  lemma FirstGiversAreSources(cycle: Cycle, order: seq<NodeCount>)
    requires Planned(cycle, order) && cycle.targets != []
    ensures var plan, givers := cycle.Chosen(order), Givers(cycle, order);
            |plan| == Min(cycle.limit, |givers|) <= |givers|
            && forall l :: 0 <= l < |plan| ==> givers[l] in order && plan[l].source == givers[l].name
  {
    assert order[..|order|] == order;
    SourcesAreGivers(cycle, order, |order|);
    forall l | 0 <= l < |Givers(cycle, order)| ensures Givers(cycle, order)[l] in order {
      GiversExactly(cycle, order, Givers(cycle, order)[l]);
    }
  }

  lemma HelpsBySums(cycle: Cycle, order: seq<NodeCount>, plan: seq<Move>, givers: seq<NodeCount>)
    requires Planned(cycle, order) && cycle.targets != [] && PlanOk(cycle, order, plan)
    requires |plan| == Min(cycle.limit, |givers|) <= |givers| && Held(order, plan) == Total(givers[..|plan|])
    requires Total(After(order, plan)) == Total(order)
    requires Squares(After(order, plan)) - Squares(order) == Gain(|plan|, Least(cycle).count) - 2 * Held(order, plan)
    ensures HelpsExactlyWhen(order, plan, cycle.limit, givers, Least(cycle).count)
  {
    GainInFull(|plan|, Least(cycle).count);
    if |plan| == 1 {
      OneSource(cycle, order, plan);
    }
  }

  lemma OneSource(cycle: Cycle, order: seq<NodeCount>, plan: seq<Move>)
    requires Planned(cycle, order) && cycle.targets != [] && PlanOk(cycle, order, plan) && |plan| == 1
    ensures Held(order, plan) > Least(cycle).count
  {
    assert MoveOk(cycle, order, plan, 0);
    var i :| 0 <= i < |order| && IsSource(cycle, order[i], plan[0]);
    CountOfNode(order, i);
    assert Held(order, plan) == Held(order, plan[..0]) + order[i].count;
  }

  /** The sorts leave open which of two equally full givers comes first, but not what the first ones hold. */
  lemma SameGivers(cycle: Cycle, inputs: Cycle, order: seq<NodeCount>, per: seq<NodeCount>)
    requires cycle.n > 0 && inputs == cycle.(targets := []) && Permutes(order, per) && SortedBy(order, Descending())
    ensures SamePrefixTotals(Givers(cycle, order), Fullest(inputs, per))
  {
    var a, b := Givers(cycle, order), Fullest(inputs, per);
    IgnoresTargets(cycle, inputs, per);
    GiversPermute(cycle, order, per);
    GiversStaySorted(cycle, order);
    SameKeys(a, b, Descending());
    forall i | 0 <= i < |a| ensures a[i].count == b[i].count {
      assert Descending()(a[i]) == Descending()(b[i]);
    }
    forall m | 0 <= m <= |a| ensures Total(a[..m]) == Total(b[..m]) {
      SameTotals(a, b, m);
    }
  }

  lemma {:induction false} IgnoresTargets(cycle: Cycle, inputs: Cycle, s: seq<NodeCount>)
    requires cycle.n > 0 && inputs == cycle.(targets := [])
    ensures Givers(cycle, s) == Givers(inputs, s)
    decreases |s|
  {
    if s != [] {
      IgnoresTargets(cycle, inputs, s[..|s| - 1]);
    }
  }

  lemma SameSpread(order: seq<NodeCount>, per: seq<NodeCount>, plan: seq<Move>)
    requires Permutes(order, per)
    ensures Squares(order) == Squares(per) && Total(order) == Total(per)
    ensures Squares(After(order, plan)) == Squares(After(per, plan)) &&
            Total(After(order, plan)) == Total(After(per, plan))
  {
    AfterPermutes(order, per, plan);
    SquaresPermute(order, per);
    TotalPermutes(order, per);
    SquaresPermute(After(order, plan), After(per, plan));
    TotalPermutes(After(order, plan), After(per, plan));
  }

  // ----- which nodes a plan draws from

  predicate DrawsFrom(per: seq<NodeCount>, m: Move, c: NodeCount) {
    c in per && c.name == m.source
  }

  /** Every source gives, fuller nodes go first, and a giver is left out only when the limit is reached and
      it is no fuller than any source. */
  ghost predicate TakesFullest(cycle: Cycle, per: seq<NodeCount>, plan: seq<Move>) {
    && (forall k, c :: 0 <= k < |plan| && DrawsFrom(per, plan[k], c) ==> Gives(cycle, c))
    && (forall k, l, c, d :: 0 <= k < l < |plan| && DrawsFrom(per, plan[k], c) && DrawsFrom(per, plan[l], d) ==>
          c.count >= d.count)
    && (forall c :: c in per && Gives(cycle, c) && Untouched(plan, c.name) ==>
          |plan| == cycle.limit && forall k, d :: 0 <= k < |plan| && DrawsFrom(per, plan[k], d) ==> d.count >= c.count)
  }

  lemma PlanTakesFullest(namespace: string, maxMigrations: int, nodes: seq<string>, first: Listing, second: Listing,
                         plan: seq<Move>)
    requires DistinctNodes(nodes) && IsPodCountPlan(namespace, maxMigrations, nodes, first, second, plan)
    requires Counted(namespace, nodes, first) != []
    ensures var per := Counted(namespace, nodes, first);
            TakesFullest(Inputs(namespace, maxMigrations, per, second), per, plan)
  {
    var per := Counted(namespace, nodes, first);
    var inputs := Inputs(namespace, maxMigrations, per, second);
    CountedNames(namespace, nodes, first);
    EnoughNodes(namespace, nodes, first);
    if |per| < 2 || Total(per) == 0 {
      NothingToGive(inputs, per);
      forall c | c in per ensures !Gives(inputs, c) {
        GiversExactly(inputs, per, c);
        assert |Fullest(inputs, per)| == |multiset(Fullest(inputs, per))| == |multiset(Givers(inputs, per))|;
      }
    } else {
      var order, targets :| ChosenFrom(per, namespace, maxMigrations, second, order, targets, plan);
      var cycle := CycleOver(per, namespace, maxMigrations, second, targets);
      SortedIsPlanned(per, order, cycle);
      TargetsNonEmpty(cycle, order);
      SourcesAreGivers(cycle, order, |order|);
      assert order[..|order|] == order;
      GiversStaySorted(cycle, order);
      forall c ensures c in Givers(cycle, order) <==> c in per && Gives(inputs, c) {
        GiversExactly(cycle, order, c);
        assert c in order <==> c in multiset(order);
        assert c in per <==> c in multiset(per);
      }
      FirstGivers(inputs, per, plan, Givers(cycle, order));
    }
  }

  lemma FirstGivers(cycle: Cycle, per: seq<NodeCount>, plan: seq<Move>, givers: seq<NodeCount>)
    requires DistinctNames(per) && SortedBy(givers, Descending())
    requires forall c :: c in givers <==> c in per && Gives(cycle, c)
    requires |plan| == Min(cycle.limit, |givers|) && forall l :: 0 <= l < |plan| ==> plan[l].source == givers[l].name
    ensures TakesFullest(cycle, per, plan)
  {
    forall k, c | 0 <= k < |plan| && DrawsFrom(per, plan[k], c) ensures c == givers[k] {
      assert givers[k] in givers;
    }
    forall k, l | 0 <= k < l < |givers| ensures givers[k].count >= givers[l].count {
      assert Descending()(givers[k]) <= Descending()(givers[l]);
    }
    forall c | c in per && Gives(cycle, c) && Untouched(plan, c.name)
      ensures |plan| == cycle.limit && forall k :: 0 <= k < |plan| ==> givers[k].count >= c.count
    {
      assert c in givers;
      forall l | 0 <= l < |plan| ensures givers[l] != c {
        assert plan[l].source == givers[l].name;
      }
    }
  }

  // ----- what is counted

  /** The positions of the pods that count. */
  function Positions(namespace: string, pods: seq<PodRef>): set<int> {
    set i | 0 <= i < |pods| && namespace in {"", pods[i].namespace}
  }

  lemma {:induction false} MatchingCounts(namespace: string, pods: seq<PodRef>)
    ensures Matching(namespace, pods) == |Positions(namespace, pods)|
    decreases |pods|
  {
    if pods != [] {
      var n := |pods| - 1;
      MatchingCounts(namespace, pods[..n]);
      PositionsGrow(namespace, pods);
    }
  }

  lemma PositionsGrow(namespace: string, pods: seq<PodRef>)
    requires pods != []
    ensures var n := |pods| - 1;
            |Positions(namespace, pods)|
            == |Positions(namespace, pods[..n])| + if Matches(namespace, pods[n]) then 1 else 0
  {
    var n := |pods| - 1;
    var prior := Positions(namespace, pods[..n]);
    assert Positions(namespace, pods) == if Matches(namespace, pods[n]) then prior + {n} else prior;
  }

  /** Exactly the readable nodes are counted, each with the number of its pods in the namespace. */
  lemma {:induction false} CountedExactly(namespace: string, nodes: seq<string>, list: Listing, c: NodeCount)
    ensures c in Counted(namespace, nodes, list) <==>
            c.name in nodes && list(c.name).Some? && c.count == |Positions(namespace, list(c.name).value)|
    decreases |nodes|
  {
    if nodes != [] {
      var n := |nodes| - 1;
      CountedExactly(namespace, nodes[..n], list, c);
      assert nodes == nodes[..n] + [nodes[n]];
      if list(nodes[n]).Some? {
        MatchingCounts(namespace, list(nodes[n]).value);
      }
    }
  }

  // ----- a family of inputs on which it does not

  /** No two nodes differ by more than one pod: as even as this many pods can be. */
  ghost predicate Even(per: seq<NodeCount>, t: int) {
    IsLeastCount(per, t) && forall c :: c in per ==> c.count <= t + 1
  }

  lemma WorseFromTwo(m: nat, t: int, held: int)
    requires m >= 2 && held <= m * (t + 1)
    ensures 2 * held < m * (m + 1) + 2 * (m * t)
  {
    assert m * (t + 1) == m * t + m;
    MulMonotone(2, m, m);
  }

  predicate WorseFromTwoMoves(per: seq<NodeCount>, plan: seq<Move>) {
    |plan| >= 2 ==> Squares(After(per, plan)) > Squares(per)
  }

  /** On a cluster that is as even as possible, every plan of two moves or more makes the spread strictly
      worse: all its moves go to one node. */
  lemma {:induction false} EvenClusterGetsWorse(namespace: string, maxMigrations: int, nodes: seq<string>,
                                               first: Listing, second: Listing, plan: seq<Move>, t: int)
    requires DistinctNodes(nodes) && IsPodCountPlan(namespace, maxMigrations, nodes, first, second, plan)
    requires Even(Counted(namespace, nodes, first), t)
    ensures WorseFromTwoMoves(Counted(namespace, nodes, first), plan)
  {
    var per := Counted(namespace, nodes, first);
    var cycle := Inputs(namespace, maxMigrations, per, second);
    PlanHelpsExactlyWhen(namespace, maxMigrations, nodes, first, second, plan, t);
    EvenIsWorse(cycle, per, plan, t);
  }

  lemma EvenIsWorse(cycle: Cycle, per: seq<NodeCount>, plan: seq<Move>, t: int)
    requires cycle.n > 0 && Even(per, t) && HelpsExactlyWhen(per, plan, cycle.limit, Fullest(cycle, per), t)
    ensures WorseFromTwoMoves(per, plan)
  {
    GiversAreLow(cycle, per, t + 1);
    WorseWhenLow(per, plan, cycle.limit, Fullest(cycle, per), t);
  }

  ghost predicate AtMost(s: seq<NodeCount>, c: int) {
    forall i :: 0 <= i < |s| ==> s[i].count <= c
  }

  lemma GiversAreLow(cycle: Cycle, per: seq<NodeCount>, c: int)
    requires cycle.n > 0 && AtMost(per, c)
    ensures AtMost(Fullest(cycle, per), c)
  {
    var givers := Fullest(cycle, per);
    forall i | 0 <= i < |givers| ensures givers[i].count <= c {
      assert givers[i] in multiset(Givers(cycle, per));
      GiversExactly(cycle, per, givers[i]);
    }
  }

  lemma WorseWhenLow(per: seq<NodeCount>, plan: seq<Move>, limit: int, givers: seq<NodeCount>, t: int)
    requires HelpsExactlyWhen(per, plan, limit, givers, t) && AtMost(givers, t + 1)
    ensures WorseFromTwoMoves(per, plan)
  {
    if |plan| >= 2 {
      TotalBelow(givers, t, |plan|);
      WorseFromTwo(|plan|, t, Total(givers[..|plan|]));
    }
  }

  /** A full node of an even cluster: one pod above the least, and with a movable pod listed. */
  predicate Full(c: NodeCount, t: int, namespace: string, second: Listing) {
    && c.count == t + 1 && second(c.name).Some?
    && exists i :: 0 <= i < |second(c.name).value| && MayMove(namespace, second(c.name).value[i])
  }

  lemma EvenTotals(per: seq<NodeCount>, t: int)
    requires per != [] && Even(per, t)
    ensures |per| * t <= Total(per) < |per| * (t + 1)
  {
    TotalAtLeast(per, t);
    TotalBelow(per, t, |per|);
    assert per[..|per|] == per;
    var c :| c in per && c.count == t;
    var i :| 0 <= i < |per| && per[i] == c;
  }

  lemma {:induction false} TotalBelow(s: seq<NodeCount>, t: int, m: nat)
    requires m <= |s| && forall i :: 0 <= i < m ==> s[i].count <= t + 1
    ensures Total(s[..m]) <= m * (t + 1)
    ensures (exists i :: 0 <= i < m && s[i].count == t) ==> Total(s[..m]) < m * (t + 1)
    decreases m
  {
    if m > 0 {
      assert s[..m][..m - 1] == s[..m - 1];
      TotalBelow(s, t, m - 1);
      assert m * (t + 1) == (m - 1) * (t + 1) + (t + 1);
    }
  }

  lemma FullNodesGive(cycle: Cycle, per: seq<NodeCount>, c: NodeCount, t: int)
    requires per != [] && Even(per, t) && cycle.n == |per| && cycle.total == Total(per) && cycle.namespace != ""
    requires c in per && Full(c, t, cycle.namespace, cycle.list)
    ensures c in Givers(cycle, per)
  {
    EvenTotals(per, t);
    assert IsThreshold(cycle.namespace, cycle.total, cycle.n, 1);
    SwapFactors(t + 1, cycle.n);
    GiversExactly(cycle, per, c);
  }

  lemma SwapFactors(x: int, y: int)
    ensures x * y == y * x
  {
  }

  /** The family, from the inputs: a namespace plan with room for two moves, on an even cluster with two
      full nodes, makes at least two moves and so makes the spread strictly worse. */
  lemma {:induction false} EvenNamespaceGetsWorse(namespace: string, maxMigrations: int, nodes: seq<string>,
                                                  first: Listing,
                                                  second: Listing, plan: seq<Move>, t: int, a: NodeCount, b: NodeCount)
    requires DistinctNodes(nodes) && IsPodCountPlan(namespace, maxMigrations, nodes, first, second, plan)
    requires namespace != "" && maxMigrations >= 2 && Even(Counted(namespace, nodes, first), t) && t >= 0
    requires var per := Counted(namespace, nodes, first);
             && a in per && b in per && a != b && Full(a, t, namespace, second) && Full(b, t, namespace, second)
    ensures var per := Counted(namespace, nodes, first); |plan| >= 2 && Squares(After(per, plan)) > Squares(per)
  {
    var per := Counted(namespace, nodes, first);
    var cycle := Inputs(namespace, maxMigrations, per, second);
    EvenTotals(per, t);
    TwoMembers(per, a, b);
    FullNodesGive(cycle, per, a, t);
    FullNodesGive(cycle, per, b, t);
    TwoMembers(Givers(cycle, per), a, b);
    PlanHelpsExactlyWhen(namespace, maxMigrations, nodes, first, second, plan, t);
    assert |Fullest(cycle, per)| == |multiset(Fullest(cycle, per))| == |multiset(Givers(cycle, per))|
           == |Givers(cycle, per)|;
    EvenClusterGetsWorse(namespace, maxMigrations, nodes, first, second, plan, t);
  }

  lemma TwoMembers<T>(s: seq<T>, a: T, b: T)
    requires a in s && b in s && a != b
    ensures |s| >= 2
  {
  }

  /** Such inputs: two nodes with two pods, one with one. */
  function ThreeNodes(): Listing {
    (name: string) =>
      var x, y := PodRef("ml", "x"), PodRef("ml", "y");
      Some(if name == "c" then [x] else [x, y])
  }

  lemma ThreeNodesGetWorse(plan: seq<Move>)
    requires IsPodCountPlan("ml", 2, ["a", "b", "c"], ThreeNodes(), ThreeNodes(), plan)
    ensures var per := Counted("ml", ["a", "b", "c"], ThreeNodes());
            per == [NodeCount("a", 2), NodeCount("b", 2), NodeCount("c", 1)] && Squares(After(per, plan)) > Squares(per)
  {
    ThreeCounts();
    ThreeAreEven();
    EvenNamespaceGetsWorse("ml", 2, ["a", "b", "c"], ThreeNodes(), ThreeNodes(), plan, 1,
                           NodeCount("a", 2), NodeCount("b", 2));
  }

  lemma ThreeAreEven()
    ensures var a, b, per := NodeCount("a", 2), NodeCount("b", 2),
                                 [NodeCount("a", 2), NodeCount("b", 2), NodeCount("c", 1)];
            && Even(per, 1) && a in per && b in per && a != b
            && Full(a, 1, "ml", ThreeNodes()) && Full(b, 1, "ml", ThreeNodes())
  {
    var a, b, c := NodeCount("a", 2), NodeCount("b", 2), NodeCount("c", 1);
    assert c in [a, b, c] && a.name != b.name;
    assert MayMove("ml", ThreeNodes()("a").value[0]) && MayMove("ml", ThreeNodes()("b").value[0]);
  }

  lemma ThreeCounts()
    ensures Counted("ml", ["a", "b", "c"], ThreeNodes()) == [NodeCount("a", 2), NodeCount("b", 2), NodeCount("c", 1)]
  {
    var x, y := PodRef("ml", "x"), PodRef("ml", "y");
    assert [x, y][..1] == [x] && [x][..0] == [];
    assert Matching("ml", []) == 0 && Matching("ml", [x]) == 1 && Matching("ml", [x, y]) == 2;
    var nodes := ["a", "b", "c"];
    assert nodes[..2] == ["a", "b"] && nodes[..2][..1] == ["a"] && ["a"][..0] == [];
    assert Counted("ml", ["a"], ThreeNodes()) == [NodeCount("a", 2)];
    assert Counted("ml", ["a", "b"], ThreeNodes()) == [NodeCount("a", 2), NodeCount("b", 2)];
  }
}
