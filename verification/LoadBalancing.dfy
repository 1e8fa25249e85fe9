/** The pod_count strategy of the load balancer (pkg/controller/loadbalancing.go). */
module LoadBalancing {
  import opened Options
  import opened Pods
  import opened Sorting

  datatype NodeCount = NodeCount(name: string, count: int)

  datatype Move = Move(pod: PodRef, source: string, target: string, priority: int)

  /** The running pods of a node, if they can be listed. */
  type Listing = string -> Option<seq<PodRef>>

  predicate Matches(namespace: string, pod: PodRef) {
    namespace == "" || pod.namespace == namespace
  }

  predicate Movable(namespace: string, pod: PodRef) {
    Matches(namespace, pod) && pod.namespace != "kube-system" && pod.namespace != "apollo"
  }

  function Matching(namespace: string, pods: seq<PodRef>): nat {
    if pods == [] then 0
    else Matching(namespace, pods[..|pods| - 1]) + if Matches(namespace, pods[|pods| - 1]) then 1 else 0
  }

  /** Nodes whose pods cannot be listed are left out. */
  function Counted(namespace: string, nodes: seq<string>, list: Listing): seq<NodeCount> {
    if nodes == [] then []
    else
      var node := nodes[|nodes| - 1];
      Counted(namespace, nodes[..|nodes| - 1], list)
      + match list(node) case Some(pods) => [NodeCount(node, Matching(namespace, pods))] case None => []
  }

  function Total(per: seq<NodeCount>): int {
    if per == [] then 0 else Total(per[..|per| - 1]) + per[|per| - 1].count
  }

  /** max(1, ceil(mean / 2)) over the whole cluster, 1 within a namespace. */
  function Threshold(namespace: string, total: int, n: int): (t: int)
    requires n > 0
    ensures t >= 1
  {
    if namespace == "" && (total + 2 * n - 1) / (2 * n) > 1 then (total + 2 * n - 1) / (2 * n) else 1
  }

  /** count > mean + (threshold - 1), on integers. */
  predicate Heavy(count: int, total: int, n: int, threshold: int) {
    count * n > total + (threshold - 1) * n
  }

  function FirstOther(targets: seq<NodeCount>, name: string): Option<NodeCount> {
    if targets == [] then None
    else if targets[0].name != name then Some(targets[0])
    else FirstOther(targets[1..], name)
  }

  function FirstMovable(namespace: string, pods: seq<PodRef>): Option<PodRef> {
    if pods == [] then None
    else if Movable(namespace, pods[0]) then Some(pods[0])
    else FirstMovable(namespace, pods[1..])
  }

  /** What one planning cycle works from; list is the second look at the nodes. */
  datatype Cycle = Cycle(namespace: string, limit: int, total: int, n: nat, targets: seq<NodeCount>, list: Listing) {
    function Offer(src: NodeCount, done: nat): Option<Move>
      requires n > 0
    {
      if done >= limit || !Heavy(src.count, total, n, Threshold(namespace, total, n)) then None
      else
        match (FirstOther(targets, src.name), list(src.name))
        case (Some(t), Some(pods)) =>
          (match FirstMovable(namespace, pods)
           case Some(pod) => Some(Move(pod, src.name, t.name, 100 - done))
           case None => None)
        case _ => None
    }

    /** The moves out of the given nodes, in order, each node being offered once. */
    function Chosen(order: seq<NodeCount>): (plan: seq<Move>)
      requires n > 0
      decreases |order|
    {
      if order == [] then []
      else
        var prior := Chosen(order[..|order| - 1]);
        prior + match Offer(order[|order| - 1], |prior|) case Some(move) => [move] case None => []
    }
  }

  function Descending(): NodeCount -> real {
    (c: NodeCount) => -(c.count as real)
  }

  function Ascending(): NodeCount -> real {
    (c: NodeCount) => c.count as real
  }

  method CountMatching(namespace: string, pods: seq<PodRef>) returns (count: nat)
    ensures count == Matching(namespace, pods)
  {
    count := 0;
    for i := 0 to |pods|
      invariant count == Matching(namespace, pods[..i])
    {
      assert pods[..i + 1][..i] == pods[..i];
      if Matches(namespace, pods[i]) {
        count := count + 1;
      }
    }
    assert pods[..|pods|] == pods;
  }

  lemma CountedGrows(namespace: string, nodes: seq<string>, list: Listing, k: nat)
    requires k < |nodes|
    ensures var prior, more := Counted(namespace, nodes[..k], list), Counted(namespace, nodes[..k + 1], list);
            && (list(nodes[k]).None? ==> more == prior)
            && (list(nodes[k]).Some? ==>
                  more == prior + [NodeCount(nodes[k], Matching(namespace, list(nodes[k]).value))])
  {
    assert nodes[..k + 1][..k] == nodes[..k];
  }

  lemma TotalGrows(per: seq<NodeCount>, c: NodeCount)
    ensures Total(per + [c]) == Total(per) + c.count
  {
    assert (per + [c])[..|per|] == per;
  }

  method CountPods(namespace: string, nodes: seq<string>, list: Listing) returns (per: seq<NodeCount>, total: int)
    ensures per == Counted(namespace, nodes, list) && total == Total(per)
  {
    per, total := [], 0;
    for k := 0 to |nodes|
      invariant per == Counted(namespace, nodes[..k], list) && total == Total(per)
    {
      CountedGrows(namespace, nodes, list, k);
      var pods := list(nodes[k]);
      if pods.Some? {
        var count := CountMatching(namespace, pods.value);
        TotalGrows(per, NodeCount(nodes[k], count));
        per := per + [NodeCount(nodes[k], count)];
        total := total + count;
      }
    }
    assert nodes[..|nodes|] == nodes;
  }

  method SortedCopy(per: seq<NodeCount>, key: NodeCount -> real) returns (order: seq<NodeCount>)
    ensures multiset(order) == multiset(per) && SortedBy(order, key)
  {
    var a := new NodeCount[|per|](i requires 0 <= i < |per| => per[i]);
    assert a[..] == per;
    SortSlice(a, key);
    order := a[..];
  }

  method PickTarget(targets: seq<NodeCount>, name: string) returns (target: Option<NodeCount>)
    ensures target == FirstOther(targets, name)
  {
    var i := 0;
    while i < |targets|
      invariant i <= |targets| && FirstOther(targets, name) == FirstOther(targets[i..], name)
    {
      if targets[i].name != name {
        return Some(targets[i]);
      }
      i := i + 1;
    }
    target := None;
  }

  method PickPod(namespace: string, pods: seq<PodRef>) returns (pod: Option<PodRef>)
    ensures pod == FirstMovable(namespace, pods)
  {
    var i := 0;
    while i < |pods|
      invariant i <= |pods| && FirstMovable(namespace, pods) == FirstMovable(namespace, pods[i..])
    {
      if Movable(namespace, pods[i]) {
        return Some(pods[i]);
      }
      i := i + 1;
    }
    pod := None;
  }

  /** The moves the cycle makes out of nodes tried in the given order. */
  method ChooseMoves(cycle: Cycle, order: seq<NodeCount>) returns (plan: seq<Move>)
    requires cycle.n > 0
    ensures plan == cycle.Chosen(order)
  {
    plan := [];
    var threshold := Threshold(cycle.namespace, cycle.total, cycle.n);
    for k := 0 to |order|
      invariant plan == cycle.Chosen(order[..k])
    {
      assert order[..k + 1][..k] == order[..k];
      var src := order[k];
      if |plan| < cycle.limit && Heavy(src.count, cycle.total, cycle.n, threshold) {
        var target := PickTarget(cycle.targets, src.name);
        var pods := cycle.list(src.name);
        if target.Some? && pods.Some? {
          var pod := PickPod(cycle.namespace, pods.value);
          if pod.Some? {
            plan := plan + [Move(pod.value, src.name, target.value.name, 100 - |plan|)];
          }
        }
      }
    }
    assert order[..|order|] == order;
  }

  /** The plan chosen over the counted nodes, sources by falling and targets by rising count, ties in
      any order. */
  ghost predicate ChosenFrom(per: seq<NodeCount>, namespace: string, maxMigrations: int, list: Listing,
                             order: seq<NodeCount>, targets: seq<NodeCount>, plan: seq<Move>)
    requires per != []
  {
    && multiset(order) == multiset(per) && SortedBy(order, Descending())
    && multiset(targets) == multiset(per) && SortedBy(targets, Ascending())
    && plan == CycleOver(per, namespace, maxMigrations, list, targets).Chosen(order)
  }

  function CycleOver(per: seq<NodeCount>, namespace: string, maxMigrations: int, list: Listing,
                     targets: seq<NodeCount>): Cycle {
    Cycle(namespace, if maxMigrations <= 0 then 1 else maxMigrations, Total(per), |per|, targets, list)
  }

  ghost predicate IsPodCountPlan(namespace: string, maxMigrations: int, nodes: seq<string>, first: Listing,
                                 second: Listing,
                                 plan: seq<Move>)
  {
    var per := Counted(namespace, nodes, first);
    if |nodes| < 2 || |per| < 2 || Total(per) == 0 then plan == []
    else exists order, targets :: ChosenFrom(per, namespace, maxMigrations, second, order, targets, plan)
  }

  /** calculatePodCountPlan: nothing to do below two readable nodes or without pods. */
  method CalculatePodCountPlan(namespace: string, maxMigrations: int, nodes: seq<string>, first: Listing,
                               second: Listing)
    returns (plan: seq<Move>)
    ensures IsPodCountPlan(namespace, maxMigrations, nodes, first, second, plan)
  {
    plan := [];
    if |nodes| < 2 {
      return;
    }
    var per, total := CountPods(namespace, nodes, first);
    if |per| < 2 || total == 0 {
      return;
    }
    var limit := if maxMigrations <= 0 then 1 else maxMigrations;
    var sources := SortedCopy(per, Descending());
    var targets := SortedCopy(per, Ascending());
    plan := ChooseMoves(Cycle(namespace, limit, total, |per|, targets, second), sources);
    assert ChosenFrom(per, namespace, maxMigrations, second, sources, targets, plan);
  }

  // ----- execution

  datatype MigrationResult = MigrationResult(move: Move, success: bool)

  function ByPriority(): Move -> real {
    (m: Move) => -(m.priority as real)
  }

  lemma PrioritiesFall(plan: seq<Move>)
    requires SortedBy(plan, ByPriority())
    ensures forall i, j :: 0 <= i < j < |plan| ==> plan[i].priority >= plan[j].priority
  {
    forall i, j | 0 <= i < j < |plan| ensures plan[i].priority >= plan[j].priority {
      assert ByPriority()(plan[i]) <= ByPriority()(plan[j]);
    }
  }

  class LoadbalancingJob {
    var executedMigrations: seq<MigrationResult>
    var successfulMigrations: nat
    var failedMigrations: nat

    constructor ()
      ensures executedMigrations == [] && successfulMigrations == failedMigrations == 0
    {
      executedMigrations, successfulMigrations, failedMigrations := [], 0, 0;
    }

    /** executeMigrations: sorts by priority, starts each migration, records every outcome. */
    method ExecuteMigrations(plan: array<Move>, ok: seq<bool>)
      requires |ok| == plan.Length
      modifies this, plan
      ensures multiset(plan[..]) == multiset(old(plan[..]))
      ensures forall i, j :: 0 <= i < j < plan.Length ==> plan[i].priority >= plan[j].priority
      ensures |executedMigrations| == plan.Length
      ensures forall i :: 0 <= i < plan.Length ==> executedMigrations[i] == MigrationResult(plan[i], ok[i])
      ensures successfulMigrations == old(successfulMigrations) + multiset(ok)[true]
      ensures failedMigrations == old(failedMigrations) + multiset(ok)[false]
    {
      SortSlice(plan, ByPriority());
      PrioritiesFall(plan[..]);
      ghost var sorted := plan[..];
      var results := [];
      for i := 0 to plan.Length
        invariant |results| == i && forall j :: 0 <= j < i ==> results[j] == MigrationResult(plan[j], ok[j])
        invariant plan[..] == sorted
        invariant successfulMigrations == old(successfulMigrations) + multiset(ok[..i])[true]
        invariant failedMigrations == old(failedMigrations) + multiset(ok[..i])[false]
      {
        assert ok[..i + 1] == ok[..i] + [ok[i]];
        if ok[i] {
          successfulMigrations := successfulMigrations + 1;
        } else {
          failedMigrations := failedMigrations + 1;
        }
        results := results + [MigrationResult(plan[i], ok[i])];
      }
      assert ok[..|ok|] == ok;
      executedMigrations := results;
      assert forall i :: 0 <= i < plan.Length ==> plan[i] == sorted[i];
    }
  }
}
