/** The load_spreading strategy of the load balancer (pkg/controller/loadbalancing.go). */
module LoadSpreading {
  import opened Options
  import opened Pods
  import opened Sorting
  import opened LoadBalancing

  /** Utilisation in percent. */
  datatype NodeState = NodeState(name: string, cpu: int, memory: int) {
    /** Twice the average load. */
    function Load(): int {
      cpu + memory
    }
  }

  datatype Request = Request(cpuThreshold: int, maxMigrations: int, namespace: string) {
    predicate Over(node: NodeState) {
      node.Load() > 2 * cpuThreshold
    }

    predicate Under(node: NodeState) {
      !Over(node) && node.Load() < 100
    }

    function Overloaded(nodes: seq<NodeState>): seq<NodeState> {
      if nodes == [] then []
      else Overloaded(nodes[..|nodes| - 1]) + if Over(nodes[|nodes| - 1]) then [nodes[|nodes| - 1]] else []
    }

    function Underloaded(nodes: seq<NodeState>): seq<NodeState> {
      if nodes == [] then []
      else Underloaded(nodes[..|nodes| - 1]) + if Under(nodes[|nodes| - 1]) then [nodes[|nodes| - 1]] else []
    }
  }

  datatype Offer = Offer(node: string, pod: PodRef)

  function OffersOf(namespace: string, node: string, pods: seq<PodRef>): seq<Offer> {
    if pods == [] then []
    else
      OffersOf(namespace, node, pods[..|pods| - 1])
      + if Matches(namespace, pods[|pods| - 1]) then [Offer(node, pods[|pods| - 1])] else []
  }

  /** Every pod of the given nodes that may be moved, node by node. */
  function Offers(namespace: string, nodes: seq<NodeState>, list: Listing): seq<Offer> {
    if nodes == [] then []
    else
      var node := nodes[|nodes| - 1].name;
      Offers(namespace, nodes[..|nodes| - 1], list)
      + match list(node) case Some(pods) => OffersOf(namespace, node, pods) case None => []
  }

  function Room(limit: int, offers: nat): nat {
    if limit < 0 then 0 else if limit < offers then limit else offers
  }

  /** The first offers, as many as the limit allows, all to one node. */
  function Taken(offers: seq<Offer>, target: string, limit: int): (plan: seq<Move>) {
    seq(Room(limit, |offers|), i requires 0 <= i < Room(limit, |offers|) =>
      Move(offers[i].pod, offers[i].node, target, 100 - i))
  }

  function HighestFirst(): NodeState -> real {
    (n: NodeState) => -(n.Load() as real)
  }

  method Split(req: Request, nodes: seq<NodeState>) returns (over: seq<NodeState>, under: seq<NodeState>)
    ensures over == req.Overloaded(nodes) && under == req.Underloaded(nodes)
  {
    over, under := [], [];
    for i := 0 to |nodes|
      invariant over == req.Overloaded(nodes[..i]) && under == req.Underloaded(nodes[..i])
    {
      assert nodes[..i + 1][..i] == nodes[..i];
      if nodes[i].Load() > 2 * req.cpuThreshold {
        over := over + [nodes[i]];
      } else if nodes[i].Load() < 100 {
        under := under + [nodes[i]];
      }
    }
    assert nodes[..|nodes|] == nodes;
  }

  method FilterPods(namespace: string, node: string, pods: seq<PodRef>) returns (offers: seq<Offer>)
    ensures offers == OffersOf(namespace, node, pods)
  {
    offers := [];
    for i := 0 to |pods|
      invariant offers == OffersOf(namespace, node, pods[..i])
    {
      assert pods[..i + 1][..i] == pods[..i];
      if namespace == "" || pods[i].namespace == namespace {
        offers := offers + [Offer(node, pods[i])];
      }
    }
    assert pods[..|pods|] == pods;
  }

  /** The pods of one node: stops at the cycle's limit. */
  method MovePods(offers: seq<Offer>, target: string, limit: int, ghost prior: seq<Offer>, plan: seq<Move>)
    returns (longer: seq<Move>)
    requires plan == Taken(prior, target, limit) && |plan| < limit
    ensures longer == Taken(prior + offers, target, limit)
  {
    longer := plan;
    var i := 0;
    assert prior + offers[..0] == prior;
    while i < |offers| && |longer| < limit
      invariant i <= |offers| && longer == Taken(prior + offers[..i], target, limit)
      invariant i < |offers| ==> |longer| == |prior| + i || |longer| == limit
    {
      longer := longer + [Move(offers[i].pod, offers[i].node, target, 100 - |longer|)];
      assert offers[..i + 1] == offers[..i] + [offers[i]];
      i := i + 1;
    }
    if i < |offers| {
      assert forall j :: 0 <= j < limit ==> (prior + offers)[j] == (prior + offers[..i])[j];
    } else {
      assert offers[..i] == offers;
    }
  }

  /** The two nested loops of calculateLoadSpreadingPlan. */
  method MoveAll(req: Request, over: seq<NodeState>, target: string, list: Listing) returns (plan: seq<Move>)
    ensures plan == Taken(Offers(req.namespace, over, list), target, req.maxMigrations)
  {
    plan := [];
    for k := 0 to |over|
      invariant plan == Taken(Offers(req.namespace, over[..k], list), target, req.maxMigrations)
    {
      assert over[..k + 1][..k] == over[..k];
      ghost var prior := Offers(req.namespace, over[..k], list);
      var pods := list(over[k].name);
      if |plan| < req.maxMigrations && pods.Some? {
        var offers := FilterPods(req.namespace, over[k].name, pods.value);
        plan := MovePods(offers, target, req.maxMigrations, prior, plan);
      }
    }
    assert over[..|over|] == over;
  }

  /** The plan over the nodes in some order of falling load. */
  ghost predicate SpreadFrom(req: Request, nodes: seq<NodeState>, list: Listing, sorted: seq<NodeState>,
                             plan: seq<Move>) {
    var over, under := req.Overloaded(sorted), req.Underloaded(sorted);
    && multiset(sorted) == multiset(nodes) && SortedBy(sorted, HighestFirst())
    && plan == if over == [] || under == [] then []
               else Taken(Offers(req.namespace, over, list), under[0].name, req.maxMigrations)
  }

  method CalculateLoadSpreadingPlan(req: Request, nodes: seq<NodeState>, list: Listing) returns (plan: seq<Move>)
    ensures exists sorted :: SpreadFrom(req, nodes, list, sorted, plan)
  {
    var a := new NodeState[|nodes|](i requires 0 <= i < |nodes| => nodes[i]);
    assert a[..] == nodes;
    SortSlice(a, HighestFirst());
    var over, under := Split(req, a[..]);
    if |over| == 0 || |under| == 0 {
      plan := [];
    } else {
      plan := MoveAll(req, over, under[0].name, list);
    }
    assert SpreadFrom(req, nodes, list, a[..], plan);
  }

  // ----- what a plan guarantees

  /** More than the threshold on average. */
  predicate IsHot(req: Request, node: NodeState) {
    node.cpu + node.memory > 2 * req.cpuThreshold
  }

  /** At most the threshold, and less than half, on average. */
  predicate IsCool(req: Request, node: NodeState) {
    node.cpu + node.memory <= 2 * req.cpuThreshold && node.cpu + node.memory < 2 * 50
  }

  /** The two groups keep the order, so the target comes first among the underloaded. */
  lemma {:induction false} GroupsAreExact(req: Request, nodes: seq<NodeState>, x: NodeState)
    ensures x in req.Overloaded(nodes) <==> x in nodes && IsHot(req, x)
    ensures x in req.Underloaded(nodes) <==> x in nodes && IsCool(req, x)
    decreases |nodes|
  {
    if nodes != [] {
      GroupsAreExact(req, nodes[..|nodes| - 1], x);
      assert nodes == nodes[..|nodes| - 1] + [nodes[|nodes| - 1]];
    }
  }

  ghost predicate Falling(nodes: seq<NodeState>) {
    forall i, j :: 0 <= i < j < |nodes| ==> nodes[i].cpu + nodes[i].memory >= nodes[j].cpu + nodes[j].memory
  }

  lemma SortedIsFalling(nodes: seq<NodeState>)
    requires SortedBy(nodes, HighestFirst())
    ensures Falling(nodes)
  {
    forall i, j | 0 <= i < j < |nodes| ensures nodes[i].Load() >= nodes[j].Load() {
      assert HighestFirst()(nodes[i]) <= HighestFirst()(nodes[j]);
    }
  }

  lemma {:induction false} GroupsStayFalling(req: Request, nodes: seq<NodeState>)
    requires Falling(nodes)
    ensures Falling(req.Overloaded(nodes)) && Falling(req.Underloaded(nodes))
    decreases |nodes|
  {
    if nodes != [] {
      var n := |nodes| - 1;
      GroupsStayFalling(req, nodes[..n]);
      OneMoreFalls(nodes, req.Overloaded(nodes[..n]), req);
      OneMoreFalls(nodes, req.Underloaded(nodes[..n]), req);
    }
  }

  lemma OneMoreFalls(nodes: seq<NodeState>, kept: seq<NodeState>, req: Request)
    requires nodes != [] && Falling(nodes) && Falling(kept)
    requires kept == req.Overloaded(nodes[..|nodes| - 1]) || kept == req.Underloaded(nodes[..|nodes| - 1])
    ensures Falling(kept + [nodes[|nodes| - 1]])
  {
    var n := |nodes| - 1;
    forall i | 0 <= i < |kept| ensures kept[i].Load() >= nodes[n].Load() {
      GroupsAreExact(req, nodes[..n], kept[i]);
      var p :| 0 <= p < n && nodes[p] == kept[i];
    }
  }

  /** A pod listed on a node, within the namespace if one is asked for. */
  predicate Listed(namespace: string, node: NodeState, list: Listing, o: Offer) {
    && o.node == node.name && list(node.name).Some? && o.pod in list(node.name).value
    && namespace in {"", o.pod.namespace}
  }

  lemma {:induction false} OffersOfExactly(namespace: string, node: string, pods: seq<PodRef>, o: Offer)
    ensures o in OffersOf(namespace, node, pods) <==>
            o.node == node && o.pod in pods && namespace in {"", o.pod.namespace}
    decreases |pods|
  {
    if pods != [] {
      OffersOfExactly(namespace, node, pods[..|pods| - 1], o);
      assert pods == pods[..|pods| - 1] + [pods[|pods| - 1]];
    }
  }

  /** Offers come from listed pods, node by node. */
  lemma {:induction false} OffersAreListed(namespace: string, nodes: seq<NodeState>, list: Listing, k: nat, l: nat)
    returns (i: nat, j: nat)
    requires k <= l < |Offers(namespace, nodes, list)|
    ensures i <= j < |nodes|
    ensures Listed(namespace, nodes[i], list, Offers(namespace, nodes, list)[k])
    ensures Listed(namespace, nodes[j], list, Offers(namespace, nodes, list)[l])
    decreases |nodes|
  {
    var n := |nodes| - 1;
    var prior, all := Offers(namespace, nodes[..n], list), Offers(namespace, nodes, list);
    if l < |prior| {
      i, j := OffersAreListed(namespace, nodes[..n], list, k, l);
    } else {
      OfferOfLast(namespace, nodes, list, l);
      j := n;
      if k < |prior| {
        i, j := OffersAreListed(namespace, nodes[..n], list, k, k);
        j := n;
      } else {
        OfferOfLast(namespace, nodes, list, k);
        i := n;
      }
    }
  }

  lemma OfferOfLast(namespace: string, nodes: seq<NodeState>, list: Listing, k: nat)
    requires nodes != [] && k < |Offers(namespace, nodes, list)|
    requires k >= |Offers(namespace, nodes[..|nodes| - 1], list)|
    ensures Listed(namespace, nodes[|nodes| - 1], list, Offers(namespace, nodes, list)[k])
  {
    var node := nodes[|nodes| - 1].name;
    var o := Offers(namespace, nodes, list)[k];
    OffersOfExactly(namespace, node, list(node).value, o);
    assert o in OffersOf(namespace, node, list(node).value);
  }

  /** Every listed pod is offered. */
  lemma {:induction false} ListedAreOffered(namespace: string, nodes: seq<NodeState>, list: Listing, i: nat, o: Offer)
    requires i < |nodes| && Listed(namespace, nodes[i], list, o)
    ensures o in Offers(namespace, nodes, list)
    decreases |nodes|
  {
    var n := |nodes| - 1;
    if i < n {
      ListedAreOffered(namespace, nodes[..n], list, i, o);
    } else {
      OffersOfExactly(namespace, nodes[n].name, list(nodes[n].name).value, o);
    }
  }

  predicate SpreadMove(req: Request, list: Listing, m: Move, k: nat, source: NodeState, target: NodeState) {
    && k < req.maxMigrations && m.priority == 100 - k && m.target == target.name
    && IsHot(req, source) && Listed(req.namespace, source, list, Offer(m.source, m.pod))
    && IsCool(req, target) && source != target
  }

  ghost predicate MostLoaded(req: Request, nodes: seq<NodeState>, target: NodeState) {
    forall u :: u in nodes && IsCool(req, u) ==> u.cpu + u.memory <= target.cpu + target.memory
  }

  ghost predicate LeastLoaded(req: Request, nodes: seq<NodeState>, target: NodeState) {
    forall u :: u in nodes && IsCool(req, u) ==> target.cpu + target.memory <= u.cpu + u.memory
  }

  ghost predicate SameLoads(req: Request, nodes: seq<NodeState>) {
    forall u, v :: u in nodes && IsCool(req, u) && v in nodes && IsCool(req, v) ==>
      u.cpu + u.memory == v.cpu + v.memory
  }

  /** Sources are overloaded nodes holding the pod, the target is underloaded and so another node.
      The target carries the highest load of all underloaded nodes: it is a least loaded one exactly
      when all of them carry the same load. */
  lemma SpreadIsSound(req: Request, nodes: seq<NodeState>, list: Listing, plan: seq<Move>, k: nat)
    returns (source: NodeState, target: NodeState)
    requires (exists sorted :: SpreadFrom(req, nodes, list, sorted, plan)) && k < |plan|
    ensures source in nodes && target in nodes && SpreadMove(req, list, plan[k], k, source, target)
    ensures MostLoaded(req, nodes, target) && (LeastLoaded(req, nodes, target) <==> SameLoads(req, nodes))
  {
    var sorted :| SpreadFrom(req, nodes, list, sorted, plan);
    var over, under := req.Overloaded(sorted), req.Underloaded(sorted);
    var i, j := OffersAreListed(req.namespace, over, list, k, k);
    source, target := over[i], under[0];
    GroupsAreExact(req, sorted, source);
    GroupsAreExact(req, sorted, target);
    assert source in multiset(nodes) && target in multiset(nodes);
    TargetIsMostLoaded(req, nodes, sorted);
  }

  lemma TargetIsMostLoaded(req: Request, nodes: seq<NodeState>, sorted: seq<NodeState>)
    requires multiset(sorted) == multiset(nodes) && SortedBy(sorted, HighestFirst()) && req.Underloaded(sorted) != []
    ensures MostLoaded(req, nodes, req.Underloaded(sorted)[0])
  {
    var under := req.Underloaded(sorted);
    SortedIsFalling(sorted);
    GroupsStayFalling(req, sorted);
    forall u | u in nodes && IsCool(req, u) ensures u.Load() <= under[0].Load() {
      assert u in multiset(sorted);
      GroupsAreExact(req, sorted, u);
      var j :| 0 <= j < |under| && under[j] == u;
    }
  }

  /** The overloaded nodes, found again after sorting. */
  lemma OverloadedInOrder(req: Request, nodes: seq<NodeState>, sorted: seq<NodeState>)
    requires multiset(sorted) == multiset(nodes) && SortedBy(sorted, HighestFirst())
    ensures Falling(req.Overloaded(sorted))
    ensures forall u :: u in req.Overloaded(sorted) <==> u in nodes && IsHot(req, u)
    ensures (exists u :: u in nodes && IsCool(req, u)) ==> req.Underloaded(sorted) != []
  {
    SortedIsFalling(sorted);
    GroupsStayFalling(req, sorted);
    forall u
      ensures u in req.Overloaded(sorted) <==> u in nodes && IsHot(req, u)
      ensures u in req.Underloaded(sorted) <==> u in nodes && IsCool(req, u)
    {
      GroupsAreExact(req, sorted, u);
      assert u in sorted <==> u in multiset(sorted);
      assert u in nodes <==> u in multiset(nodes);
    }
  }

  /** Busier nodes give first. */
  lemma SpreadTakesBusiest(req: Request, nodes: seq<NodeState>, list: Listing, plan: seq<Move>, k: nat, l: nat)
    returns (a: NodeState, b: NodeState)
    requires (exists sorted :: SpreadFrom(req, nodes, list, sorted, plan)) && k <= l < |plan|
    ensures a in nodes && b in nodes && a.name == plan[k].source && b.name == plan[l].source
    ensures IsHot(req, a) && IsHot(req, b) && a.cpu + a.memory >= b.cpu + b.memory
  {
    var sorted :| SpreadFrom(req, nodes, list, sorted, plan);
    OverloadedInOrder(req, nodes, sorted);
    a, b := OffersTakeBusiest(req.namespace, req.Overloaded(sorted), list, k, l);
  }

  lemma OffersTakeBusiest(namespace: string, over: seq<NodeState>, list: Listing, k: nat, l: nat)
    returns (a: NodeState, b: NodeState)
    requires Falling(over) && k <= l < |Offers(namespace, over, list)|
    ensures a in over && b in over && a.cpu + a.memory >= b.cpu + b.memory
    ensures a.name == Offers(namespace, over, list)[k].node && b.name == Offers(namespace, over, list)[l].node
  {
    var i, j := OffersAreListed(namespace, over, list, k, l);
    a, b := over[i], over[j];
  }

  /** With a node to move to, a plan below its limit leaves no movable pod on an overloaded node. */
  lemma SpreadIsComplete(req: Request, nodes: seq<NodeState>, list: Listing, plan: seq<Move>, source: NodeState,
                         target: NodeState, pod: PodRef)
    requires exists sorted :: SpreadFrom(req, nodes, list, sorted, plan)
    requires source in nodes && IsHot(req, source) && target in nodes && IsCool(req, target)
    requires Listed(req.namespace, source, list, Offer(source.name, pod))
    ensures |plan| >= req.maxMigrations || Moved(plan, source.name, pod)
  {
    var sorted :| SpreadFrom(req, nodes, list, sorted, plan);
    var over := req.Overloaded(sorted);
    OverloadedInOrder(req, nodes, sorted);
    var i :| 0 <= i < |over| && over[i] == source;
    ListedAreOffered(req.namespace, over, list, i, Offer(source.name, pod));
    OfferedIsTaken(Offers(req.namespace, over, list), req.Underloaded(sorted)[0].name, req.maxMigrations, source.name,
                   pod);
  }

  predicate Moved(plan: seq<Move>, source: string, pod: PodRef) {
    exists k :: 0 <= k < |plan| && plan[k].source == source && plan[k].pod == pod
  }

  lemma OfferedIsTaken(offers: seq<Offer>, target: string, limit: int, source: string, pod: PodRef)
    requires Offer(source, pod) in offers
    ensures |Taken(offers, target, limit)| >= limit || Moved(Taken(offers, target, limit), source, pod)
  {
    var k :| 0 <= k < |offers| && offers[k] == Offer(source, pod);
    if |Taken(offers, target, limit)| < limit {
      assert Taken(offers, target, limit)[k].source == source;
    }
  }

  ghost predicate NamesIdentify(nodes: seq<NodeState>) {
    forall u, v :: u in nodes && v in nodes && u.name == v.name ==> u == v
  }

  /** So where names identify nodes, every move changes the pod's node. */
  lemma SpreadChangesNode(req: Request, nodes: seq<NodeState>, list: Listing, plan: seq<Move>, k: nat)
    requires (exists sorted :: SpreadFrom(req, nodes, list, sorted, plan)) && k < |plan| && NamesIdentify(nodes)
    ensures plan[k].source != plan[k].target
  {
    var source, target := SpreadIsSound(req, nodes, list, plan, k);
  }

  lemma {:induction false} OffersOfDistinct(namespace: string, node: string, pods: seq<PodRef>)
    requires Distinct(pods)
    ensures Distinct(OffersOf(namespace, node, pods))
    decreases |pods|
  {
    if pods != [] {
      var n := |pods| - 1;
      OffersOfDistinct(namespace, node, pods[..n]);
      var prior := OffersOf(namespace, node, pods[..n]);
      forall i | 0 <= i < |prior| ensures prior[i].pod != pods[n] {
        OffersOfExactly(namespace, node, pods[..n], prior[i]);
      }
    }
  }

  lemma {:induction false} OffersDistinct(namespace: string, nodes: seq<NodeState>, list: Listing)
    requires Distinct(nodes) && NamesIdentify(nodes)
    requires forall i :: 0 <= i < |nodes| && list(nodes[i].name).Some? ==> Distinct(list(nodes[i].name).value)
    ensures Distinct(Offers(namespace, nodes, list))
    decreases |nodes|
  {
    if nodes != [] {
      var n := |nodes| - 1;
      OffersDistinct(namespace, nodes[..n], list);
      var prior, all := Offers(namespace, nodes[..n], list), Offers(namespace, nodes, list);
      if list(nodes[n].name).Some? {
        OffersOfDistinct(namespace, nodes[n].name, list(nodes[n].name).value);
      }
      forall i, j | 0 <= i < |prior| <= j < |all| ensures all[i] != all[j] {
        var p, q := OffersAreListed(namespace, nodes[..n], list, i, i);
        OfferOfLast(namespace, nodes, list, j);
      }
    }
  }

  lemma {:induction false} OverloadedDistinct(req: Request, nodes: seq<NodeState>)
    requires Distinct(nodes)
    ensures Distinct(req.Overloaded(nodes))
    decreases |nodes|
  {
    if nodes != [] {
      var n := |nodes| - 1;
      OverloadedDistinct(req, nodes[..n]);
      var prior := req.Overloaded(nodes[..n]);
      forall i | 0 <= i < |prior| ensures prior[i] != nodes[n] {
        GroupsAreExact(req, nodes[..n], prior[i]);
      }
    }
  }

  /** And no pod is moved twice. */
  lemma SpreadMovesOnce(req: Request, nodes: seq<NodeState>, list: Listing, plan: seq<Move>, k: nat, l: nat)
    requires (exists sorted :: SpreadFrom(req, nodes, list, sorted, plan)) && k < l < |plan|
    requires Distinct(nodes) && NamesIdentify(nodes)
    requires forall u :: u in nodes && list(u.name).Some? ==> Distinct(list(u.name).value)
    ensures plan[k].source != plan[l].source || plan[k].pod != plan[l].pod
  {
    var sorted :| SpreadFrom(req, nodes, list, sorted, plan);
    var over := req.Overloaded(sorted);
    DistinctPermutes(nodes, sorted);
    OverloadedDistinct(req, sorted);
    forall u | u in over ensures u in nodes {
      GroupsAreExact(req, sorted, u);
      assert u in multiset(nodes);
    }
    OffersDistinct(req.namespace, over, list);
  }
}
