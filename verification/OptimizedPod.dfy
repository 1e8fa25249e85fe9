/** The pod a migration stage runs in (pkg/k8s/client.go, GetPodContainerStates and CreateOptimizedPod). */
module OptimizedPod {
  import opened Options
  import opened Pods

  datatype RunState = Waiting | Running | Terminated(exitCode: int) | Unset

  datatype ContainerStatus = ContainerStatus(name: string, restartCount: int, state: RunState)

  datatype ContainerState = ContainerState(name: string, state: string, restartCount: int, shouldMigrate: bool)

  datatype Spec = Spec(nodeName: string, containers: seq<Container>, volumes: seq<Volume>)

  datatype Meta = Meta(name: string, generateName: string, namespace: string, labels: map<string, string>,
                       annotations: map<string, string>)

  datatype Pod = Pod(meta: Meta, spec: Spec, statuses: seq<ContainerStatus>)

  const CHECKPOINT := "checkpoint-volume"
  const SCRATCH := "migration-stage-scratch"
  const DEFAULT_PATH := "/migration-checkpoint"

  // ----- which containers move

  function StatusOf(statuses: seq<ContainerStatus>, name: string): ContainerStatus {
    if statuses == [] then ContainerStatus("", 0, Unset)
    else if statuses[0].name == name then statuses[0]
    else StatusOf(statuses[1..], name)
  }

  /** A container moves when it is running or has failed. */
  predicate Moves(s: RunState) {
    s.Running? || (s.Terminated? && s.exitCode != 0)
  }

  function Label(s: RunState): string {
    match s
    case Waiting => "waiting"
    case Running => "running"
    case Terminated(code) => if code == 0 then "completed" else "failed"
    case Unset => ""
  }

  function StateOf(pod: Pod, c: Container): ContainerState {
    var status := StatusOf(pod.statuses, c.name);
    ContainerState(c.name, Label(status.state), status.restartCount, Moves(status.state))
  }

  /** A container's own status is the first that carries its name; without one the state is not set. */
  ghost predicate IsStatusOf(statuses: seq<ContainerStatus>, name: string, status: ContainerStatus) {
    || (status == ContainerStatus("", 0, Unset) && forall j :: 0 <= j < |statuses| ==> statuses[j].name != name)
    || (exists i :: 0 <= i < |statuses| && FirstNamed(statuses, name, i) && statuses[i] == status)
  }

  predicate FirstNamed(statuses: seq<ContainerStatus>, name: string, i: nat)
    requires i < |statuses|
  {
    statuses[i].name == name && forall j :: 0 <= j < i ==> statuses[j].name != name
  }

  lemma {:induction false} StatusIsFirst(statuses: seq<ContainerStatus>, name: string)
    ensures IsStatusOf(statuses, name, StatusOf(statuses, name))
    decreases |statuses|
  {
    if statuses != [] && statuses[0].name != name {
      var rest := statuses[1..];
      StatusIsFirst(rest, name);
      assert forall j :: 1 <= j < |statuses| ==> statuses[j] == rest[j - 1];
      if i :| 0 <= i < |rest| && FirstNamed(rest, name, i) && rest[i] == StatusOf(rest, name) {
        assert FirstNamed(statuses, name, i + 1) && statuses[i + 1] == StatusOf(statuses, name);
      }
    } else if statuses != [] {
      assert FirstNamed(statuses, name, 0);
    }
  }

  /** What the reported state of a container says, in the API's words. */
  ghost predicate Describes(state: ContainerState, c: Container, statuses: seq<ContainerStatus>) {
    exists status :: IsStatusOf(statuses, c.name, status) && DescribesStatus(state, c.name, status)
  }

  predicate DescribesStatus(state: ContainerState, name: string, status: ContainerStatus) {
    var failed := status.state.Terminated? && status.state.exitCode != 0;
    && state.name == name && state.restartCount == status.restartCount
    && (state.shouldMigrate <==> status.state.Running? || failed)
    && state.state == if status.state.Waiting? then "waiting" else if status.state.Running? then "running"
                      else if failed then "failed" else if status.state.Terminated? then "completed" else ""
  }

  lemma StateDescribes(pod: Pod, c: Container)
    ensures Describes(StateOf(pod, c), c, pod.statuses)
  {
    StatusIsFirst(pod.statuses, c.name);
    assert DescribesStatus(StateOf(pod, c), c.name, StatusOf(pod.statuses, c.name));
  }

  method FindStatus(statuses: seq<ContainerStatus>, name: string) returns (status: ContainerStatus)
    ensures status == StatusOf(statuses, name)
  {
    var i := 0;
    while i < |statuses|
      invariant i <= |statuses| && StatusOf(statuses, name) == StatusOf(statuses[i..], name)
    {
      if statuses[i].name == name {
        return statuses[i];
      }
      i := i + 1;
    }
    status := ContainerStatus("", 0, Unset);
  }

  method GetPodContainerStates(pod: Pod) returns (states: seq<ContainerState>)
    ensures |states| == |pod.spec.containers|
    ensures forall i :: 0 <= i < |states| ==> states[i] == StateOf(pod, pod.spec.containers[i])
    ensures forall i :: 0 <= i < |states| ==> Describes(states[i], pod.spec.containers[i], pod.statuses)
  {
    states := [];
    for i := 0 to |pod.spec.containers|
      invariant |states| == i
      invariant forall j :: 0 <= j < i ==> states[j] == StateOf(pod, pod.spec.containers[j])
    {
      var c := pod.spec.containers[i];
      var status := FindStatus(pod.statuses, c.name);
      var state := ContainerState(c.name, "", status.restartCount, false);
      match status.state {
        case Waiting => state := state.(state := "waiting");
        case Running => state := state.(state := "running", shouldMigrate := true);
        case Terminated(code) =>
          if code == 0 {
            state := state.(state := "completed");
          } else {
            state := state.(state := "failed", shouldMigrate := true);
          }
        case Unset =>
      }
      states := states + [state];
    }
    forall i | 0 <= i < |states| ensures Describes(states[i], pod.spec.containers[i], pod.statuses) {
      StateDescribes(pod, pod.spec.containers[i]);
    }
  }

  // ----- the rewritten containers

  predicate Wanted(states: seq<ContainerState>, name: string) {
    exists i :: 0 <= i < |states| && states[i].name == name && states[i].shouldMigrate
  }

  /** The mount a container is given: on the stage path, else on the default path, else none; without
      a checkpoint claim only ever on the stage path. */
  function Added(c: Container, claim: string, stagePath: string): Option<VolumeMount> {
    if claim != "" then
      var path := if stagePath == "" then DEFAULT_PATH else stagePath;
      if !HasMountPath(c.volumeMounts, path) then Some(VolumeMount(CHECKPOINT, path))
      else if !HasMountPath(c.volumeMounts, DEFAULT_PATH) then Some(VolumeMount(CHECKPOINT, DEFAULT_PATH))
      else None
    else if stagePath != "" && !HasMountPath(c.volumeMounts, stagePath) then Some(VolumeMount(SCRATCH, stagePath))
    else None
  }

  function Fitted(c: Container, claim: string, stagePath: string): Container {
    match Added(c, claim, stagePath)
    case Some(m) => c.(volumeMounts := c.volumeMounts + [m])
    case None => c
  }

  function Kept(containers: seq<Container>, states: seq<ContainerState>): seq<Container> {
    if containers == [] then []
    else
      var n := |containers| - 1;
      Kept(containers[..n], states) + if Wanted(states, containers[n].name) then [containers[n]] else []
  }

  function FitAll(containers: seq<Container>, claim: string, stagePath: string): (r: seq<Container>)
    ensures |r| == |containers|
  {
    seq(|containers|, i requires 0 <= i < |containers| => Fitted(containers[i], claim, stagePath))
  }

  predicate NeedsScratch(containers: seq<Container>, claim: string, stagePath: string) {
    claim == "" && exists i :: 0 <= i < |containers| && Added(containers[i], claim, stagePath).Some?
  }

  /** The volume added to the pod: always one for a claim, otherwise one if some container mounts it. */
  function Extra(containers: seq<Container>, claim: string, stagePath: string): seq<Volume> {
    if claim != "" then [Volume(CHECKPOINT, Claim(claim))]
    else if NeedsScratch(containers, claim, stagePath) then [Volume(SCRATCH, EmptyDir)]
    else []
  }

  function Prefix(name: string): (p: string)
    ensures |p| <= 247 && p <= name + "-migrated-"
    ensures |name| <= 237 ==> p == name + "-migrated-"
  {
    var p := name + "-migrated-";
    if |p| > 247 then p[..247] else p
  }

  method FindWanted(states: seq<ContainerState>, name: string) returns (wanted: bool)
    ensures wanted == Wanted(states, name)
  {
    for i := 0 to |states|
      invariant forall j :: 0 <= j < i ==> !(states[j].name == name && states[j].shouldMigrate)
    {
      if states[i].name == name && states[i].shouldMigrate {
        return true;
      }
    }
    wanted := false;
  }

  method FitContainer(original: Container, claim: string, stagePath: string) returns (c: Container, scratch: bool)
    ensures c == Fitted(original, claim, stagePath)
    ensures scratch <==> claim == "" && Added(original, claim, stagePath).Some?
  {
    c, scratch := original, false;
    if claim != "" {
      var mountPath := if stagePath == "" then DEFAULT_PATH else stagePath;
      var taken := FindMountPath(c.volumeMounts, mountPath);
      if taken {
        mountPath := DEFAULT_PATH;
      }
      taken := FindMountPath(c.volumeMounts, mountPath);
      if !taken {
        c := c.(volumeMounts := c.volumeMounts + [VolumeMount(CHECKPOINT, mountPath)]);
      }
    } else if stagePath != "" {
      var taken := FindMountPath(c.volumeMounts, stagePath);
      if !taken {
        c := c.(volumeMounts := c.volumeMounts + [VolumeMount(SCRATCH, stagePath)]);
        scratch := true;
      }
    }
  }

  lemma ScratchGrows(kept: seq<Container>, c: Container, claim: string, stagePath: string)
    ensures NeedsScratch(kept + [c], claim, stagePath) <==>
            NeedsScratch(kept, claim, stagePath) || (claim == "" && Added(c, claim, stagePath).Some?)
  {
    var all := kept + [c];
    assert all[|kept|] == c && forall i :: 0 <= i < |kept| ==> all[i] == kept[i];
    if NeedsScratch(kept, claim, stagePath) {
      var i :| 0 <= i < |kept| && Added(kept[i], claim, stagePath).Some?;
      assert Added(all[i], claim, stagePath).Some?;
    }
    assert Added(all[|kept|], claim, stagePath) == Added(c, claim, stagePath);
  }

  method OptimizeContainers(containers: seq<Container>, states: seq<ContainerState>, claim: string, stagePath: string)
    returns (optimized: seq<Container>, needsScratch: bool)
    ensures optimized == FitAll(Kept(containers, states), claim, stagePath)
    ensures needsScratch == NeedsScratch(Kept(containers, states), claim, stagePath)
  {
    optimized, needsScratch := [], false;
    for k := 0 to |containers|
      invariant optimized == FitAll(Kept(containers[..k], states), claim, stagePath)
      invariant needsScratch == NeedsScratch(Kept(containers[..k], states), claim, stagePath)
    {
      assert containers[..k + 1][..k] == containers[..k];
      ghost var prior := Kept(containers[..k], states);
      var wanted := FindWanted(states, containers[k].name);
      if wanted {
        var c, scratch := FitContainer(containers[k], claim, stagePath);
        optimized := optimized + [c];
        ScratchGrows(prior, containers[k], claim, stagePath);
        assert Kept(containers[..k + 1], states) == prior + [containers[k]];
        needsScratch := needsScratch || scratch;
      } else {
        assert Kept(containers[..k + 1], states) == prior;
      }
    }
    assert containers[..|containers|] == containers;
  }

  method CreateOptimizedPod(original: Pod, targetNode: string, states: seq<ContainerState>, claim: string,
                            stagePath: string)
    returns (pod: Pod)
    ensures pod == Optimized(original, targetNode, states, claim, stagePath)
    ensures pod.spec.nodeName == targetNode && pod.statuses == []
    ensures pod.meta.namespace == original.meta.namespace && pod.meta.annotations == original.meta.annotations
    ensures pod.meta.name == "" && pod.meta.generateName <= original.meta.name + "-migrated-"
    ensures |original.meta.name| <= 237 ==> pod.meta.generateName == original.meta.name + "-migrated-"
    ensures pod.meta.labels == map["migration.ai-storage/original-pod" := original.meta.name,
                                   "migration.ai-storage/target-node" := targetNode,
                                   "migration.ai-storage/job" := "true"]
    ensures claim != "" ==> pod.spec.volumes == original.spec.volumes + [Volume("checkpoint-volume", Claim(claim))]
    ensures claim == "" ==>
              || pod.spec.volumes == original.spec.volumes
              || pod.spec.volumes == original.spec.volumes + [Volume("migration-stage-scratch", EmptyDir)]
  {
    pod := original;
    pod := pod.(statuses := []);
    var labels := map["migration.ai-storage/original-pod" := original.meta.name];
    labels := labels["migration.ai-storage/target-node" := targetNode];
    labels := labels["migration.ai-storage/job" := "true"];
    pod := pod.(meta := Meta("", Prefix(original.meta.name), original.meta.namespace, labels,
                             original.meta.annotations));
    pod := pod.(spec := pod.spec.(nodeName := targetNode));
    var optimized, needsScratch := OptimizeContainers(pod.spec.containers, states, claim, stagePath);
    pod := pod.(spec := pod.spec.(containers := optimized));
    if claim != "" {
      pod := pod.(spec := pod.spec.(volumes := pod.spec.volumes + [Volume(CHECKPOINT, Claim(claim))]));
    } else if needsScratch {
      pod := pod.(spec := pod.spec.(volumes := pod.spec.volumes + [Volume(SCRATCH, EmptyDir)]));
    }
  }

  function Optimized(original: Pod, targetNode: string, states: seq<ContainerState>, claim: string,
                     stagePath: string): Pod {
    var kept := Kept(original.spec.containers, states);
    Pod(Meta("", Prefix(original.meta.name), original.meta.namespace,
             map["migration.ai-storage/original-pod" := original.meta.name,
                 "migration.ai-storage/target-node" := targetNode,
                 "migration.ai-storage/job" := "true"],
             original.meta.annotations),
        Spec(targetNode, FitAll(kept, claim, stagePath), original.spec.volumes + Extra(kept, claim, stagePath)),
        [])
  }

  // ----- what the new pod keeps

  ghost predicate DistinctContainers(cs: seq<Container>) {
    forall i, j :: 0 <= i < j < |cs| ==> cs[i].name != cs[j].name
  }

  /** What the API server asks of a spec, as far as names and mounts go. */
  ghost predicate WellFormed(spec: Spec) {
    && DistinctContainers(spec.containers)
    && DistinctVolumes(spec.volumes)
    && forall i :: 0 <= i < |spec.containers| ==> SoundContainer(spec.containers[i], spec.volumes)
  }

  /** The states of the pod's own containers, as GetPodContainerStates reports them. */
  ghost predicate Reported(pod: Pod, states: seq<ContainerState>) {
    && |states| == |pod.spec.containers|
    && forall i :: 0 <= i < |states| ==> states[i] == StateOf(pod, pod.spec.containers[i])
  }

  lemma WantedMeansMoving(pod: Pod, states: seq<ContainerState>, i: nat)
    requires Reported(pod, states) && DistinctContainers(pod.spec.containers) && i < |states|
    ensures Wanted(states, pod.spec.containers[i].name) <==> LiveOrFailed(pod, pod.spec.containers[i])
  {
    var c := pod.spec.containers[i];
    assert states[i].name == c.name;
    StatusIsFirst(pod.statuses, c.name);
    forall status | IsStatusOf(pod.statuses, c.name, status) ensures status == StatusOf(pod.statuses, c.name) {
      OneStatus(pod.statuses, c.name, status, StatusOf(pod.statuses, c.name));
    }
  }

  /** The container's own status says that it is running or has failed. */
  ghost predicate LiveOrFailed(pod: Pod, c: Container) {
    exists status :: IsStatusOf(pod.statuses, c.name, status) &&
                     (status.state.Running? || (status.state.Terminated? && status.state.exitCode != 0))
  }

  lemma {:induction false} OneStatus(statuses: seq<ContainerStatus>, name: string, a: ContainerStatus,
                                     b: ContainerStatus)
    requires IsStatusOf(statuses, name, a) && IsStatusOf(statuses, name, b)
    ensures a == b
  {
  }

  /** The containers of the new pod are, in order, those that were running or had failed. */
  ghost function Moving(pod: Pod, containers: seq<Container>): seq<Container> {
    if containers == [] then []
    else
      var n := |containers| - 1;
      Moving(pod, containers[..n]) + if LiveOrFailed(pod, containers[n]) then [containers[n]] else []
  }

  lemma {:induction false} KeptAreMoving(pod: Pod, states: seq<ContainerState>, k: nat)
    requires Reported(pod, states) && DistinctContainers(pod.spec.containers) && k <= |states|
    ensures Kept(pod.spec.containers[..k], states) == Moving(pod, pod.spec.containers[..k])
    decreases k
  {
    if k > 0 {
      assert pod.spec.containers[..k][..k - 1] == pod.spec.containers[..k - 1];
      KeptAreMoving(pod, states, k - 1);
      WantedMeansMoving(pod, states, k - 1);
    }
  }

  /** A kept container is one of the originals, and order is kept. */
  lemma {:induction false} KeptAreOriginals(containers: seq<Container>, states: seq<ContainerState>)
    requires DistinctContainers(containers)
    ensures DistinctContainers(Kept(containers, states))
    ensures forall i :: 0 <= i < |Kept(containers, states)| ==> Kept(containers, states)[i] in containers
    decreases |containers|
  {
    if containers != [] {
      var n := |containers| - 1;
      KeptAreOriginals(containers[..n], states);
      assert containers == containers[..n] + [containers[n]];
      var prior := Kept(containers[..n], states);
      forall i | 0 <= i < |prior| ensures prior[i].name != containers[n].name {
        assert prior[i] in containers[..n];
      }
    }
  }

  lemma AddedIsBacked(kept: seq<Container>, i: nat, volumes: seq<Volume>, claim: string, stagePath: string)
    requires i < |kept| && Added(kept[i], claim, stagePath).Some?
    ensures HasVolume(volumes + Extra(kept, claim, stagePath), Added(kept[i], claim, stagePath).value.name)
    ensures !HasMountPath(kept[i].volumeMounts, Added(kept[i], claim, stagePath).value.mountPath)
  {
    var all := volumes + Extra(kept, claim, stagePath);
    assert all[|volumes|].name == Added(kept[i], claim, stagePath).value.name;
  }

  lemma FittedIsSound(kept: seq<Container>, i: nat, volumes: seq<Volume>, claim: string, stagePath: string)
    requires i < |kept| && SoundContainer(kept[i], volumes)
    ensures SoundContainer(Fitted(kept[i], claim, stagePath), volumes + Extra(kept, claim, stagePath))
  {
    VolumeKeepsSound(kept[i], volumes, Extra(kept, claim, stagePath));
    if Added(kept[i], claim, stagePath).Some? {
      AddedIsBacked(kept, i, volumes, claim, stagePath);
      MountKeepsSound(kept[i], volumes + Extra(kept, claim, stagePath), Added(kept[i], claim, stagePath).value);
    }
  }

  lemma ExtraVolumeDistinct(volumes: seq<Volume>, extra: seq<Volume>)
    requires DistinctVolumes(volumes) && |extra| <= 1
    ensures DistinctVolumes(volumes + extra) <==> (extra == [] || !HasVolume(volumes, extra[0].name))
  {
    var all := volumes + extra;
    if extra != [] && HasVolume(volumes, extra[0].name) {
      var i :| 0 <= i < |volumes| && volumes[i].name == extra[0].name;
      assert all[i].name == all[|volumes|].name;
    }
  }

  /** From a well-formed pod the new spec is well formed exactly when the volume it adds, if any, has
      a name the pod does not use. */
  lemma NewPodIsWellFormed(original: Pod, targetNode: string, states: seq<ContainerState>, claim: string,
                           stagePath: string)
    requires WellFormed(original.spec)
    ensures var kept := Kept(original.spec.containers, states);
            WellFormed(Optimized(original, targetNode, states, claim, stagePath).spec) <==>
            (claim != "" ==> !HasVolume(original.spec.volumes, CHECKPOINT)) &&
            (NeedsScratch(kept, claim, stagePath) ==> !HasVolume(original.spec.volumes, SCRATCH))
  {
    var kept := Kept(original.spec.containers, states);
    KeptAreOriginals(original.spec.containers, states);
    ExtraVolumeDistinct(original.spec.volumes, Extra(kept, claim, stagePath));
    forall i | 0 <= i < |kept|
      ensures SoundContainer(Fitted(kept[i], claim, stagePath), original.spec.volumes + Extra(kept, claim, stagePath))
    {
      assert kept[i] in original.spec.containers;
      FittedIsSound(kept, i, original.spec.volumes, claim, stagePath);
    }
    assert DistinctContainers(FitAll(kept, claim, stagePath));
  }

  /** So migrating, with a checkpoint claim, a pod that such a migration made is never well formed. */
  lemma MigratingAgainBreaks(original: Pod, node: string, states: seq<ContainerState>, claim: string, path: string,
                             nextNode: string, nextStates: seq<ContainerState>, nextClaim: string, nextPath: string)
    requires claim != "" && nextClaim != "" && WellFormed(Optimized(original, node, states, claim, path).spec)
    ensures var migrated := Optimized(original, node, states, claim, path);
            !WellFormed(Optimized(migrated, nextNode, nextStates, nextClaim, nextPath).spec)
  {
    var migrated := Optimized(original, node, states, claim, path);
    assert migrated.spec.volumes[|original.spec.volumes|].name == CHECKPOINT;
    NewPodIsWellFormed(migrated, nextNode, nextStates, nextClaim, nextPath);
  }

  /** The new pod runs exactly the containers that were running or had failed, in order, each with its
      mounts as they were and at most one more, and each able to reach the stage's path. */
  lemma NewPodContainers(original: Pod, targetNode: string, states: seq<ContainerState>, claim: string,
                         stagePath: string)
    requires Reported(original, states) && DistinctContainers(original.spec.containers)
    ensures var moving, made := Moving(original, original.spec.containers),
                                Optimized(original, targetNode, states, claim, stagePath).spec.containers;
            && |made| == |moving|
            && forall i :: 0 <= i < |moving| ==>
                 && made[i].name == moving[i].name && made[i].image == moving[i].image
                 && moving[i].volumeMounts <= made[i].volumeMounts
                 && |made[i].volumeMounts| <= |moving[i].volumeMounts| + 1
                 && (stagePath != "" ==> HasMountPath(made[i].volumeMounts, stagePath))
                 && (claim != "" && stagePath == "" ==> HasMountPath(made[i].volumeMounts, DEFAULT_PATH))
  {
    KeptAreMoving(original, states, |states|);
    assert original.spec.containers[..|states|] == original.spec.containers;
    var moving := Moving(original, original.spec.containers);
    forall i | 0 <= i < |moving|
      ensures stagePath != "" ==> HasMountPath(Fitted(moving[i], claim, stagePath).volumeMounts, stagePath)
      ensures claim != "" && stagePath == "" ==>
              HasMountPath(Fitted(moving[i], claim, stagePath).volumeMounts, DEFAULT_PATH)
    {
      StageIsReachable(moving[i], claim, stagePath);
    }
  }

  lemma StageIsReachable(c: Container, claim: string, stagePath: string)
    ensures stagePath != "" ==> HasMountPath(Fitted(c, claim, stagePath).volumeMounts, stagePath)
    ensures claim != "" && stagePath == "" ==> HasMountPath(Fitted(c, claim, stagePath).volumeMounts, DEFAULT_PATH)
  {
    var fitted := Fitted(c, claim, stagePath).volumeMounts;
    assert c.volumeMounts <= fitted;
    assert Added(c, claim, stagePath).Some? ==> fitted[|c.volumeMounts|] == Added(c, claim, stagePath).value;
    assert forall i :: 0 <= i < |c.volumeMounts| ==> fitted[i] == c.volumeMounts[i];
  }

  /** The checkpoint itself is mounted unless both paths were taken. */
  lemma CheckpointMounted(c: Container, claim: string, stagePath: string)
    requires claim != "" && forall i :: 0 <= i < |c.volumeMounts| ==> c.volumeMounts[i].name != CHECKPOINT
    ensures (exists i :: 0 <= i < |Fitted(c, claim, stagePath).volumeMounts| &&
                         Fitted(c, claim, stagePath).volumeMounts[i].name == CHECKPOINT) <==>
            !(HasMountPath(c.volumeMounts, DEFAULT_PATH) &&
              (stagePath == "" || HasMountPath(c.volumeMounts, stagePath)))
  {
    var fitted := Fitted(c, claim, stagePath).volumeMounts;
    if Added(c, claim, stagePath).Some? {
      assert fitted[|c.volumeMounts|].name == CHECKPOINT;
    }
  }
}
