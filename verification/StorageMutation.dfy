/** Injecting the standard storage volumes (pkg/k8s/storage_mutation.go, pkg/types/storage_policy.go). */
module StorageMutation {
  import opened Pods

  datatype Role = DatasetInput | DatasetOutput | Cache | OtherRole

  datatype WorkloadType = Preprocessing | Training | Inference | CacheWarmup | OtherWorkload

  datatype Requirement = Requirement(role: Role, storageClass: string, mountPath: string, workload: WorkloadType)

  function RoleName(role: Role): string {
    match role
    case DatasetInput => "dataset-input"
    case DatasetOutput => "dataset-output"
    case Cache => "cache"
    case OtherRole => "other"
  }

  function VolumeName(role: Role): string {
    RoleName(role) + "-volume"
  }

  function BuildPVCName(workload: string, role: Role): string {
    match role
    case DatasetInput => workload + "-input"
    case DatasetOutput => workload + "-output"
    case Cache => workload + "-cache"
    case OtherRole => workload + "-pvc"
  }

  function Need(role: Role, w: WorkloadType): Requirement {
    match role
    case DatasetInput => Requirement(role, "gluesys-dataset-input", "/data/input", w)
    case DatasetOutput => Requirement(role, "gluesys-dataset-output", "/data/output", w)
    case Cache => Requirement(role, "gluesys-cache", "/data/cache", w)
    case OtherRole => Requirement(role, "", "", w)
  }

  predicate Lists(policy: seq<Requirement>, role: Role) {
    exists i :: 0 <= i < |policy| && policy[i].role == role
  }

  /** A policy as it should be: standard requirements, each at most once. */
  ghost predicate Standard(policy: seq<Requirement>) {
    && (forall i :: 0 <= i < |policy| ==>
       policy[i].role != OtherRole && policy[i] == Need(policy[i].role, policy[i].workload))
    && (forall i, j :: 0 <= i < j < |policy| ==> policy[i].role != policy[j].role)
  }

  method Require(reqs: seq<Requirement>, role: Role, w: WorkloadType) returns (more: seq<Requirement>)
    requires Standard(reqs) && !Lists(reqs, role) && role != OtherRole
    requires forall i :: 0 <= i < |reqs| ==> reqs[i].workload == w
    ensures Standard(more) && forall i :: 0 <= i < |more| ==> more[i].workload == w
    ensures forall other :: Lists(more, other) <==> Lists(reqs, other) || other == role
  {
    more := reqs + [Need(role, w)];
    forall other ensures Lists(more, other) <==> Lists(reqs, other) || other == role {
      assert more[|reqs|].role == role && forall i :: 0 <= i < |reqs| ==> more[i] == reqs[i];
    }
  }

  method FindRole(reqs: seq<Requirement>, role: Role) returns (found: bool)
    ensures found == Lists(reqs, role)
  {
    found := false;
    for i := 0 to |reqs|
      invariant !found && forall j :: 0 <= j < i ==> reqs[j].role != role
    {
      if reqs[i].role == role {
        found := true;
        break;
      }
    }
  }

  /** Input always; output for the two dataset workloads or on request, except when warming a cache;
      cache when warming one or on request. */
  method GetStoragePolicy(w: WorkloadType, needOutput: bool, needCache: bool) returns (reqs: seq<Requirement>)
    ensures Standard(reqs) && forall i :: 0 <= i < |reqs| ==> reqs[i].workload == w
    ensures forall i :: 0 <= i < |reqs| ==>
              reqs[i] in {Requirement(DatasetInput, "gluesys-dataset-input", "/data/input", w),
                          Requirement(DatasetOutput, "gluesys-dataset-output", "/data/output", w),
                          Requirement(Cache, "gluesys-cache", "/data/cache", w)}
    ensures Lists(reqs, DatasetInput)
    ensures Lists(reqs, DatasetOutput) <==> w.Preprocessing? || w.Training? || (needOutput && !w.CacheWarmup?)
    ensures Lists(reqs, Cache) <==> w.CacheWarmup? || needCache
  {
    reqs := Require([], DatasetInput, w);
    match w {
      case Preprocessing => reqs := Require(reqs, DatasetOutput, w);
      case Training => reqs := Require(reqs, DatasetOutput, w);
      case Inference =>
        if needOutput {
          reqs := Require(reqs, DatasetOutput, w);
        }
      case CacheWarmup => reqs := Require(reqs, Cache, w);
      case OtherWorkload =>
        if needOutput {
          reqs := Require(reqs, DatasetOutput, w);
        }
        if needCache {
          reqs := Require(reqs, Cache, w);
        }
    }
    if needCache {
      var hasCache := FindRole(reqs, Cache);
      if !hasCache {
        reqs := Require(reqs, Cache, w);
      }
    }
  }

  // ----- what injection should amount to

  /** The volumes a policy adds to those already there: one per role whose volume name is unused. */
  function NewVolumes(volumes: seq<Volume>, name: string, policy: seq<Requirement>): seq<Volume> {
    if policy == [] then []
    else
      var r := policy[|policy| - 1];
      NewVolumes(volumes, name, policy[..|policy| - 1])
      + if HasVolume(volumes, VolumeName(r.role)) then []
        else [Volume(VolumeName(r.role), Claim(BuildPVCName(name, r.role)))]
  }

  /** The mounts a policy adds to those already there: one per standard path that is unused. */
  function NewMounts(mounts: seq<VolumeMount>, policy: seq<Requirement>): seq<VolumeMount> {
    if policy == [] then []
    else
      var r := policy[|policy| - 1];
      NewMounts(mounts, policy[..|policy| - 1])
      + if HasMountPath(mounts, r.mountPath) then [] else [VolumeMount(VolumeName(r.role), r.mountPath)]
  }

  /** One requirement met on one container. */
  function MountOne(c: Container, r: Requirement): Container {
    if HasMountPath(c.volumeMounts, r.mountPath) then c
    else c.(volumeMounts := c.volumeMounts + [VolumeMount(VolumeName(r.role), r.mountPath)])
  }

  function Mounted(c: Container, policy: seq<Requirement>): Container {
    c.(volumeMounts := c.volumeMounts + NewMounts(c.volumeMounts, policy))
  }

  function AllMounted(containers: seq<Container>, policy: seq<Requirement>): (r: seq<Container>)
    ensures |r| == |containers|
  {
    seq(|containers|, i requires 0 <= i < |containers| => Mounted(containers[i], policy))
  }

  lemma RolesAndPaths(a: Role, b: Role, w: WorkloadType, v: WorkloadType)
    requires a != b && a != OtherRole && b != OtherRole
    ensures VolumeName(a) != VolumeName(b) && Need(a, w).mountPath != Need(b, v).mountPath
  {
    assert VolumeName(DatasetInput)[8] == 'i' && VolumeName(DatasetOutput)[8] == 'o' && VolumeName(Cache)[0] == 'c';
  }

  /** Distinct roles use distinct names, so what earlier requirements added never hides a later one. */
  lemma {:induction false} AddedVolumesAreOthers(volumes: seq<Volume>, name: string, policy: seq<Requirement>,
                                                 r: Requirement)
    requires Standard(policy + [r])
    ensures HasVolume(volumes + NewVolumes(volumes, name, policy), VolumeName(r.role)) <==>
            HasVolume(volumes, VolumeName(r.role))
    decreases |policy|
  {
    var all := volumes + NewVolumes(volumes, name, policy);
    if policy == [] {
      assert all == volumes;
    } else {
      var n := |policy| - 1;
      var p := policy[n];
      WithoutLast(policy, r);
      AddedVolumesAreOthers(volumes, name, policy[..n], r);
      RolesAndPaths(p.role, r.role, p.workload, r.workload);
      if !HasVolume(volumes, VolumeName(p.role)) {
        var v := Volume(VolumeName(p.role), Claim(BuildPVCName(name, p.role)));
        assert all == (volumes + NewVolumes(volumes, name, policy[..n])) + [v];
        VolumeAppended(volumes + NewVolumes(volumes, name, policy[..n]), v, VolumeName(r.role));
      } else {
        assert all == volumes + NewVolumes(volumes, name, policy[..n]);
      }
    }
  }

  lemma WithoutLast(policy: seq<Requirement>, r: Requirement)
    requires policy != [] && Standard(policy + [r])
    ensures Standard(policy[..|policy| - 1] + [r]) && Standard(policy)
    ensures policy[|policy| - 1].role != r.role
    ensures policy[|policy| - 1].role != OtherRole && r.role != OtherRole
    ensures r == Need(r.role, r.workload)
    ensures policy[|policy| - 1] == Need(policy[|policy| - 1].role, policy[|policy| - 1].workload)
  {
    var all := policy + [r];
    var fewer := policy[..|policy| - 1] + [r];
    assert all[|policy|] == r && all[|policy| - 1] == policy[|policy| - 1];
    forall i | 0 <= i < |fewer| ensures fewer[i] == all[if i < |policy| - 1 then i else |policy|] {
    }
    assert forall i :: 0 <= i < |policy| ==> policy[i] == all[i];
  }

  lemma VolumeAppended(volumes: seq<Volume>, v: Volume, name: string)
    ensures HasVolume(volumes + [v], name) <==> HasVolume(volumes, name) || v.name == name
  {
    var all := volumes + [v];
    assert all[|volumes|] == v && forall i :: 0 <= i < |volumes| ==> all[i] == volumes[i];
  }

  lemma MountAppended(mounts: seq<VolumeMount>, m: VolumeMount, path: string)
    ensures HasMountPath(mounts + [m], path) <==> HasMountPath(mounts, path) || m.mountPath == path
  {
    var all := mounts + [m];
    assert all[|mounts|] == m && forall i :: 0 <= i < |mounts| ==> all[i] == mounts[i];
  }

  lemma {:induction false} AddedMountsAreOthers(mounts: seq<VolumeMount>, policy: seq<Requirement>, r: Requirement)
    requires Standard(policy + [r])
    ensures HasMountPath(mounts + NewMounts(mounts, policy), r.mountPath) <==> HasMountPath(mounts, r.mountPath)
    decreases |policy|
  {
    var all := mounts + NewMounts(mounts, policy);
    if policy == [] {
      assert all == mounts;
    } else {
      var n := |policy| - 1;
      var p := policy[n];
      WithoutLast(policy, r);
      AddedMountsAreOthers(mounts, policy[..n], r);
      RolesAndPaths(p.role, r.role, p.workload, r.workload);
      if !HasMountPath(mounts, p.mountPath) {
        var m := VolumeMount(VolumeName(p.role), p.mountPath);
        assert all == (mounts + NewMounts(mounts, policy[..n])) + [m];
        MountAppended(mounts + NewMounts(mounts, policy[..n]), m, r.mountPath);
      } else {
        assert all == mounts + NewMounts(mounts, policy[..n]);
      }
    }
  }

  lemma PrefixIsStandard(policy: seq<Requirement>, k: nat)
    requires Standard(policy) && k < |policy|
    ensures Standard(policy[..k] + [policy[k]]) && policy[..k + 1] == policy[..k] + [policy[k]]
    ensures policy[..k + 1][..k] == policy[..k]
  {
    assert policy[..k] + [policy[k]] == policy[..k + 1];
  }

  lemma VolumesGrow(volumes: seq<Volume>, name: string, policy: seq<Requirement>, k: nat)
    requires Standard(policy) && k < |policy|
    ensures var prior, v := volumes + NewVolumes(volumes, name, policy[..k]), VolumeName(policy[k].role);
            volumes + NewVolumes(volumes, name, policy[..k + 1])
            == prior + if HasVolume(prior, v) then [] else [Volume(v, Claim(BuildPVCName(name, policy[k].role)))]
  {
    PrefixIsStandard(policy, k);
    AddedVolumesAreOthers(volumes, name, policy[..k], policy[k]);
  }

  lemma MountedGrows(c: Container, policy: seq<Requirement>, k: nat)
    requires Standard(policy) && k < |policy|
    ensures Mounted(c, policy[..k + 1]) == MountOne(Mounted(c, policy[..k]), policy[k])
  {
    PrefixIsStandard(policy, k);
    AddedMountsAreOthers(c.volumeMounts, policy[..k], policy[k]);
    assert c.volumeMounts + (NewMounts(c.volumeMounts, policy[..k]) + []) ==
           c.volumeMounts + NewMounts(c.volumeMounts, policy[..k]);
  }

  lemma MountedNone(c: Container)
    ensures Mounted(c, []) == c
  {
    assert c.volumeMounts + [] == c.volumeMounts;
  }

  lemma NothingMounted(containers: seq<Container>)
    ensures AllMounted(containers, []) == containers
  {
    forall i | 0 <= i < |containers| ensures Mounted(containers[i], []) == containers[i] {
      MountedNone(containers[i]);
    }
  }

  // ----- the code, which checks against the growing lists

  class PodSpec {
    const name: string
    var volumes: seq<Volume>
    var containers: seq<Container>

    constructor (name: string, volumes: seq<Volume>, containers: seq<Container>)
      ensures this.name == name && this.volumes == volumes && this.containers == containers
    {
      this.name, this.volumes, this.containers := name, volumes, containers;
    }

    method InjectVolume(r: Requirement)
      modifies this`volumes
      ensures volumes == old(volumes) + if HasVolume(old(volumes), VolumeName(r.role)) then []
                                        else [Volume(VolumeName(r.role), Claim(BuildPVCName(name, r.role)))]
    {
      var present := FindVolume(volumes, VolumeName(r.role));
      if !present {
        volumes := volumes + [Volume(VolumeName(r.role), Claim(BuildPVCName(name, r.role)))];
      }
    }

    method InjectMounts(r: Requirement)
      modifies this`containers
      ensures |containers| == |old(containers)|
      ensures forall i :: 0 <= i < |containers| ==> containers[i] == MountOne(old(containers)[i], r)
    {
      for i := 0 to |containers|
        invariant |containers| == |old(containers)|
        invariant forall j :: i <= j < |containers| ==> containers[j] == old(containers)[j]
        invariant forall j :: 0 <= j < i ==> containers[j] == MountOne(old(containers)[j], r)
      {
        var c := containers[i];
        var taken := FindMountPath(c.volumeMounts, r.mountPath);
        if !taken {
          containers := containers[i := c.(volumeMounts := c.volumeMounts +
                      [VolumeMount(VolumeName(r.role), r.mountPath)])];
        }
      }
    }

    /** The loop over the policy: adds exactly what is missing from the pod as it was given. */
    method Inject(policy: seq<Requirement>)
      requires Standard(policy)
      modifies this
      ensures volumes == old(volumes) + NewVolumes(old(volumes), name, policy)
      ensures containers == AllMounted(old(containers), policy)
    {
      NothingMounted(containers);
      for k := 0 to |policy|
        invariant volumes == old(volumes) + NewVolumes(old(volumes), name, policy[..k])
        invariant containers == AllMounted(old(containers), policy[..k])
      {
        VolumesGrow(old(volumes), name, policy, k);
        forall i | 0 <= i < |containers|
          ensures MountOne(Mounted(old(containers)[i], policy[..k]), policy[k]) ==
                  Mounted(old(containers)[i], policy[..k + 1])
        {
          MountedGrows(old(containers)[i], policy, k);
        }
        InjectVolume(policy[k]);
        InjectMounts(policy[k]);
      }
      assert policy[..|policy|] == policy;
    }

    method InjectStandardVolumes(w: WorkloadType, needOutput: bool, needCache: bool)
      returns (ghost policy: seq<Requirement>)
      modifies this
      ensures Standard(policy) && Lists(policy, DatasetInput)
      ensures Lists(policy, DatasetOutput) <==> w.Preprocessing? || w.Training? || (needOutput && !w.CacheWarmup?)
      ensures Lists(policy, Cache) <==> w.CacheWarmup? || needCache
      ensures volumes == old(volumes) + NewVolumes(old(volumes), name, policy)
      ensures containers == AllMounted(old(containers), policy)
    {
      var reqs := GetStoragePolicy(w, needOutput, needCache);
      policy := reqs;
      Inject(reqs);
    }
  }

  // ----- what injection guarantees

  /** Afterwards every role of the policy has its volume. */
  lemma VolumesProvided(volumes: seq<Volume>, name: string, policy: seq<Requirement>)
    ensures forall i :: 0 <= i < |policy| ==>
              HasVolume(volumes + NewVolumes(volumes, name, policy), VolumeName(policy[i].role))
  {
    forall i | 0 <= i < |policy|
      ensures HasVolume(volumes + NewVolumes(volumes, name, policy), VolumeName(policy[i].role))
    {
      VolumeProvided(volumes, name, policy, i);
    }
  }

  lemma {:induction false} VolumeProvided(volumes: seq<Volume>, name: string, policy: seq<Requirement>, i: nat)
    requires i < |policy|
    ensures HasVolume(volumes + NewVolumes(volumes, name, policy), VolumeName(policy[i].role))
    decreases |policy|
  {
    var n := |policy| - 1;
    LastVolumeProvided(volumes, name, policy);
    if i < n {
      VolumeProvided(volumes, name, policy[..n], i);
    }
  }

  /** Afterwards a container has every standard path of the policy. */
  lemma MountsProvided(mounts: seq<VolumeMount>, policy: seq<Requirement>)
    ensures forall i :: 0 <= i < |policy| ==> HasMountPath(mounts + NewMounts(mounts, policy), policy[i].mountPath)
  {
    forall i | 0 <= i < |policy| ensures HasMountPath(mounts + NewMounts(mounts, policy), policy[i].mountPath) {
      MountProvided(mounts, policy, i);
    }
  }

  lemma {:induction false} MountProvided(mounts: seq<VolumeMount>, policy: seq<Requirement>, i: nat)
    requires i < |policy|
    ensures HasMountPath(mounts + NewMounts(mounts, policy), policy[i].mountPath)
    decreases |policy|
  {
    var n := |policy| - 1;
    LastMountProvided(mounts, policy);
    if i < n {
      MountProvided(mounts, policy[..n], i);
    }
  }

  lemma LastVolumeProvided(volumes: seq<Volume>, name: string, policy: seq<Requirement>)
    requires policy != []
    ensures var all := volumes + NewVolumes(volumes, name, policy);
            && HasVolume(all, VolumeName(policy[|policy| - 1].role))
            && forall v :: HasVolume(volumes + NewVolumes(volumes, name, policy[..|policy| - 1]), v) ==>
               HasVolume(all, v)
  {
    var r := policy[|policy| - 1];
    var prior := volumes + NewVolumes(volumes, name, policy[..|policy| - 1]);
    var all := volumes + NewVolumes(volumes, name, policy);
    assert prior <= all;
    assert forall i :: 0 <= i < |prior| ==> all[i] == prior[i];
    if HasVolume(volumes, VolumeName(r.role)) {
      var i :| 0 <= i < |volumes| && volumes[i].name == VolumeName(r.role);
      assert all[i] == volumes[i];
    } else {
      assert all[|prior|].name == VolumeName(r.role);
    }
  }

  lemma LastMountProvided(mounts: seq<VolumeMount>, policy: seq<Requirement>)
    requires policy != []
    ensures var all := mounts + NewMounts(mounts, policy);
            && HasMountPath(all, policy[|policy| - 1].mountPath)
            && forall p :: HasMountPath(mounts + NewMounts(mounts, policy[..|policy| - 1]), p) ==> HasMountPath(all, p)
  {
    var r := policy[|policy| - 1];
    var prior := mounts + NewMounts(mounts, policy[..|policy| - 1]);
    var all := mounts + NewMounts(mounts, policy);
    assert prior <= all;
    assert forall i :: 0 <= i < |prior| ==> all[i] == prior[i];
    if HasMountPath(mounts, r.mountPath) {
      var i :| 0 <= i < |mounts| && mounts[i].mountPath == r.mountPath;
      assert all[i] == mounts[i];
    } else {
      assert all[|prior|].mountPath == r.mountPath;
    }
  }

  lemma {:induction false} NoNewVolumes(volumes: seq<Volume>, name: string, policy: seq<Requirement>)
    requires forall i :: 0 <= i < |policy| ==> HasVolume(volumes, VolumeName(policy[i].role))
    ensures NewVolumes(volumes, name, policy) == []
    decreases |policy|
  {
    if policy != [] {
      NoNewVolumes(volumes, name, policy[..|policy| - 1]);
    }
  }

  lemma {:induction false} NoNewMounts(mounts: seq<VolumeMount>, policy: seq<Requirement>)
    requires forall i :: 0 <= i < |policy| ==> HasMountPath(mounts, policy[i].mountPath)
    ensures NewMounts(mounts, policy) == []
    decreases |policy|
  {
    if policy != [] {
      NoNewMounts(mounts, policy[..|policy| - 1]);
    }
  }

  /** Injecting twice is injecting once. */
  lemma InjectionIsIdempotent(volumes: seq<Volume>, containers: seq<Container>, name: string, policy: seq<Requirement>)
    ensures var v, cs := volumes + NewVolumes(volumes, name, policy), AllMounted(containers, policy);
            v + NewVolumes(v, name, policy) == v && AllMounted(cs, policy) == cs
  {
    var v, cs := volumes + NewVolumes(volumes, name, policy), AllMounted(containers, policy);
    VolumesProvided(volumes, name, policy);
    NoNewVolumes(v, name, policy);
    forall i | 0 <= i < |cs| ensures Mounted(cs[i], policy) == cs[i] {
      MountsProvided(containers[i].volumeMounts, policy);
      NoNewMounts(cs[i].volumeMounts, policy);
    }
  }

  /** Injection keeps a pod well formed: distinct volumes, and in each container distinct paths and
      mounts that name volumes of the pod. */
  lemma InjectionKeepsSound(volumes: seq<Volume>, name: string, c: Container, policy: seq<Requirement>)
    requires Standard(policy) && DistinctVolumes(volumes) && SoundContainer(c, volumes)
    ensures var after := volumes + NewVolumes(volumes, name, policy);
            DistinctVolumes(after) && SoundContainer(Mounted(c, policy), after)
  {
    assert policy[..|policy|] == policy;
    VolumesStayDistinct(volumes, name, policy, |policy|);
    var after := volumes + NewVolumes(volumes, name, policy);
    VolumeKeepsSound(c, volumes, NewVolumes(volumes, name, policy));
    VolumesProvided(volumes, name, policy);
    MountsStaySound(c, after, policy);
  }

  lemma {:induction false} VolumesStayDistinct(volumes: seq<Volume>, name: string, policy: seq<Requirement>, k: nat)
    requires Standard(policy) && k <= |policy| && DistinctVolumes(volumes)
    ensures DistinctVolumes(volumes + NewVolumes(volumes, name, policy[..k]))
    decreases k
  {
    if k == 0 {
      assert volumes + [] == volumes;
    } else {
      VolumesStayDistinct(volumes, name, policy, k - 1);
      VolumesGrow(volumes, name, policy, k - 1);
      UnusedNameStaysDistinct(volumes + NewVolumes(volumes, name, policy[..k - 1]),
                              Volume(VolumeName(policy[k - 1].role), Claim(BuildPVCName(name, policy[k - 1].role))));
    }
  }

  lemma UnusedNameStaysDistinct(volumes: seq<Volume>, v: Volume)
    requires DistinctVolumes(volumes)
    ensures DistinctVolumes(volumes + if HasVolume(volumes, v.name) then [] else [v])
  {
  }

  lemma MountsStaySound(c: Container, after: seq<Volume>, policy: seq<Requirement>)
    requires Standard(policy) && SoundContainer(c, after)
    requires forall i :: 0 <= i < |policy| ==> HasVolume(after, VolumeName(policy[i].role))
    ensures SoundContainer(Mounted(c, policy), after)
  {
    var sound := (x: Container) => SoundContainer(x, after);
    forall x, i | 0 <= i < |policy| && sound(x) ensures sound(MountOne(x, policy[i])) {
      MountOneKeepsSound(x, after, policy[i]);
    }
    MountsKeep(c, policy, |policy|, sound);
    assert policy[..|policy|] == policy;
  }

  /** What every single mount keeps, all of them keep. */
  lemma {:induction false} MountsKeep(c: Container, policy: seq<Requirement>, k: nat, good: Container -> bool)
    requires Standard(policy) && k <= |policy| && good(c)
    requires forall x, i :: 0 <= i < |policy| && good(x) ==> good(MountOne(x, policy[i]))
    ensures good(Mounted(c, policy[..k]))
    decreases k
  {
    if k == 0 {
      assert policy[..0] == [];
      MountedNone(c);
    } else {
      MountsKeep(c, policy, k - 1, good);
      MountedGrows(c, policy, k - 1);
    }
  }

  lemma MountOneKeepsSound(c: Container, after: seq<Volume>, r: Requirement)
    requires SoundContainer(c, after) && HasVolume(after, VolumeName(r.role))
    ensures SoundContainer(MountOne(c, r), after)
  {
    if !HasMountPath(c.volumeMounts, r.mountPath) {
      MountKeepsSound(c, after, VolumeMount(VolumeName(r.role), r.mountPath));
    }
  }

  /** Nothing but the named volume is mounted on the path. */
  ghost predicate Serves(mounts: seq<VolumeMount>, path: string, volume: string) {
    forall i :: 0 <= i < |mounts| && mounts[i].mountPath == path ==> mounts[i].name == volume
  }

  /** A standard path ends up served by its role's volume exactly when no other volume was mounted
      there before: a user's own mount is kept, not overridden. */
  lemma {:induction false} ServedExactlyWhen(mounts: seq<VolumeMount>, policy: seq<Requirement>, r: Requirement)
    requires Standard(policy) && r.role != OtherRole && r == Need(r.role, r.workload)
    ensures Serves(mounts + NewMounts(mounts, policy), r.mountPath, VolumeName(r.role)) <==>
            Serves(mounts, r.mountPath, VolumeName(r.role))
    decreases |policy|
  {
    if policy == [] {
      assert mounts + NewMounts(mounts, policy) == mounts;
    } else {
      var n := |policy| - 1;
      var p := policy[n];
      ServedExactlyWhen(mounts, policy[..n], r);
      if p.role != r.role {
        RolesAndPaths(p.role, r.role, p.workload, r.workload);
      }
      OneMountMore(mounts, policy, r.mountPath, VolumeName(r.role));
    }
  }

  lemma OneMountMore(mounts: seq<VolumeMount>, policy: seq<Requirement>, path: string, volume: string)
    requires policy != []
    requires var p := policy[|policy| - 1]; p.mountPath == path ==> VolumeName(p.role) == volume
    ensures Serves(mounts + NewMounts(mounts, policy), path, volume) <==>
            Serves(mounts + NewMounts(mounts, policy[..|policy| - 1]), path, volume)
  {
    var p := policy[|policy| - 1];
    var prior, all := mounts + NewMounts(mounts, policy[..|policy| - 1]), mounts + NewMounts(mounts, policy);
    if HasMountPath(mounts, p.mountPath) {
      assert all == prior;
    } else {
      var m := VolumeMount(VolumeName(p.role), p.mountPath);
      assert all == prior + [m];
      ServesAppended(prior, m, path, volume);
    }
  }

  /** A pod that mounts a volume of its own on /data/input goes on reading that one. */
  lemma OwnInputIsKept(own: VolumeMount, policy: seq<Requirement>)
    requires Standard(policy) && own.mountPath == "/data/input" && own.name != VolumeName(DatasetInput)
    ensures !Serves([own] + NewMounts([own], policy), "/data/input", VolumeName(DatasetInput))
  {
    assert !Serves([own], "/data/input", VolumeName(DatasetInput)) by {
      assert [own][0].mountPath == "/data/input";
    }
    ServedExactlyWhen([own], policy, Need(DatasetInput, Training));
  }

  lemma ServesAppended(mounts: seq<VolumeMount>, m: VolumeMount, path: string, volume: string)
    requires m.mountPath == path ==> m.name == volume
    ensures Serves(mounts + [m], path, volume) <==> Serves(mounts, path, volume)
  {
    var all := mounts + [m];
    assert forall i :: 0 <= i < |mounts| ==> all[i] == mounts[i];
  }

  /** A container reads a path from a claim of the workload. */
  ghost predicate Reaches(volumes: seq<Volume>, mounts: seq<VolumeMount>, path: string, claim: string) {
    exists i, j :: 0 <= i < |mounts| && 0 <= j < |volumes| && Joins(volumes[j], mounts[i], path, claim)
  }

  predicate Joins(v: Volume, m: VolumeMount, path: string, claim: string) {
    m.mountPath == path && m.name == v.name && v.source == Claim(claim)
  }

  /** On a pod that uses neither the names nor the paths, each standard path of the policy leads to the claim
      of its role. */
  lemma PathsReachClaims(volumes: seq<Volume>, mounts: seq<VolumeMount>, name: string, policy: seq<Requirement>)
    requires Standard(policy)
    requires forall i :: 0 <= i < |policy| ==>
               !HasVolume(volumes, VolumeName(policy[i].role)) && !HasMountPath(mounts, policy[i].mountPath)
    ensures var v, m := volumes + NewVolumes(volumes, name, policy), mounts + NewMounts(mounts, policy);
            && (Lists(policy, DatasetInput) ==> Reaches(v, m, "/data/input", name + "-input"))
            && (Lists(policy, DatasetOutput) ==> Reaches(v, m, "/data/output", name + "-output"))
            && (Lists(policy, Cache) ==> Reaches(v, m, "/data/cache", name + "-cache"))
  {
    forall i | 0 <= i < |policy|
      ensures Reaches(volumes + NewVolumes(volumes, name, policy), mounts + NewMounts(mounts, policy),
                      policy[i].mountPath, BuildPVCName(name, policy[i].role))
    {
      PathReachesClaim(volumes, mounts, name, policy, i);
    }
  }

  lemma PathReachesClaim(volumes: seq<Volume>, mounts: seq<VolumeMount>, name: string, policy: seq<Requirement>, i: nat)
    requires i < |policy|
    requires forall k :: 0 <= k < |policy| ==>
               !HasVolume(volumes, VolumeName(policy[k].role)) && !HasMountPath(mounts, policy[k].mountPath)
    ensures Reaches(volumes + NewVolumes(volumes, name, policy), mounts + NewMounts(mounts, policy),
                    policy[i].mountPath, BuildPVCName(name, policy[i].role))
  {
    NewVolumeAtPlace(volumes, name, policy, i, v => HasVolume(volumes, v));
    NewMountAtPlace(mounts, policy, i, path => HasMountPath(mounts, path));
    var v, m := NewVolumes(volumes, name, policy), NewMounts(mounts, policy);
    assert (volumes + v)[|volumes| + i] == v[i] && (mounts + m)[|mounts| + i] == m[i];
    assert Joins((volumes + v)[|volumes| + i], (mounts + m)[|mounts| + i], policy[i].mountPath,
                 BuildPVCName(name, policy[i].role));
  }

  lemma OneVolumeMore(volumes: seq<Volume>, name: string, policy: seq<Requirement>)
    requires policy != [] && !HasVolume(volumes, VolumeName(policy[|policy| - 1].role))
    ensures var role := policy[|policy| - 1].role;
            NewVolumes(volumes, name, policy) == NewVolumes(volumes, name, policy[..|policy| - 1])
            + [Volume(VolumeName(role), Claim(BuildPVCName(name, role)))]
  {
  }

  lemma OneMountAdded(mounts: seq<VolumeMount>, policy: seq<Requirement>)
    requires policy != [] && !HasMountPath(mounts, policy[|policy| - 1].mountPath)
    ensures var r := policy[|policy| - 1];
            NewMounts(mounts, policy) == NewMounts(mounts, policy[..|policy| - 1])
            + [VolumeMount(VolumeName(r.role), r.mountPath)]
  {
  }

  /** Where nothing is there yet, one volume and one mount per requirement are added, in order. */
  lemma {:induction false} NewVolumeAtPlace(volumes: seq<Volume>, name: string, policy: seq<Requirement>, i: nat,
                                            used: string -> bool)
    requires forall v :: used(v) == HasVolume(volumes, v)
    requires i < |policy| && forall k :: 0 <= k < |policy| ==> !used(VolumeName(policy[k].role))
    ensures |NewVolumes(volumes, name, policy)| == |policy|
    ensures NewVolumes(volumes, name, policy)[i]
            == Volume(VolumeName(policy[i].role), Claim(BuildPVCName(name, policy[i].role)))
    decreases |policy|
  {
    var n := |policy| - 1;
    OneVolumeMore(volumes, name, policy);
    if n > 0 {
      NewVolumeAtPlace(volumes, name, policy[..n], if i < n then i else 0, used);
    }
  }

  lemma {:induction false} NewMountAtPlace(mounts: seq<VolumeMount>, policy: seq<Requirement>, i: nat,
                                           used: string -> bool)
    requires forall path :: used(path) == HasMountPath(mounts, path)
    requires i < |policy| && forall k :: 0 <= k < |policy| ==> !used(policy[k].mountPath)
    ensures |NewMounts(mounts, policy)| == |policy|
    ensures NewMounts(mounts, policy)[i] == VolumeMount(VolumeName(policy[i].role), policy[i].mountPath)
    decreases |policy|
  {
    var n := |policy| - 1;
    OneMountAdded(mounts, policy);
    if n > 0 {
      NewMountAtPlace(mounts, policy[..n], if i < n then i else 0, used);
    }
  }

  /** Claim names tell workloads and roles apart. */
  lemma ClaimNamesAreUnique(a: string, b: string, x: Role, y: Role)
    ensures BuildPVCName(a, x) == BuildPVCName(b, y) <==> a == b && x == y
  {
    if x == y {
      SameSuffix(a, b, BuildPVCName("", x));
    } else {
      SuffixesDiffer(a, b, x, y);
    }
  }

  lemma SameSuffix(a: string, b: string, suffix: string)
    ensures a + suffix == b + suffix <==> a == b
  {
    assert a == (a + suffix)[..|a|] && b == (b + suffix)[..|b|];
    if a + suffix == b + suffix {
      assert |a| == |b|;
    }
  }

  lemma SuffixesDiffer(a: string, b: string, x: Role, y: Role)
    requires x != y
    ensures BuildPVCName(a, x) != BuildPVCName(b, y)
  {
    var p, q := BuildPVCName(a, x), BuildPVCName(b, y);
    assert p[|p| - 1] != q[|q| - 1] || p[|p| - 4] != q[|q| - 4];
  }
}
