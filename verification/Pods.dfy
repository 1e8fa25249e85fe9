/** Pods as the controllers see them: references (pkg/types PodRef) and the parts of a spec they rewrite. */
module Pods {
  datatype PodRef = PodRef(namespace: string, name: string)

  datatype VolumeSource = Claim(claimName: string) | EmptyDir | Other(description: string)

  datatype Volume = Volume(name: string, source: VolumeSource)

  datatype VolumeMount = VolumeMount(name: string, mountPath: string)

  datatype Container = Container(name: string, image: string, volumeMounts: seq<VolumeMount>)

  predicate HasMountPath(mounts: seq<VolumeMount>, path: string) {
    exists i :: 0 <= i < |mounts| && mounts[i].mountPath == path
  }

  predicate HasVolume(volumes: seq<Volume>, name: string) {
    exists i :: 0 <= i < |volumes| && volumes[i].name == name
  }

  ghost predicate DistinctPaths(mounts: seq<VolumeMount>) {
    forall i, j :: 0 <= i < j < |mounts| ==> mounts[i].mountPath != mounts[j].mountPath
  }

  ghost predicate DistinctVolumes(volumes: seq<Volume>) {
    forall i, j :: 0 <= i < j < |volumes| ==> volumes[i].name != volumes[j].name
  }

  /** Every mount names a volume of the pod. */
  ghost predicate Backed(mounts: seq<VolumeMount>, volumes: seq<Volume>) {
    forall i :: 0 <= i < |mounts| ==> HasVolume(volumes, mounts[i].name)
  }

  ghost predicate SoundContainer(c: Container, volumes: seq<Volume>) {
    DistinctPaths(c.volumeMounts) && Backed(c.volumeMounts, volumes)
  }

  method FindMountPath(mounts: seq<VolumeMount>, path: string) returns (found: bool)
    ensures found == HasMountPath(mounts, path)
  {
    for i := 0 to |mounts|
      invariant forall j :: 0 <= j < i ==> mounts[j].mountPath != path
    {
      if mounts[i].mountPath == path {
        return true;
      }
    }
    found := false;
  }

  method FindVolume(volumes: seq<Volume>, name: string) returns (found: bool)
    ensures found == HasVolume(volumes, name)
  {
    for i := 0 to |volumes|
      invariant forall j :: 0 <= j < i ==> volumes[j].name != name
    {
      if volumes[i].name == name {
        return true;
      }
    }
    found := false;
  }

  /** A mount on an unused path keeps a container sound. */
  lemma MountKeepsSound(c: Container, volumes: seq<Volume>, m: VolumeMount)
    requires SoundContainer(c, volumes) && !HasMountPath(c.volumeMounts, m.mountPath) && HasVolume(volumes, m.name)
    ensures SoundContainer(c.(volumeMounts := c.volumeMounts + [m]), volumes)
  {
  }

  /** More volumes keep every container sound. */
  lemma VolumeKeepsSound(c: Container, volumes: seq<Volume>, more: seq<Volume>)
    requires SoundContainer(c, volumes)
    ensures SoundContainer(c, volumes + more)
  {
    forall i | 0 <= i < |c.volumeMounts| ensures HasVolume(volumes + more, c.volumeMounts[i].name) {
      var j :| 0 <= j < |volumes| && volumes[j].name == c.volumeMounts[i].name;
      assert (volumes + more)[j] == volumes[j];
    }
  }
}
