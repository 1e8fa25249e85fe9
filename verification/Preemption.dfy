/** The preemption controller (pkg/controller/preemption.go). */
module Preemption {
  import opened Options
  import opened Decimal
  import opened Pods
  import opened Quantity
  import opened Sorting

  datatype ResourceType = Cpu | Memory | Gpu | Storage | StorageIops | All

  datatype Request = Request(resourceType: ResourceType, targetAmount: string, minPriority: int, maxPods: int,
                             namespace: string, protectedNamespaces: seq<string>)

  /** score: what the requested strategy gives the pod; lower goes first. */
  datatype PodInfo = PodInfo(priority: int, score: real, cpu: Int64, memory: Int64, gpu: int,
                             read: int, write: int, iops: int)

  datatype Amounts = Amounts(cpu: string, memory: string, gpu: int, read: int, write: int, iops: int)

  datatype Candidate = Candidate(pod: PodRef, priority: int, score: real, requests: Amounts, selected: bool)

  /** What the cluster knows of a pod, if it can be read. */
  type Cluster = PodRef -> Option<PodInfo>

  function AmountsOf(info: PodInfo, codec: Codec): Amounts {
    Amounts(codec.printCpu(info.cpu), codec.printMemory(info.memory), info.gpu, info.read, info.write, info.iops)
  }

  function CandidateOf(pod: PodRef, info: PodInfo, codec: Codec): Candidate {
    Candidate(pod, info.priority, info.score, AmountsOf(info, codec), false)
  }

  predicate Eligible(req: Request, cluster: Cluster, pod: PodRef) {
    && pod.namespace !in req.protectedNamespaces
    && (req.namespace == "" || pod.namespace == req.namespace)
    && cluster(pod).Some?
    && cluster(pod).value.priority < req.minPriority
  }

  function Candidates(req: Request, cluster: Cluster, pods: seq<PodRef>, codec: Codec): seq<Candidate> {
    if pods == [] then []
    else
      var pod := pods[|pods| - 1];
      Candidates(req, cluster, pods[..|pods| - 1], codec)
      + if Eligible(req, cluster, pod) then [CandidateOf(pod, cluster(pod).value, codec)] else []
  }

  function ParseResourceAmount(amount: string, t: ResourceType, codec: Codec): int {
    match t
    case Cpu => codec.readCpu(amount)
    case Memory => codec.readMemory(amount)
    case Gpu => ParseInt64(amount)
    case All => ParseInt64(amount)
    case Storage => 0
    case StorageIops => 0
  }

  function Target(req: Request, codec: Codec): int {
    ParseResourceAmount(req.targetAmount, req.resourceType, codec)
  }

  /** What a candidate adds towards the target. */
  function Share(t: ResourceType, c: Candidate, codec: Codec): int {
    match t
    case Cpu => codec.readCpu(c.requests.cpu)
    case Memory => codec.readMemory(c.requests.memory)
    case Gpu => c.requests.gpu
    case Storage => c.requests.read + c.requests.write
    case StorageIops => c.requests.iops
    case All => 1
  }

  function Gathered(t: ResourceType, cs: seq<Candidate>, codec: Codec): int {
    if cs == [] then 0 else Gathered(t, cs[..|cs| - 1], codec) + Share(t, cs[|cs| - 1], codec)
  }

  // ----- candidates and victims

  /** A reason to take no more than the first k candidates. */
  predicate Stops(req: Request, cs: seq<Candidate>, k: nat, codec: Codec)
    requires k <= |cs|
  {
    || k == |cs| || k >= req.maxPods
    || Gathered(req.resourceType, cs[..k], codec) >= Target(req, codec)
  }

  /** k is the length of the shortest prefix of the candidates at which there is reason to stop. */
  ghost predicate IsVictimCount(req: Request, cs: seq<Candidate>, k: nat, codec: Codec) {
    k <= |cs| && Stops(req, cs, k, codec) && forall j :: 0 <= j < k ==> !Stops(req, cs, j, codec)
  }

  function ByScore(): Candidate -> real {
    (c: Candidate) => c.score
  }

  method FindPreemptionCandidates(req: Request, cluster: Cluster, pods: seq<PodRef>, codec: Codec)
    returns (candidates: array<Candidate>)
    ensures fresh(candidates) && multiset(candidates[..]) == multiset(Candidates(req, cluster, pods, codec))
    ensures SortedBy(candidates[..], ByScore())
  {
    var found: seq<Candidate> := [];
    for i := 0 to |pods|
      invariant found == Candidates(req, cluster, pods[..i], codec)
    {
      assert pods[..i + 1][..i] == pods[..i];
      var pod := pods[i];
      if pod.namespace !in req.protectedNamespaces {
        if req.namespace == "" || pod.namespace == req.namespace {
          var info := cluster(pod);
          if info.Some? && info.value.priority < req.minPriority {
            found := found + [CandidateOf(pod, info.value, codec)];
          }
        }
      }
    }
    assert pods[..|pods|] == pods;
    candidates := new Candidate[|found|](i requires 0 <= i < |found| => found[i]);
    assert candidates[..] == found;
    SortSlice(candidates, ByScore());
  }

  /** Marks, in place, exactly the victims, and returns them in order. */
  method SelectPodsToPreempt(req: Request, candidates: array<Candidate>, codec: Codec) returns (victims: seq<Candidate>)
    modifies candidates
    ensures IsVictimCount(req, old(candidates[..]), |victims|, codec)
    ensures forall i :: 0 <= i < |victims| ==> victims[i] == candidates[i] == old(candidates[i]).(selected := true)
    ensures forall i :: |victims| <= i < candidates.Length ==> candidates[i] == old(candidates[i])
  {
    ghost var cs := candidates[..];
    victims := [];
    var target := ParseResourceAmount(req.targetAmount, req.resourceType, codec);
    var accumulated, i := 0, 0;
    while i < candidates.Length
      invariant i == |victims| <= candidates.Length
      invariant accumulated == Gathered(req.resourceType, cs[..i], codec)
      invariant forall j :: 0 <= j < i ==> !Stops(req, cs, j, codec)
      invariant forall j :: 0 <= j < i ==> victims[j] == candidates[j] == cs[j].(selected := true)
      invariant forall j :: i <= j < candidates.Length ==> candidates[j] == cs[j]
    {
      if |victims| >= req.maxPods {
        break;
      }
      if accumulated >= target {
        break;
      }
      candidates[i] := candidates[i].(selected := true);
      assert cs[..i + 1][..i] == cs[..i];
      accumulated := accumulated + Share(req.resourceType, candidates[i], codec);
      victims := victims + [candidates[i]];
      i := i + 1;
    }
  }

  /** Outside the protected namespaces, in the requested one if any, readable, of lower priority than the
      request's minimum, and carrying what the cluster says of the pod. */
  predicate Qualifies(req: Request, cluster: Cluster, c: Candidate, codec: Codec) {
    && c.pod.namespace !in req.protectedNamespaces && req.namespace in {"", c.pod.namespace}
    && match cluster(c.pod)
       case None => false
       case Some(info) =>
         && info.priority == c.priority < req.minPriority && c.score == info.score && !c.selected
         && c.requests.cpu == codec.printCpu(info.cpu) && c.requests.memory == codec.printMemory(info.memory)
         && c.requests.gpu == info.gpu && c.requests.read == info.read && c.requests.write == info.write
         && c.requests.iops == info.iops
  }

  lemma {:induction false} CandidatesMembers(req: Request, cluster: Cluster, pods: seq<PodRef>, c: Candidate,
                                             codec: Codec)
    ensures c in Candidates(req, cluster, pods, codec) <==> c.pod in pods && Qualifies(req, cluster, c, codec)
  {
    if pods != [] {
      CandidatesMembers(req, cluster, pods[..|pods| - 1], c, codec);
      assert pods == pods[..|pods| - 1] + [pods[|pods| - 1]];
    }
  }

  /** And no pod is a candidate twice. */
  lemma {:induction false} CandidatesAreDistinct(req: Request, cluster: Cluster, pods: seq<PodRef>, codec: Codec)
    requires forall i, j :: 0 <= i < j < |pods| ==> pods[i] != pods[j]
    ensures var cs := Candidates(req, cluster, pods, codec);
            forall i, j :: 0 <= i < j < |cs| ==> cs[i].pod != cs[j].pod
    decreases |pods|
  {
    if pods != [] {
      var n := |pods| - 1;
      CandidatesAreDistinct(req, cluster, pods[..n], codec);
      var prior := Candidates(req, cluster, pods[..n], codec);
      forall i | 0 <= i < |prior| ensures prior[i].pod != pods[n] {
        CandidatesMembers(req, cluster, pods[..n], prior[i], codec);
      }
    }
  }

  /** The victims: only eligible pods, and none scores above a candidate that is spared. */
  lemma VictimsAreLowest(req: Request, cluster: Cluster, pods: seq<PodRef>, cs: seq<Candidate>, k: nat, codec: Codec)
    requires multiset(cs) == multiset(Candidates(req, cluster, pods, codec)) && SortedBy(cs, ByScore())
    requires IsVictimCount(req, cs, k, codec)
    ensures k <= req.maxPods || k == 0
    ensures forall i, j :: 0 <= i < k <= j < |cs| ==> cs[i].score <= cs[j].score
    ensures forall i :: 0 <= i < |cs| ==> cs[i].pod in pods && Qualifies(req, cluster, cs[i], codec)
  {
    forall i | 0 <= i < |cs| ensures cs[i].pod in pods && Qualifies(req, cluster, cs[i], codec) {
      assert cs[i] in multiset(Candidates(req, cluster, pods, codec));
      CandidatesMembers(req, cluster, pods, cs[i], codec);
    }
    if k > 0 {
      assert !Stops(req, cs, k - 1, codec);
    }
    forall i, j | 0 <= i < k <= j < |cs| ensures cs[i].score <= cs[j].score {
      assert ByScore()(cs[i]) <= ByScore()(cs[j]);
    }
  }

  // ----- eviction and its accounting

  datatype Totals = Totals(cpu: int, memory: int, gpu: int, read: int, write: int, iops: int)

  const NOTHING := Totals(0, 0, 0, 0, 0, 0)

  function Plus(t: Totals, a: Amounts, codec: Codec): Totals {
    Totals(t.cpu + codec.readCpu(a.cpu), t.memory + codec.readMemory(a.memory), t.gpu + a.gpu,
           t.read + a.read, t.write + a.write, t.iops + a.iops)
  }

  /** The victims whose eviction succeeded. */
  function Evicted(victims: seq<Candidate>, ok: seq<bool>): seq<Candidate>
    requires |ok| == |victims|
  {
    if victims == [] then []
    else
      var n := |victims| - 1;
      Evicted(victims[..n], ok[..n]) + if ok[n] then [victims[n]] else []
  }

  /** What the controller adds up from the printed requests. */
  function Tally(cs: seq<Candidate>, codec: Codec): Totals {
    if cs == [] then NOTHING else Plus(Tally(cs[..|cs| - 1], codec), cs[|cs| - 1].requests, codec)
  }

  function Printed(t: Totals, codec: Codec): Amounts {
    Amounts(codec.printCpu(t.cpu), codec.printMemory(t.memory), t.gpu, t.read, t.write, t.iops)
  }

  datatype Status = Pending | Analyzing | Executing | Completed | Failed

  class PreemptionJob {
    const request: Request
    var status: Status
    var successful: nat
    var failed: nat
    var freed: Amounts
    var targetAchieved: bool

    constructor (request: Request)
      ensures this.request == request && status == Pending && successful == failed == 0 && !targetAchieved
    {
      this.request := request;
      status, successful, failed, freed, targetAchieved := Pending, 0, 0, Amounts("", "", 0, 0, 0, 0), false;
    }

    function FreedAmount(codec: Codec): int
      reads this
    {
      match request.resourceType
      case Cpu => codec.readCpu(freed.cpu)
      case Memory => codec.readMemory(freed.memory)
      case Gpu => freed.gpu
      case Storage => freed.read + freed.write
      case StorageIops => freed.iops
      case All => successful
    }
  }

  datatype Global = Global(cpu: string, memory: string, gpu: int)

  const START := Global("0m", "0Mi", 0)

  /** updateGlobalMetrics: the running totals live in printed form. */
  function AddJob(g: Global, t: Totals, codec: Codec): Global {
    Global(codec.printCpu(codec.readCpu(g.cpu) + t.cpu),
           codec.printMemory(codec.readMemory(g.memory) + t.memory), g.gpu + t.gpu)
  }

  class PreemptionController {
    var totalCPUFreed: string
    var totalMemoryFreed: string
    var totalGPUFreed: int
    var successfulPreemptions: nat
    var failedPreemptions: nat

    constructor ()
      ensures Metrics() == START && successfulPreemptions == failedPreemptions == 0
    {
      totalCPUFreed, totalMemoryFreed, totalGPUFreed := "0m", "0Mi", 0;
      successfulPreemptions, failedPreemptions := 0, 0;
    }

    function Metrics(): Global
      reads this
    {
      Global(totalCPUFreed, totalMemoryFreed, totalGPUFreed)
    }

    method UpdateGlobalMetrics(t: Totals, codec: Codec)
      modifies this`totalCPUFreed, this`totalMemoryFreed, this`totalGPUFreed
      ensures Metrics() == AddJob(old(Metrics()), t, codec)
    {
      var existingCPU, existingMemory := codec.readCpu(totalCPUFreed), codec.readMemory(totalMemoryFreed);
      totalCPUFreed := codec.printCpu(existingCPU + t.cpu);
      totalMemoryFreed := codec.printMemory(existingMemory + t.memory);
      totalGPUFreed := totalGPUFreed + t.gpu;
    }

    method ExecutePreemption(job: PreemptionJob, victims: seq<Candidate>, ok: seq<bool>, codec: Codec)
      requires |ok| == |victims|
      modifies this, job`successful, job`failed, job`freed
      ensures var gone := Evicted(victims, ok);
              && job.successful == old(job.successful) + |gone|
              && job.failed == old(job.failed) + |victims| - |gone|
              && job.freed == Printed(Tally(gone, codec), codec)
              && Metrics() == AddJob(old(Metrics()), Tally(gone, codec), codec)
              && successfulPreemptions == old(successfulPreemptions) + |gone|
              && failedPreemptions == old(failedPreemptions) + |victims| - |gone|
    {
      var totals := NOTHING;
      for i := 0 to |victims|
        invariant totals == Tally(Evicted(victims[..i], ok[..i]), codec)
        invariant job.successful == old(job.successful) + |Evicted(victims[..i], ok[..i])|
        invariant job.failed == old(job.failed) + i - |Evicted(victims[..i], ok[..i])|
        invariant successfulPreemptions == old(successfulPreemptions) + |Evicted(victims[..i], ok[..i])|
        invariant failedPreemptions == old(failedPreemptions) + i - |Evicted(victims[..i], ok[..i])|
        invariant Metrics() == old(Metrics())
      {
        EvictedExtend(victims, ok, i, codec);
        if ok[i] {
          totals := Plus(totals, victims[i].requests, codec);
          job.successful := job.successful + 1;
          successfulPreemptions := successfulPreemptions + 1;
        } else {
          job.failed := job.failed + 1;
          failedPreemptions := failedPreemptions + 1;
        }
      }
      assert victims[..|victims|] == victims && ok[..|ok|] == ok;
      job.freed := Printed(totals, codec);
      UpdateGlobalMetrics(totals, codec);
    }

    /** The eviction round and the verdict on the target. */
    method Preempt(job: PreemptionJob, victims: seq<Candidate>, evictable: PodRef -> bool, codec: Codec)
      requires job.successful == job.failed == 0
      modifies this, job
      ensures job.status == Completed && Outcome(job, victims, Gone(victims, evictable), codec)
      ensures Metrics() == AddJob(old(Metrics()), Tally(Gone(victims, evictable), codec), codec)
    {
      job.status := Executing;
      ExecutePreemption(job, victims, Fates(victims, evictable), codec);
      job.status := Completed;
      job.targetAchieved :=
        job.FreedAmount(codec) >= ParseResourceAmount(job.request.targetAmount, job.request.resourceType, codec);
    }

    /** runPreemption. The flag can only be set by an eviction round. */
    method RunPreemption(job: PreemptionJob, nodeReadable: bool, pods: Option<seq<PodRef>>, cluster: Cluster,
                         evictable: PodRef -> bool, codec: Codec)
      returns (victims: seq<Candidate>, ghost candidates: seq<Candidate>)
      requires job.status == Pending && job.successful == job.failed == 0 && !job.targetAchieved
      modifies this, job
      ensures job.status == (if nodeReadable && pods.Some? then Completed else Failed)
      ensures job.status == Failed ==> victims == [] && !job.targetAchieved && job.successful == job.failed == 0
      ensures job.status == Completed ==> Finished(job, cluster, pods.value, candidates, victims, evictable, codec)
      ensures Metrics() == AfterJob(old(Metrics()), victims, evictable, codec)
    {
      victims, candidates := [], [];
      job.status := Analyzing;
      if !nodeReadable || pods.None? {
        job.status := Failed;
        return;
      }
      var found := FindPreemptionCandidates(job.request, cluster, pods.value, codec);
      candidates := found[..];
      victims := SelectPodsToPreempt(job.request, found, codec);
      if |victims| == 0 {
        job.status := Completed;
        return;
      }
      Preempt(job, victims, evictable, codec);
    }
  }

  /** The victims are the shortest sufficient prefix of a sort of the eligible pods. */
  ghost predicate Selection(req: Request, cluster: Cluster, pods: seq<PodRef>, candidates: seq<Candidate>,
                            victims: seq<Candidate>, codec: Codec) {
    && multiset(candidates) == multiset(Candidates(req, cluster, pods, codec))
    && SortedBy(candidates, ByScore())
    && IsVictimCount(req, candidates, |victims|, codec)
    && forall i :: 0 <= i < |victims| ==> victims[i] == candidates[i].(selected := true)
  }

  function Fates(victims: seq<Candidate>, evictable: PodRef -> bool): (ok: seq<bool>)
    ensures |ok| == |victims|
  {
    seq(|victims|, i requires 0 <= i < |victims| => evictable(victims[i].pod))
  }

  function Gone(victims: seq<Candidate>, evictable: PodRef -> bool): seq<Candidate> {
    Evicted(victims, Fates(victims, evictable))
  }

  /** The victims gone are those that could be evicted, as often as they were selected. */
  lemma GoneExactly(victims: seq<Candidate>, evictable: PodRef -> bool, c: Candidate)
    ensures multiset(Gone(victims, evictable))[c] == if evictable(c.pod) then multiset(victims)[c] else 0
    decreases |victims|
  {
    if victims != [] {
      var n := |victims| - 1;
      GoneExactly(victims[..n], evictable, c);
      assert Fates(victims, evictable)[..n] == Fates(victims[..n], evictable);
      assert victims == victims[..n] + [victims[n]];
    }
  }

  ghost predicate Outcome(job: PreemptionJob, victims: seq<Candidate>, gone: seq<Candidate>, codec: Codec)
    reads job
  {
    && job.successful == |gone| && job.failed == |victims| - |gone|
    && (var t := Tally(gone, codec);
        job.freed == Amounts(codec.printCpu(t.cpu), codec.printMemory(t.memory), t.gpu, t.read, t.write, t.iops))
    && (job.targetAchieved <==> Reported(job.request.resourceType, gone, codec) >= Target(job.request, codec))
  }

  /** A completed job: it selected victims, and without any it stopped there. */
  ghost predicate Finished(job: PreemptionJob, cluster: Cluster, pods: seq<PodRef>, candidates: seq<Candidate>,
                           victims: seq<Candidate>, evictable: PodRef -> bool, codec: Codec)
    reads job
  {
    && job.status == Completed && Selection(job.request, cluster, pods, candidates, victims, codec)
    && (victims == [] ==> !job.targetAchieved && job.successful == job.failed == 0)
    && (victims != [] ==> Outcome(job, victims, Gone(victims, evictable), codec))
  }

  /** The global totals after a job. */
  function AfterJob(g: Global, victims: seq<Candidate>, evictable: PodRef -> bool, codec: Codec): Global {
    if victims == [] then g else AddJob(g, Tally(Gone(victims, evictable), codec), codec)
  }

  lemma EvictedExtend(victims: seq<Candidate>, ok: seq<bool>, i: nat, codec: Codec)
    requires |ok| == |victims| && i < |victims|
    ensures Evicted(victims[..i + 1], ok[..i + 1])
            == Evicted(victims[..i], ok[..i]) + (if ok[i] then [victims[i]] else [])
    ensures !ok[i] ==> Evicted(victims[..i + 1], ok[..i + 1]) == Evicted(victims[..i], ok[..i])
    ensures ok[i] ==> Tally(Evicted(victims[..i + 1], ok[..i + 1]), codec)
                      == Plus(Tally(Evicted(victims[..i], ok[..i]), codec), victims[i].requests, codec)
  {
    assert victims[..i + 1][..i] == victims[..i] && ok[..i + 1][..i] == ok[..i];
    var prior := Evicted(victims[..i], ok[..i]);
    assert (prior + [victims[i]])[..|prior|] == prior;
  }

  /** What the job reports as freed, after the totals were printed and read back. */
  function Reported(t: ResourceType, gone: seq<Candidate>, codec: Codec): int {
    var totals := Tally(gone, codec);
    match t
    case Cpu => codec.readCpu(codec.printCpu(totals.cpu))
    case Memory => codec.readMemory(codec.printMemory(totals.memory))
    case Gpu => totals.gpu
    case Storage => totals.read + totals.write
    case StorageIops => totals.iops
    case All => |gone|
  }
}
