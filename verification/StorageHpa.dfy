/** The CRD autoscaler (pkg/controller/storagehpa_controller.go), written separately in the source. */
module StorageHpa {
  import opened Options
  import opened Scaling
  import Autoscaling

  datatype PolicySpec = PolicySpec(windowSeconds: Option<Int32>, maxScaleChange: Option<Int32>)

  datatype Spec = Spec(
    minReplicas: Int32, maxReplicas: Int32,
    targetCPU: Option<int>, targetMemory: Option<int>, targetGPU: Option<int>,
    targetStorageRead: Option<int>, targetStorageWrite: Option<int>, targetStorageIOPS: Option<int>,
    scaleUp: Option<PolicySpec>, scaleDown: Option<PolicySpec>)

  predicate AtLeastOne(x: Option<int>) {
    x.Some? ==> x.value >= 1
  }

  predicate PolicyValid(p: Option<PolicySpec>) {
    p.Some? ==>
      && (p.value.windowSeconds.Some? ==> 0 <= p.value.windowSeconds.value <= 3600)
      && AtLeastOne(p.value.maxScaleChange)
  }

  /** What the CRD schema enforces; unlike the REST request, Max may be below Min. */
  predicate SchemaValid(spec: Spec) {
    && 1 <= spec.minReplicas && 1 <= spec.maxReplicas
    && AtLeastOne(spec.targetCPU) && AtLeastOne(spec.targetMemory) && AtLeastOne(spec.targetGPU)
    && AtLeastOne(spec.targetStorageRead) && AtLeastOne(spec.targetStorageWrite) && AtLeastOne(spec.targetStorageIOPS)
    && PolicyValid(spec.scaleUp) && PolicyValid(spec.scaleDown)
  }

  function UpWindow(spec: Spec): Int32 {
    if spec.scaleUp.Some? && spec.scaleUp.value.windowSeconds.Some? then spec.scaleUp.value.windowSeconds.value else 0
  }

  function DownWindow(spec: Spec): Int32 {
    if spec.scaleDown.Some? && spec.scaleDown.value.windowSeconds.Some?
    then spec.scaleDown.value.windowSeconds.value else 300
  }

  function StepLimit(policy: Option<PolicySpec>): Int32 {
    if policy.Some? && policy.value.maxScaleChange.Some? then policy.value.maxScaleChange.value else 0
  }

  function Offer(base: Count, util: int, target: Option<int>, fp: FloatUnit): seq<Int32> {
    if target.Some? && util > 0 then [Quotient(base, util, target.value, fp)] else []
  }

  function Offers(spec: Spec, base: Count, m: Metrics, fp: FloatUnit): seq<Int32> {
    Offer(base, m.cpu, spec.targetCPU, fp)
    + Offer(base, m.memory, spec.targetMemory, fp)
    + Offer(base, m.gpu, spec.targetGPU, fp)
    + Offer(base, m.storageRead, spec.targetStorageRead, fp)
    + Offer(base, m.storageWrite, spec.targetStorageWrite, fp)
    + Offer(base, m.storageIOPS, spec.targetStorageIOPS, fp)
  }

  function Limit(spec: Spec, base: Count, wanted: Int32): Count
    requires SchemaValid(spec)
  {
    var raised := if wanted < spec.minReplicas then spec.minReplicas else wanted;
    var d := if raised > spec.maxReplicas then spec.maxReplicas else raised;
    if d > base then
      var most := StepLimit(spec.scaleUp);
      if most > 0 && d - base > most then base + most else d
    else if d < base then
      var most := StepLimit(spec.scaleDown);
      if most > 0 && base - d > most then base - most else d
    else d
  }

  function Desired(spec: Spec, current: Count, m: Metrics, fp: FloatUnit): Count
    requires SchemaValid(spec)
  {
    var base := if current == 0 then 1 else current;
    var offers := Offers(spec, base, m, fp);
    Limit(spec, base, if offers == [] then base else MaxOf(offers))
  }

  ghost function Stabilize(spec: Spec, h: Histories, current: Count, desired: Count, now: int): (Histories, Count) {
    var rec := Recommendation(desired, now);
    if desired > current then
      if UpWindow(spec) > 0 then
        var recent := Recent(h.up + [rec], now - UpWindow(spec) * SECOND);
        (h.(up := recent), Pick(recent, desired))
      else (h.(up := h.up + [rec]), desired)
    else if desired < current then
      var recent := Recent(h.down + [rec], now - DownWindow(spec) * SECOND);
      (h.(down := recent), Pick(recent, desired))
    else (NO_HISTORY, desired)
  }

  /** What one reconcile meets; a failed read of the resource other than not-found is retried.
      Metrics are the simulated ones when the real ones cannot be read. */
  datatype Event =
    | Missing
    | GetFailed
    | Unreadable(statusOk: bool)
    | Observed(now: int, metrics: Metrics, fp: FloatUnit, scaleOk: bool, statusOk: bool)

  /** The reconciler as a closed loop: only its own scale calls change the replicas. */
  ghost function Step(spec: Spec, s: Autoscaling.Loop, e: Event): Autoscaling.Loop
    requires SchemaValid(spec)
  {
    if !e.Observed? then s
    else Scale(spec, s, Desired(spec, s.replicas, e.metrics, e.fp), e.now, e.scaleOk)
  }

  ghost function Scale(spec: Spec, s: Autoscaling.Loop, desired: Count, now: int, scaleOk: bool): Autoscaling.Loop {
    var (h, stabilized) := Stabilize(spec, s.histories, s.replicas, desired, now);
    Autoscaling.Loop(if scaleOk then stabilized else s.replicas, h)
  }

  datatype Requeue = Never | After(seconds: nat) | WithError

  datatype Phase = Active | Failed

  datatype Status = StatusOf(phase: Phase, current: Count, desired: Count, ups: nat, downs: nat)

  /** What a reconcile stores: nothing when the status update fails or the resource was not read; a failure
      when replicas could not be read or scaled; otherwise the counts, each change of direction counted once. */
  ghost predicate Reported(hpa: Resource, was: Status, e: Event, current: Count, stabilized: Count, after: Count)
    reads hpa
  {
    match e
    case Missing => hpa.Status() == was
    case GetFailed => hpa.Status() == was
    case Unreadable(statusOk) => hpa.Status() == if statusOk then was.(phase := Failed) else was
    case Observed(_, _, _, scaleOk, statusOk) =>
      hpa.Status() ==
        if !statusOk then was
        else if !scaleOk && stabilized != current then was.(phase := Failed)
        else StatusOf(Active, current, stabilized, was.ups + (if after > current then 1 else 0),
                    was.downs + (if after < current then 1 else 0))
  }

  /** The stored StorageHPA resource. */
  class Resource {
    const key: string
    var spec: Spec  // edited by its owner between reconciles
    var phase: Phase
    var currentReplicas: Count
    var desiredReplicas: Count
    var scaleUpCount: nat
    var scaleDownCount: nat

    function Status(): Status
      reads this
    {
      StatusOf(phase, currentReplicas, desiredReplicas, scaleUpCount, scaleDownCount)
    }

    constructor (key: string, spec: Spec)
      ensures this.key == key && this.spec == spec
    {
      this.key, this.spec := key, spec;
      phase, currentReplicas, desiredReplicas, scaleUpCount, scaleDownCount := Active, 0, 0, 0, 0;
    }
  }

  class Reconciler {
    var scaleHistory: map<string, Histories>

    constructor ()
      ensures scaleHistory == map[]
    {
      scaleHistory := map[];
    }

    function HistoryOf(key: string): Histories
      reads this
    {
      if key in scaleHistory then scaleHistory[key] else NO_HISTORY
    }

    method Consider(offers: seq<Int32>, base: Count, util: int, target: Option<int>, fp: FloatUnit)
      returns (more: seq<Int32>)
      ensures more == offers + Offer(base, util, target, fp)
    {
      more := offers;
      if target.Some? && util > 0 {
        more := more + [Quotient(base, util, target.value, fp)];
      }
    }

    method Recommendations(spec: Spec, base: Count, m: Metrics, fp: FloatUnit) returns (offers: seq<Int32>)
      ensures offers == Offers(spec, base, m, fp)
    {
      offers := Consider([], base, m.cpu, spec.targetCPU, fp);
      assert offers == Offer(base, m.cpu, spec.targetCPU, fp);
      offers := Consider(offers, base, m.memory, spec.targetMemory, fp);
      offers := Consider(offers, base, m.gpu, spec.targetGPU, fp);
      offers := Consider(offers, base, m.storageRead, spec.targetStorageRead, fp);
      offers := Consider(offers, base, m.storageWrite, spec.targetStorageWrite, fp);
      offers := Consider(offers, base, m.storageIOPS, spec.targetStorageIOPS, fp);
    }

    method CalculateDesiredReplicas(spec: Spec, replicas: Count, m: Metrics, fp: FloatUnit) returns (desired: Count)
      requires SchemaValid(spec)
      ensures desired == Desired(spec, replicas, m, fp)
    {
      var current := replicas;
      if current == 0 {
        current := 1;
      }
      var recommendations := Recommendations(spec, current, m, fp);
      var wanted: Int32 := current;
      if |recommendations| > 0 {
        wanted := LargestOf(recommendations);
      }
      if wanted < spec.minReplicas {
        wanted := spec.minReplicas;
      }
      if wanted > spec.maxReplicas {
        wanted := spec.maxReplicas;
      }
      desired := wanted;
      if desired > current {
        var maxChange := StepLimit(spec.scaleUp);
        if maxChange > 0 && desired - current > maxChange {
          desired := current + maxChange;
        }
      } else if desired < current {
        var maxChange := StepLimit(spec.scaleDown);
        if maxChange > 0 && current - desired > maxChange {
          desired := current - maxChange;
        }
      }
    }

    method StabilizeUp(spec: Spec, given: seq<Recommendation>, desired: Count, now: int)
      returns (kept: seq<Recommendation>, stabilized: Count)
      ensures if UpWindow(spec) > 0
              then && kept == Recent(given + [Recommendation(desired, now)], now - UpWindow(spec) * SECOND)
                   && stabilized == Pick(kept, desired)
              else kept == given + [Recommendation(desired, now)] && stabilized == desired
    {
      kept, stabilized := given + [Recommendation(desired, now)], desired;
      var window := UpWindow(spec);
      if window > 0 {
        kept := Prune(kept, now - window * SECOND);
        stabilized := PickHighest(kept, desired);
      }
    }

    method StabilizeDown(spec: Spec, given: seq<Recommendation>, desired: Count, now: int)
      returns (kept: seq<Recommendation>, stabilized: Count)
      ensures kept == Recent(given + [Recommendation(desired, now)], now - DownWindow(spec) * SECOND)
      ensures stabilized == Pick(kept, desired)
    {
      kept := Prune(given + [Recommendation(desired, now)], now - DownWindow(spec) * SECOND);
      stabilized := PickHighest(kept, desired);
    }

    method StabilizeHistories(spec: Spec, given: Histories, current: Count, desired: Count, now: int)
      returns (history: Histories, stabilized: Count)
      ensures history == Stabilize(spec, given, current, desired, now).0
      ensures stabilized == Stabilize(spec, given, current, desired, now).1
    {
      if desired > current {
        var kept;
        kept, stabilized := StabilizeUp(spec, given.up, desired, now);
        history := given.(up := kept);
      } else if desired < current {
        var kept;
        kept, stabilized := StabilizeDown(spec, given.down, desired, now);
        history := given.(down := kept);
      } else {
        history, stabilized := NO_HISTORY, desired;
      }
    }

    method ApplyStabilizationWindow(spec: Spec, key: string, current: Count, desired: Count, now: int)
      returns (stabilized: Count)
      requires key in scaleHistory
      modifies this
      ensures scaleHistory == old(scaleHistory)[key := Stabilize(spec, old(scaleHistory[key]), current, desired, now).0]
      ensures stabilized == Stabilize(spec, old(scaleHistory[key]), current, desired, now).1
    {
      var history;
      history, stabilized := StabilizeHistories(spec, scaleHistory[key], current, desired, now);
      scaleHistory := scaleHistory[key := history];
    }

    /** One reconcile. The status is stored only when its update succeeds; other resources'
        histories are untouched. */
    method Reconcile(hpa: Resource, workload: Autoscaling.Workload, e: Event) returns (requeue: Requeue)
      requires SchemaValid(hpa.spec)
      modifies this, hpa, workload
      ensures hpa.spec == old(hpa.spec)
      ensures Autoscaling.Loop(workload.replicas, HistoryOf(hpa.key)) ==
                Step(hpa.spec, old(Autoscaling.Loop(workload.replicas, HistoryOf(hpa.key))), e)
      ensures forall key :: key != hpa.key ==> (key in scaleHistory <==> key in old(scaleHistory))
      ensures forall key :: key != hpa.key && key in scaleHistory ==> scaleHistory[key] == old(scaleHistory)[key]
      ensures e.Missing? || e.GetFailed? ==> scaleHistory == old(scaleHistory)
      ensures e.Missing? ==> requeue == Never
      ensures e.GetFailed? || (!e.Missing? && !e.statusOk) ==> requeue == WithError
      ensures e.Unreadable? && e.statusOk ==> requeue == After(30)
      ensures !e.Observed? ==> Reported(hpa, old(hpa.Status()), e, 0, 0, 0)
      ensures e.Observed? ==>
                var current := old(workload.replicas);
                var s := Stabilize(hpa.spec, old(HistoryOf(hpa.key)), current,
                                   Desired(hpa.spec, current, e.metrics, e.fp), e.now).1;
                && (e.statusOk ==> requeue == After(if e.scaleOk || s == current then 15 else 30))
                && Reported(hpa, old(hpa.Status()), e, current, s, workload.replicas)
    {
      if e.Missing? {
        return Never;
      }
      if e.GetFailed? {
        return WithError;
      }
      var key := hpa.key;
      if key !in scaleHistory {
        scaleHistory := scaleHistory[key := NO_HISTORY];
      }
      if e.Unreadable? {
        requeue := UpdateStatusFailed(hpa, e.statusOk);
        return;
      }
      var desired := CalculateDesiredReplicas(hpa.spec, workload.replicas, e.metrics, e.fp);
      var stabilized := ApplyStabilizationWindow(hpa.spec, key, workload.replicas, desired, e.now);
      requeue := ScaleAndReport(hpa, workload, stabilized, e);
    }

    method ScaleAndReport(hpa: Resource, workload: Autoscaling.Workload, stabilized: Count, e: Event)
      returns (requeue: Requeue)
      requires e.Observed?
      modifies hpa, workload
      ensures hpa.spec == old(hpa.spec)
      ensures workload.replicas == if e.scaleOk then stabilized else old(workload.replicas)
      ensures requeue ==
                if !e.statusOk then WithError
                else After(if e.scaleOk || stabilized == old(workload.replicas) then 15 else 30)
      ensures Reported(hpa, old(hpa.Status()), e, old(workload.replicas), stabilized, workload.replicas)
    {
      var current, scaled := workload.replicas, false;
      if stabilized != current {
        if !e.scaleOk {
          requeue := UpdateStatusFailed(hpa, e.statusOk);
          return;
        }
        workload.replicas := stabilized;
        scaled := true;
      }
      if !e.statusOk {
        return WithError;
      }
      hpa.phase, hpa.currentReplicas, hpa.desiredReplicas := Active, current, stabilized;
      if scaled {
        if stabilized > current {
          hpa.scaleUpCount := hpa.scaleUpCount + 1;
        } else {
          hpa.scaleDownCount := hpa.scaleDownCount + 1;
        }
      }
      requeue := After(15);
    }

    method UpdateStatusFailed(hpa: Resource, statusOk: bool) returns (requeue: Requeue)
      modifies hpa`phase
      ensures hpa.Status() == old(hpa.Status()).(phase := if statusOk then Failed else old(hpa.phase))
      ensures hpa.phase == if statusOk then Failed else old(hpa.phase)
      ensures requeue == if statusOk then After(30) else WithError
    {
      if !statusOk {
        return WithError;
      }
      hpa.phase := Failed;
      requeue := After(30);
    }
  }
}
