/** The REST autoscaler (pkg/controller/autoscaling.go). */
module Autoscaling {
  import opened Options
  import opened Scaling

  /** Policies are optional; inside one, a field that is not positive means "not set". */
  datatype Policy = Policy(windowSeconds: Int32, maxScaleChange: Int32)

  datatype Request = Request(
    minReplicas: Int32, maxReplicas: Int32,
    targetCPU: int, targetMemory: int, targetGPU: int,
    targetStorageRead: int, targetStorageWrite: int, targetStorageIOPS: int,
    scaleUp: Option<Policy>, scaleDown: Option<Policy>)

  predicate Ranged(req: Request) {
    1 <= req.minReplicas <= req.maxReplicas
  }

  /** validateRequest, for the fields that scaling decisions use. */
  predicate Valid(req: Request) {
    && Ranged(req)
    && !(req.targetCPU == 0 && req.targetMemory == 0 && req.targetGPU == 0 &&
         req.targetStorageRead == 0 && req.targetStorageWrite == 0 && req.targetStorageIOPS == 0)
  }

  function UpWindow(req: Request): Int32 {
    if req.scaleUp.Some? && req.scaleUp.value.windowSeconds > 0 then req.scaleUp.value.windowSeconds else 0
  }

  function DownWindow(req: Request): Int32 {
    if req.scaleDown.Some? && req.scaleDown.value.windowSeconds > 0 then req.scaleDown.value.windowSeconds else 300
  }

  /** Zero stands for "no limit". */
  function StepLimit(policy: Option<Policy>): Int32 {
    if policy.Some? && policy.value.maxScaleChange > 0 then policy.value.maxScaleChange else 0
  }

  function Base(current: Count): Count {
    if current == 0 then 1 else current
  }

  function Offer(base: Count, util: int, target: int, fp: FloatUnit): seq<Int32> {
    if target > 0 && util > 0 then [Quotient(base, util, target, fp)] else []
  }

  function Offers(req: Request, base: Count, m: Metrics, fp: FloatUnit): seq<Int32> {
    Offer(base, m.cpu, req.targetCPU, fp)
    + Offer(base, m.memory, req.targetMemory, fp)
    + Offer(base, m.gpu, req.targetGPU, fp)
    + Offer(base, m.storageRead, req.targetStorageRead, fp)
    + Offer(base, m.storageWrite, req.targetStorageWrite, fp)
    + Offer(base, m.storageIOPS, req.targetStorageIOPS, fp)
  }

  /** The replica count the metrics alone ask for. */
  function Wanted(req: Request, current: Count, m: Metrics, fp: FloatUnit): Int32 {
    var offers := Offers(req, Base(current), m, fp);
    if offers == [] then Base(current) else MaxOf(offers)
  }

  function Clamp(req: Request, wanted: Int32): Int32 {
    var raised := if wanted < req.minReplicas then req.minReplicas else wanted;
    if raised > req.maxReplicas then req.maxReplicas else raised
  }

  /** Clamped to the range, then to one step from the base. */
  function Limit(req: Request, base: Count, wanted: Int32): Count
    requires Ranged(req)
  {
    var d := Clamp(req, wanted);
    var up, down := StepLimit(req.scaleUp), StepLimit(req.scaleDown);
    if d > base && up > 0 && d - base > up then base + up
    else if d < base && down > 0 && base - d > down then base - down
    else d
  }

  function Desired(req: Request, current: Count, m: Metrics, fp: FloatUnit): Count
    requires Ranged(req)
  {
    Limit(req, Base(current), Wanted(req, current, m, fp))
  }

  /** The new histories and the count to scale to. */
  ghost function Stabilize(req: Request, h: Histories, current: Count, desired: Count, now: int): (Histories, Count) {
    var rec := Recommendation(desired, now);
    if desired > current then
      var grown := h.up + [rec];
      var window := UpWindow(req);
      if window > 0 then
        var recent := Recent(grown, now - window * SECOND);
        (h.(up := recent), Pick(recent, desired))
      else (h.(up := grown), desired)
    else if desired < current then
      var recent := Recent(h.down + [rec], now - DownWindow(req) * SECOND);
      (h.(down := recent), Pick(recent, desired))
    else (NO_HISTORY, desired)
  }

  /** The scaled workload, as the Kubernetes API reports and changes it. */
  class Workload {
    var replicas: Count

    constructor (replicas: Count)
      ensures this.replicas == replicas
    {
      this.replicas := replicas;
    }
  }

  /** What one tick meets: a failed read, or a clock, metrics and the fate of a scale call. */
  datatype Event = Unreadable | Observed(now: int, metrics: Metrics, fp: FloatUnit, scaleOk: bool)

  datatype Loop = Loop(replicas: Count, histories: Histories)

  class AutoscalingJob {
    const request: Request
    var currentReplicas: Count
    var desiredReplicas: int
    var scaleUpCount: nat
    var scaleDownCount: nat
    var scaleUpHistory: seq<Recommendation>
    var scaleDownHistory: seq<Recommendation>

    function View(): Histories
      reads this
    {
      Histories(scaleUpHistory, scaleDownHistory)
    }

    constructor (request: Request)
      requires Valid(request)
      ensures this.request == request && View() == NO_HISTORY
      ensures scaleUpCount == scaleDownCount == 0
    {
      this.request := request;
      currentReplicas, desiredReplicas := 0, request.minReplicas;
      scaleUpCount, scaleDownCount := 0, 0;
      scaleUpHistory, scaleDownHistory := [], [];
    }

    method Recommendations(base: Count, m: Metrics, fp: FloatUnit) returns (offers: seq<Int32>)
      ensures offers == Offers(request, base, m, fp)
    {
      offers := Consider([], base, m.cpu, request.targetCPU, fp);
      assert offers == Offer(base, m.cpu, request.targetCPU, fp);
      offers := Consider(offers, base, m.memory, request.targetMemory, fp);
      offers := Consider(offers, base, m.gpu, request.targetGPU, fp);
      offers := Consider(offers, base, m.storageRead, request.targetStorageRead, fp);
      offers := Consider(offers, base, m.storageWrite, request.targetStorageWrite, fp);
      offers := Consider(offers, base, m.storageIOPS, request.targetStorageIOPS, fp);
    }

    method CalculateDesiredReplicas(m: Metrics, fp: FloatUnit) returns (desired: Count)
      requires Valid(request)
      ensures desired == Desired(request, currentReplicas, m, fp)
    {
      var current := currentReplicas;
      if current == 0 {
        current := 1;
      }
      var wanted: Int32 := current;
      var recommendations := Recommendations(current, m, fp);
      if |recommendations| > 0 {
        wanted := LargestOf(recommendations);
      }
      desired := Constrain(current, wanted);
    }

    method Constrain(current: Count, wanted: Int32) returns (desired: Count)
      requires Valid(request)
      ensures desired == Limit(request, current, wanted)
    {
      var clamped := wanted;
      if clamped < request.minReplicas {
        clamped := request.minReplicas;
      }
      if clamped > request.maxReplicas {
        clamped := request.maxReplicas;
      }
      desired := clamped;
      if request.scaleUp.Some? && request.scaleUp.value.maxScaleChange > 0 {
        if desired > current {
          var maxChange := request.scaleUp.value.maxScaleChange;
          if desired - current > maxChange {
            desired := current + maxChange;
          }
        }
      }
      if request.scaleDown.Some? && request.scaleDown.value.maxScaleChange > 0 {
        if desired < current {
          var maxChange := request.scaleDown.value.maxScaleChange;
          if current - desired > maxChange {
            desired := current - maxChange;
          }
        }
      }
    }

    method StabilizeUp(desired: Count, now: int) returns (stabilized: Count)
      modifies this`scaleUpHistory
      ensures var grown := old(scaleUpHistory) + [Recommendation(desired, now)];
              if UpWindow(request) > 0
              then && scaleUpHistory == Recent(grown, now - UpWindow(request) * SECOND)
                   && stabilized == Pick(scaleUpHistory, desired)
              else scaleUpHistory == grown && stabilized == desired
    {
      scaleUpHistory := scaleUpHistory + [Recommendation(desired, now)];
      var window: Int32 := 0;
      if request.scaleUp.Some? && request.scaleUp.value.windowSeconds > 0 {
        window := request.scaleUp.value.windowSeconds;
      }
      stabilized := desired;
      if window > 0 {
        scaleUpHistory := Prune(scaleUpHistory, now - window * SECOND);
        stabilized := PickHighest(scaleUpHistory, desired);
      }
    }

    method StabilizeDown(desired: Count, now: int) returns (stabilized: Count)
      modifies this`scaleDownHistory
      ensures scaleDownHistory ==
                Recent(old(scaleDownHistory) + [Recommendation(desired, now)], now - DownWindow(request) * SECOND)
      ensures stabilized == Pick(scaleDownHistory, desired)
    {
      scaleDownHistory := scaleDownHistory + [Recommendation(desired, now)];
      var window: Int32 := 300;
      if request.scaleDown.Some? && request.scaleDown.value.windowSeconds > 0 {
        window := request.scaleDown.value.windowSeconds;
      }
      scaleDownHistory := Prune(scaleDownHistory, now - window * SECOND);
      stabilized := PickHighest(scaleDownHistory, desired);
    }

    method ApplyStabilizationWindow(current: Count, desired: Count, now: int) returns (stabilized: Count)
      modifies this`scaleUpHistory, this`scaleDownHistory
      ensures View() == Stabilize(request, old(View()), current, desired, now).0
      ensures stabilized == Stabilize(request, old(View()), current, desired, now).1
    {
      if desired > current {
        stabilized := StabilizeUp(desired, now);
      } else if desired < current {
        stabilized := StabilizeDown(desired, now);
      } else {
        scaleUpHistory := [];
        scaleDownHistory := [];
        stabilized := desired;
      }
    }

    /** One turn of the loop in runAutoscaler, against the workload it scales. */
    method Tick(workload: Workload, e: Event)
      requires Valid(request)
      modifies this, workload
      ensures Loop(workload.replicas, View()) == Step(request, old(Loop(workload.replicas, View())), e)
      ensures e.Observed? ==> currentReplicas == old(workload.replicas)
      ensures scaleUpCount == old(scaleUpCount) + if workload.replicas > old(workload.replicas) then 1 else 0
      ensures scaleDownCount == old(scaleDownCount) + if workload.replicas < old(workload.replicas) then 1 else 0
      ensures desiredReplicas ==
                if workload.replicas != old(workload.replicas) then workload.replicas else old(desiredReplicas)
    {
      if e.Unreadable? {
        return;
      }
      var current := workload.replicas;
      currentReplicas := current;
      var desired := CalculateDesiredReplicas(e.metrics, e.fp);
      var stabilized := ApplyStabilizationWindow(current, desired, e.now);
      if stabilized != current && e.scaleOk {
        workload.replicas := stabilized;
        desiredReplicas := stabilized;
        if stabilized > current {
          scaleUpCount := scaleUpCount + 1;
        } else {
          scaleDownCount := scaleDownCount + 1;
        }
      }
    }
  }

  /** The controller as a closed loop: only its own scale calls change the replicas. */
  ghost function Step(req: Request, s: Loop, e: Event): Loop
    requires Ranged(req)
  {
    if e.Unreadable? then s
    else Scale(req, s, Desired(req, s.replicas, e.metrics, e.fp), e.now, e.scaleOk)
  }

  /** The part of a tick after the decision. */
  ghost function Scale(req: Request, s: Loop, desired: Count, now: int, scaleOk: bool): Loop {
    var (h, stabilized) := Stabilize(req, s.histories, s.replicas, desired, now);
    Loop(if scaleOk then stabilized else s.replicas, h)
  }

  method Consider(offers: seq<Int32>, base: Count, util: int, target: int, fp: FloatUnit) returns (more: seq<Int32>)
    ensures more == offers + Offer(base, util, target, fp)
  {
    more := offers;
    if target > 0 && util > 0 {
      more := more + [Quotient(base, util, target, fp)];
    }
  }
}
