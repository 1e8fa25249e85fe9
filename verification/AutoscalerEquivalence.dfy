/** The two autoscalers compared, decision by decision, over whole runs. */
module AutoscalerEquivalence {
  import opened Options
  import opened Arithmetic
  import opened Scaling
  import Rest = Autoscaling
  import Crd = StorageHpa

  function OrZero(x: Option<int>): int {
    if x.Some? then x.value else 0
  }

  function PolicyOf(p: Option<Crd.PolicySpec>): Option<Rest.Policy> {
    if p.None? then None
    else Some(Rest.Policy(OrZero(p.value.windowSeconds), OrZero(p.value.maxScaleChange)))
  }

  /** The REST request with the same settings: an absent field becomes zero. */
  function RestOf(spec: Crd.Spec): Rest.Request {
    Rest.Request(spec.minReplicas, spec.maxReplicas,
                 OrZero(spec.targetCPU), OrZero(spec.targetMemory), OrZero(spec.targetGPU),
                 OrZero(spec.targetStorageRead), OrZero(spec.targetStorageWrite), OrZero(spec.targetStorageIOPS),
                 PolicyOf(spec.scaleUp), PolicyOf(spec.scaleDown))
  }

  /** A scale-down window written out as zero, which the two controllers read differently. */
  predicate ExplicitZeroDownWindow(spec: Crd.Spec) {
    spec.scaleDown.Some? && spec.scaleDown.value.windowSeconds == Some(0)
  }

  /** What a tick observes; the workload may be changed by anyone between ticks. */
  datatype Observation = Observation(current: Count, metrics: Metrics, fp: FloatUnit, now: int)

  datatype Outcome = Outcome(desired: Count, histories: Histories, stabilized: Count)

  ghost function RestTick(req: Rest.Request, h: Histories, o: Observation): Outcome
    requires Rest.Ranged(req)
  {
    var d := Rest.Desired(req, o.current, o.metrics, o.fp);
    var (h', s) := Rest.Stabilize(req, h, o.current, d, o.now);
    Outcome(d, h', s)
  }

  ghost function CrdTick(spec: Crd.Spec, h: Histories, o: Observation): Outcome
    requires Crd.SchemaValid(spec)
  {
    var d := Crd.Desired(spec, o.current, o.metrics, o.fp);
    var (h', s) := Crd.Stabilize(spec, h, o.current, d, o.now);
    Outcome(d, h', s)
  }

  ghost function RestRun(req: Rest.Request, h: Histories, os: seq<Observation>): seq<Outcome>
    requires Rest.Ranged(req)
    decreases |os|
  {
    if os == [] then []
    else var out := RestTick(req, h, os[0]); [out] + RestRun(req, out.histories, os[1..])
  }

  ghost function CrdRun(spec: Crd.Spec, h: Histories, os: seq<Observation>): seq<Outcome>
    requires Crd.SchemaValid(spec)
    decreases |os|
  {
    if os == [] then []
    else var out := CrdTick(spec, h, os[0]); [out] + CrdRun(spec, out.histories, os[1..])
  }

  /** Settings both controllers accept. */
  ghost predicate Accepted(spec: Crd.Spec) {
    Crd.SchemaValid(spec) && Rest.Valid(RestOf(spec))
  }

  lemma OffersAgree(spec: Crd.Spec, base: Count, m: Metrics, fp: FloatUnit)
    requires Accepted(spec)
    ensures Rest.Offers(RestOf(spec), base, m, fp) == Crd.Offers(spec, base, m, fp)
  {
    OfferAgrees(base, m.cpu, spec.targetCPU, fp);
    OfferAgrees(base, m.memory, spec.targetMemory, fp);
    OfferAgrees(base, m.gpu, spec.targetGPU, fp);
    OfferAgrees(base, m.storageRead, spec.targetStorageRead, fp);
    OfferAgrees(base, m.storageWrite, spec.targetStorageWrite, fp);
    OfferAgrees(base, m.storageIOPS, spec.targetStorageIOPS, fp);
  }

  lemma OfferAgrees(base: Count, util: int, target: Option<int>, fp: FloatUnit)
    requires Crd.AtLeastOne(target)
    ensures Rest.Offer(base, util, OrZero(target), fp) == Crd.Offer(base, util, target, fp)
  {
  }

  lemma LimitAgrees(spec: Crd.Spec, base: Count, wanted: Int32)
    requires Accepted(spec)
    ensures Rest.Limit(RestOf(spec), base, wanted) == Crd.Limit(spec, base, wanted)
  {
  }

  /** The decision is the same for all accepted settings, zero window or not. */
  lemma DesiredAgrees(spec: Crd.Spec, current: Count, m: Metrics, fp: FloatUnit)
    requires Accepted(spec)
    ensures Rest.Desired(RestOf(spec), current, m, fp) == Crd.Desired(spec, current, m, fp)
  {
    var base := Rest.Base(current);
    OffersAgree(spec, base, m, fp);
    LimitAgrees(spec, base, Rest.Wanted(RestOf(spec), current, m, fp));
  }

  lemma StabilizeAgrees(spec: Crd.Spec, h: Histories, current: Count, d: Count, now: int)
    requires Accepted(spec) && (ExplicitZeroDownWindow(spec) ==> d >= current)
    ensures Rest.Stabilize(RestOf(spec), h, current, d, now) == Crd.Stabilize(spec, h, current, d, now)
  {
    assert Rest.UpWindow(RestOf(spec)) == Crd.UpWindow(spec);
    assert !ExplicitZeroDownWindow(spec) ==> Rest.DownWindow(RestOf(spec)) == Crd.DownWindow(spec);
  }

  /** Nothing can be scaled down: the only count in range is the largest there is. */
  predicate NeverDown(spec: Crd.Spec) {
    spec.minReplicas == spec.maxReplicas == MAX_INT32
  }

  lemma NeverDownMeans(spec: Crd.Spec, current: Count, m: Metrics, fp: FloatUnit)
    requires Accepted(spec) && NeverDown(spec)
    ensures Crd.Desired(spec, current, m, fp) >= current
  {
  }

  lemma {:induction false} RunsAgree(spec: Crd.Spec, h: Histories, os: seq<Observation>)
    requires Accepted(spec) && (!ExplicitZeroDownWindow(spec) || NeverDown(spec))
    ensures RestRun(RestOf(spec), h, os) == CrdRun(spec, h, os)
    decreases |os|
  {
    if os != [] {
      var o := os[0];
      DesiredAgrees(spec, o.current, o.metrics, o.fp);
      if NeverDown(spec) {
        NeverDownMeans(spec, o.current, o.metrics, o.fp);
      }
      StabilizeAgrees(spec, h, o.current, Crd.Desired(spec, o.current, o.metrics, o.fp), o.now);
      RunsAgree(spec, CrdTick(spec, h, o).histories, os[1..]);
    }
  }

  /** A scale-down tick for all other settings: one replica too many and no metrics, or, where no count
      is too many, quotients that overflow on a platform that then yields zero. */
  function Downward(spec: Crd.Spec): Observation {
    var none, full := Metrics(0, 0, 0, 0, 0, 0),
                      Metrics(MAX_INT32, MAX_INT32, MAX_INT32, MAX_INT32, MAX_INT32, MAX_INT32);
    if 0 <= spec.maxReplicas < MAX_INT32 then Observation(spec.maxReplicas + 1, none, (a, b, c) => 0, 0)
    else Observation(MAX_INT32, full, (a, b, c) => 0, 0)
  }

  lemma OverflowOffersNothing(target: Option<int>, fp: FloatUnit)
    requires Crd.AtLeastOne(target) && fp(MAX_INT32, MAX_INT32, OrZero(target)) == 0
    ensures Crd.Offer(MAX_INT32, MAX_INT32, target, fp) == if target.Some? then [0] else []
  {
    assert MAX_INT32 * MAX_INT32 > EXACT_FLOAT;
  }

  lemma OneTooManyIsDown(spec: Crd.Spec)
    requires Accepted(spec) && spec.maxReplicas < MAX_INT32
    ensures var o := Downward(spec); Crd.Desired(spec, o.current, o.metrics, o.fp) < o.current
  {
    var o := Downward(spec);
    assert Crd.Offers(spec, o.current, o.metrics, o.fp) == [];
  }

  predicate Zeros(xs: seq<Int32>) {
    forall x :: x in xs ==> x == 0
  }

  lemma SixZeros(a: seq<Int32>, b: seq<Int32>, c: seq<Int32>, d: seq<Int32>, e: seq<Int32>, f: seq<Int32>)
    requires Zeros(a) && Zeros(b) && Zeros(c) && Zeros(d) && Zeros(e) && Zeros(f)
    ensures Zeros(a + b + c + d + e + f)
    ensures |a + b + c + d + e + f| == |a| + |b| + |c| + |d| + |e| + |f|
  {
  }

  lemma OverflowOffersZeros(spec: Crd.Spec)
    requires Accepted(spec) && spec.maxReplicas == MAX_INT32
    ensures var o := Downward(spec); var offers := Crd.Offers(spec, o.current, o.metrics, o.fp);
            offers != [] && Zeros(offers)
  {
    var fp := Downward(spec).fp;
    OverflowOffersNothing(spec.targetCPU, fp);
    OverflowOffersNothing(spec.targetMemory, fp);
    OverflowOffersNothing(spec.targetGPU, fp);
    OverflowOffersNothing(spec.targetStorageRead, fp);
    OverflowOffersNothing(spec.targetStorageWrite, fp);
    OverflowOffersNothing(spec.targetStorageIOPS, fp);
    SixZeros(Crd.Offer(MAX_INT32, MAX_INT32, spec.targetCPU, fp),
             Crd.Offer(MAX_INT32, MAX_INT32, spec.targetMemory, fp),
             Crd.Offer(MAX_INT32, MAX_INT32, spec.targetGPU, fp),
             Crd.Offer(MAX_INT32, MAX_INT32, spec.targetStorageRead, fp),
             Crd.Offer(MAX_INT32, MAX_INT32, spec.targetStorageWrite, fp),
             Crd.Offer(MAX_INT32, MAX_INT32, spec.targetStorageIOPS, fp));
  }

  lemma OverflowIsDown(spec: Crd.Spec)
    requires Accepted(spec) && spec.minReplicas < spec.maxReplicas == MAX_INT32
    ensures var o := Downward(spec); Crd.Desired(spec, o.current, o.metrics, o.fp) < o.current
  {
    OverflowOffersZeros(spec);
    assert Crd.Limit(spec, MAX_INT32, 0) < MAX_INT32;
  }

  lemma DownwardIsDown(spec: Crd.Spec)
    requires Accepted(spec) && !NeverDown(spec)
    ensures var o := Downward(spec); Crd.Desired(spec, o.current, o.metrics, o.fp) < o.current
  {
    if spec.maxReplicas < MAX_INT32 {
      OneTooManyIsDown(spec);
    } else {
      OverflowIsDown(spec);
    }
  }

  /** Of one young recommendation a window keeps an entry, and a window of zero keeps none. */
  lemma OneEntry(rec: Recommendation, w: int)
    requires w >= 0
    ensures Entries(Recent([] + [rec], rec.timestamp - w)) == if w > 0 then {rec} else {}
  {
    RecentEntries([] + [rec], rec.timestamp - w);
    EntriesAppend([], rec);
  }

  lemma ZeroWindowDiffers(spec: Crd.Spec)
    requires Accepted(spec) && ExplicitZeroDownWindow(spec) && !NeverDown(spec)
    ensures RestTick(RestOf(spec), NO_HISTORY, Downward(spec)) != CrdTick(spec, NO_HISTORY, Downward(spec))
  {
    var o := Downward(spec);
    var d := Crd.Desired(spec, o.current, o.metrics, o.fp);
    DownwardIsDown(spec);
    DesiredAgrees(spec, o.current, o.metrics, o.fp);
    RestKeepsEntry(spec, o.current, d);
    CrdKeepsNothing(spec, o.current, d);
    assert Recommendation(d, 0) in Entries(RestTick(RestOf(spec), NO_HISTORY, o).histories.down);
  }

  lemma RestKeepsEntry(spec: Crd.Spec, current: Count, d: Count)
    requires ExplicitZeroDownWindow(spec) && d < current
    ensures Entries(Rest.Stabilize(RestOf(spec), NO_HISTORY, current, d, 0).0.down) == {Recommendation(d, 0)}
  {
    OneEntry(Recommendation(d, 0), 300 * SECOND);
  }

  lemma CrdKeepsNothing(spec: Crd.Spec, current: Count, d: Count)
    requires ExplicitZeroDownWindow(spec) && d < current
    ensures Entries(Crd.Stabilize(spec, NO_HISTORY, current, d, 0).0.down) == {}
  {
    OneEntry(Recommendation(d, 0), 0);
  }

  lemma RunsDiffer(spec: Crd.Spec)
    requires Accepted(spec) && ExplicitZeroDownWindow(spec) && !NeverDown(spec)
    ensures RestRun(RestOf(spec), NO_HISTORY, [Downward(spec)]) != CrdRun(spec, NO_HISTORY, [Downward(spec)])
  {
    ZeroWindowDiffers(spec);
    var os := [Downward(spec)];
    assert RestRun(RestOf(spec), NO_HISTORY, os)[0] == RestTick(RestOf(spec), NO_HISTORY, os[0]);
    assert CrdRun(spec, NO_HISTORY, os)[0] == CrdTick(spec, NO_HISTORY, os[0]);
  }

  /** The controllers make the same decisions, keep the same histories and answer the same, on every
      run, exactly when the scale-down window is not written out as zero, or nothing can be scaled down. */
  lemma EquivalentExactlyWhen(spec: Crd.Spec)
    requires Accepted(spec)
    ensures (forall os: seq<Observation> :: RestRun(RestOf(spec), NO_HISTORY, os) == CrdRun(spec, NO_HISTORY, os))
            <==> !ExplicitZeroDownWindow(spec) || NeverDown(spec)
  {
    if ExplicitZeroDownWindow(spec) && !NeverDown(spec) {
      RunsDiffer(spec);
    } else {
      forall os: seq<Observation> ensures RestRun(RestOf(spec), NO_HISTORY, os) == CrdRun(spec, NO_HISTORY, os) {
        RunsAgree(spec, NO_HISTORY, os);
      }
    }
  }
}
