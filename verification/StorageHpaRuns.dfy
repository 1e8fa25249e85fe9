/** What the CRD autoscaler guarantees over whole runs, for every spec its schema admits: with or without
    targets, with Max below Min, and with an explicit zero window. */
module StorageHpaRuns {
  import opened Options
  import opened Scaling
  import opened AutoscalerEquivalence
  import Rest = Autoscaling
  import Crd = StorageHpa
  import Runs = AutoscalerRuns

  /** The REST request that decides alike. Where Max is below Min, Max alone counts. */
  function Counterpart(spec: Crd.Spec): (req: Rest.Request) {
    var low := if spec.maxReplicas < spec.minReplicas then spec.maxReplicas else spec.minReplicas;
    RestOf(spec).(minReplicas := low)
  }

  lemma CounterpartOffers(spec: Crd.Spec, base: Count, m: Metrics, fp: FloatUnit)
    requires Crd.SchemaValid(spec)
    ensures Rest.Offers(Counterpart(spec), base, m, fp) == Crd.Offers(spec, base, m, fp)
  {
    OfferAgrees(base, m.cpu, spec.targetCPU, fp);
    OfferAgrees(base, m.memory, spec.targetMemory, fp);
    OfferAgrees(base, m.gpu, spec.targetGPU, fp);
    OfferAgrees(base, m.storageRead, spec.targetStorageRead, fp);
    OfferAgrees(base, m.storageWrite, spec.targetStorageWrite, fp);
    OfferAgrees(base, m.storageIOPS, spec.targetStorageIOPS, fp);
  }

  lemma CounterpartDecides(spec: Crd.Spec, current: Count, m: Metrics, fp: FloatUnit)
    requires Crd.SchemaValid(spec)
    ensures Rest.Desired(Counterpart(spec), current, m, fp) == Crd.Desired(spec, current, m, fp)
  {
    CounterpartOffers(spec, Rest.Base(current), m, fp);
    CounterpartLimits(spec, Rest.Base(current), Rest.Wanted(Counterpart(spec), current, m, fp));
  }

  lemma CounterpartLimits(spec: Crd.Spec, base: Count, wanted: Int32)
    requires Crd.SchemaValid(spec)
    ensures Rest.Limit(Counterpart(spec), base, wanted) == Crd.Limit(spec, base, wanted)
  {
  }

  lemma CounterpartStabilizes(spec: Crd.Spec, h: Histories, current: Count, d: Count, now: int)
    requires Crd.SchemaValid(spec) && (ExplicitZeroDownWindow(spec) ==> d >= current)
    ensures Rest.Stabilize(Counterpart(spec), h, current, d, now) == Crd.Stabilize(spec, h, current, d, now)
  {
    assert Rest.UpWindow(Counterpart(spec)) == Crd.UpWindow(spec);
    assert !ExplicitZeroDownWindow(spec) ==> Rest.DownWindow(Counterpart(spec)) == Crd.DownWindow(spec);
  }

  /** With an explicit zero window the scale-down history is always empty. */
  ghost predicate Inv(spec: Crd.Spec, s: Rest.Loop) {
    && Runs.Inv(Counterpart(spec), s)
    && (ExplicitZeroDownWindow(spec) ==> s.histories.down == [])
  }

  lemma ScaleSafety(spec: Crd.Spec, s: Rest.Loop, d: Count, now: int, scaleOk: bool)
    requires Crd.SchemaValid(spec) && Inv(spec, s) && Runs.Bounded(Counterpart(spec), s.replicas, d)
    ensures var t := Crd.Scale(spec, s, d, now, scaleOk);
            Inv(spec, t) && Runs.SafeScale(Counterpart(spec), s, d, scaleOk, t)
  {
    if ExplicitZeroDownWindow(spec) && d < s.replicas {
      ZeroWindowSafety(spec, s, d, now, scaleOk);
    } else {
      CounterpartStabilizes(spec, s.histories, s.replicas, d, now);
      Runs.ScaleSafety(Counterpart(spec), s, d, now, scaleOk);
    }
  }

  /** Without a window a scale-down goes straight to the decision and leaves no entry behind. */
  lemma ZeroWindowSafety(spec: Crd.Spec, s: Rest.Loop, d: Count, now: int, scaleOk: bool)
    requires Crd.SchemaValid(spec) && Inv(spec, s) && Runs.Bounded(Counterpart(spec), s.replicas, d)
    requires ExplicitZeroDownWindow(spec) && d < s.replicas
    ensures var t := Crd.Scale(spec, s, d, now, scaleOk);
            Inv(spec, t) && Runs.SafeScale(Counterpart(spec), s, d, scaleOk, t)
    ensures scaleOk ==> Crd.Scale(spec, s, d, now, scaleOk).replicas == d
  {
    var rec := Recommendation(d, now);
    assert s.histories.down + [rec] == [rec];
    assert Recent([rec], now) == [];
  }

  /** Every reconcile from a state that satisfies the invariant is safe, and keeps the invariant. */
  lemma TickSafety(spec: Crd.Spec, s: Rest.Loop, e: Crd.Event)
    requires Crd.SchemaValid(spec) && Inv(spec, s)
    ensures var t := Crd.Step(spec, s, e);
            && Inv(spec, t)
            && (!e.Observed? ==> t == s)
            && (e.Observed? ==>
                  Runs.SafeScale(Counterpart(spec), s, Crd.Desired(spec, s.replicas, e.metrics, e.fp), e.scaleOk, t))
  {
    if e.Observed? {
      var d := Crd.Desired(spec, s.replicas, e.metrics, e.fp);
      CounterpartDecides(spec, s.replicas, e.metrics, e.fp);
      Runs.LimitBounds(Counterpart(spec), s.replicas, Rest.Wanted(Counterpart(spec), s.replicas, e.metrics, e.fp));
      ScaleSafety(spec, s, d, e.now, e.scaleOk);
    }
  }

  ghost function Run(spec: Crd.Spec, s: Rest.Loop, es: seq<Crd.Event>): Rest.Loop
    requires Crd.SchemaValid(spec)
    decreases |es|
  {
    if es == [] then s else Run(spec, Crd.Step(spec, s, es[0]), es[1..])
  }

  lemma {:induction false} RunKeeps(spec: Crd.Spec, s: Rest.Loop, es: seq<Crd.Event>)
    requires Crd.SchemaValid(spec) && Inv(spec, s)
    ensures Inv(spec, Run(spec, s, es))
    ensures Runs.InRange(Counterpart(spec), s.replicas) ==> Runs.InRange(Counterpart(spec), Run(spec, s, es).replicas)
    decreases |es|
  {
    if es != [] {
      TickSafety(spec, s, es[0]);
      RunKeeps(spec, Crd.Step(spec, s, es[0]), es[1..]);
    }
  }

  /** In every reachable state the invariant holds, so TickSafety applies to every reconcile of every run;
      and a workload that starts in the range the spec admits stays there. */
  lemma {:induction false} RunSafety(spec: Crd.Spec, replicas: Count, es: seq<Crd.Event>)
    requires Crd.SchemaValid(spec)
    ensures var s := Run(spec, Rest.Loop(replicas, NO_HISTORY), es);
            && Inv(spec, s)
            && (Runs.InRange(Counterpart(spec), replicas) ==> Runs.InRange(Counterpart(spec), s.replicas))
  {
    RunKeeps(spec, Rest.Loop(replicas, NO_HISTORY), es);
  }

  // ----- liveness

  /** What the REST autoscaler would meet in the same place. */
  function Tick(e: Crd.Event): Rest.Event {
    if e.Observed? then Rest.Observed(e.now, e.metrics, e.fp, e.scaleOk) else Rest.Unreadable
  }

  function Ticks(es: seq<Crd.Event>): (ts: seq<Rest.Event>)
    ensures |ts| == |es|
  {
    if es == [] then [] else [Tick(es[0])] + Ticks(es[1..])
  }

  lemma StepsAlike(spec: Crd.Spec, s: Rest.Loop, e: Crd.Event)
    requires Crd.SchemaValid(spec) && !ExplicitZeroDownWindow(spec)
    ensures Crd.Step(spec, s, e) == Rest.Step(Counterpart(spec), s, Tick(e))
  {
    if e.Observed? {
      CounterpartDecides(spec, s.replicas, e.metrics, e.fp);
      var d := Crd.Desired(spec, s.replicas, e.metrics, e.fp);
      CounterpartStabilizes(spec, s.histories, s.replicas, d, e.now);
    }
  }

  lemma {:induction false} RunsAlike(spec: Crd.Spec, s: Rest.Loop, es: seq<Crd.Event>)
    requires Crd.SchemaValid(spec) && !ExplicitZeroDownWindow(spec)
    ensures Run(spec, s, es) == Runs.Run(Counterpart(spec), s, Ticks(es))
    decreases |es|
  {
    if es != [] {
      StepsAlike(spec, s, es[0]);
      assert Ticks(es)[0] == Tick(es[0]) && Ticks(es)[1..] == Ticks(es[1..]);
      RunsAlike(spec, Crd.Step(spec, s, es[0]), es[1..]);
    }
  }

  /** Without a window every successful reconcile outside the range helps. */
  lemma ZeroWindowStep(spec: Crd.Spec, s: Rest.Loop, e: Crd.Event)
    requires Crd.SchemaValid(spec) && Inv(spec, s) && ExplicitZeroDownWindow(spec)
    ensures var x, y := Runs.Excess(Counterpart(spec), s.replicas),
                        Runs.Excess(Counterpart(spec), Crd.Step(spec, s, e).replicas);
            Inv(spec, Crd.Step(spec, s, e)) && y <= x && (Runs.Succeeds(Tick(e)) ==> y <= Runs.Less(x, 1))
  {
    TickSafety(spec, s, e);
    if e.Observed? && e.scaleOk && s.replicas > spec.maxReplicas {
      var d := Crd.Desired(spec, s.replicas, e.metrics, e.fp);
      CounterpartDecides(spec, s.replicas, e.metrics, e.fp);
      Runs.LimitBounds(Counterpart(spec), s.replicas, Rest.Wanted(Counterpart(spec), s.replicas, e.metrics, e.fp));
      ZeroWindowSafety(spec, s, d, e.now, true);
    }
  }

  lemma {:induction false} ZeroWindowConverges(spec: Crd.Spec, s: Rest.Loop, es: seq<Crd.Event>, t0: int)
    requires Crd.SchemaValid(spec) && Inv(spec, s) && ExplicitZeroDownWindow(spec)
    ensures Runs.Excess(Counterpart(spec), Run(spec, s, es).replicas)
            <= Runs.Less(Runs.Excess(Counterpart(spec), s.replicas), Runs.Windows(Ticks(es), t0, 0))
    decreases |es|
  {
    if es != [] {
      ZeroWindowStep(spec, s, es[0]);
      assert Ticks(es)[0] == Tick(es[0]) && Ticks(es)[1..] == Ticks(es[1..]);
      var closes := Runs.Succeeds(Tick(es[0])) && es[0].now >= t0;
      ZeroWindowConverges(spec, Crd.Step(spec, s, es[0]), es[1..], if closes then es[0].now else t0);
    }
  }

  /** Liveness, for every spec the schema admits, at any spacing of the reconciles and with any failures in
      between: the distance to the range falls by at least one per scale-down window closed by a successful
      reconcile; with a window of zero that is every successful one. */
  lemma {:induction false} Convergence(spec: Crd.Spec, s: Rest.Loop, es: seq<Crd.Event>, t0: int)
    requires Crd.SchemaValid(spec) && Inv(spec, s)
    requires Runs.StampedBy(s.histories.down, t0) && Runs.ClockFrom(Ticks(es), t0)
    ensures Runs.Excess(Counterpart(spec), Run(spec, s, es).replicas)
            <= Runs.Less(Runs.Excess(Counterpart(spec), s.replicas),
                         Runs.Windows(Ticks(es), t0, Crd.DownWindow(spec) * SECOND))
  {
    if ExplicitZeroDownWindow(spec) {
      ZeroWindowConverges(spec, s, es, t0);
    } else {
      RunsAlike(spec, s, es);
      Runs.Convergence(Counterpart(spec), s, Ticks(es), t0);
    }
  }

  // ----- runs in which the resource is edited

  /** A reconcile under the spec stored by then. A resource deleted and created again is one with another
      spec: the reconciler keeps the histories by name and never drops them. */
  datatype Visit = Visit(spec: Crd.Spec, event: Crd.Event)

  ghost predicate AllValid(vs: seq<Visit>) {
    forall i :: 0 <= i < |vs| ==> Crd.SchemaValid(vs[i].spec)
  }

  ghost predicate ClockFrom(vs: seq<Visit>, t: int)
    decreases |vs|
  {
    vs != [] ==>
      var e := vs[0].event; if e.Observed? then t <= e.now && ClockFrom(vs[1..], e.now) else ClockFrom(vs[1..], t)
  }

  /** What holds whatever the spec was before: no scale-down entry exceeds the replicas, or is from later. */
  ghost predicate Steady(s: Rest.Loop, t: int) {
    (forall r :: r in Entries(s.histories.down) ==> r.replicas <= s.replicas) && Runs.StampedBy(s.histories.down, t)
  }

  /** A scale-up entry that still counts lies above the Max of now. */
  ghost predicate Overhang(spec: Crd.Spec, h: Histories, now: int) {
    && Crd.UpWindow(spec) > 0
    && exists r :: r in Entries(h.up) && r.timestamp > now - Crd.UpWindow(spec) * SECOND
                   && r.replicas > spec.maxReplicas
  }

  /** Everything one reconcile may and may not do after edits. A scale-up stays within Max exactly when
      no entry hangs over. */
  ghost predicate SafeVisit(spec: Crd.Spec, s: Rest.Loop, d: Count, now: int, scaleOk: bool, t: Rest.Loop) {
    var low, most := Counterpart(spec).minReplicas, Crd.StepLimit(spec.scaleDown);
    && Steady(t, now) && (!scaleOk ==> t.replicas == s.replicas)
    && (d == s.replicas ==> t == Rest.Loop(s.replicas, NO_HISTORY))
    && (d < s.replicas ==> t.replicas <= s.replicas && (scaleOk ==> d <= t.replicas))
    && (d < s.replicas && most > 0 ==> s.replicas - t.replicas <= most)
    && (d > s.replicas && scaleOk ==>
          d <= t.replicas && (t.replicas <= spec.maxReplicas <==> !Overhang(spec, s.histories, now)))
    && (s.replicas > spec.maxReplicas ==> t.replicas <= s.replicas)
    && (s.replicas < low && scaleOk ==> s.replicas < t.replicas)
    && (s.replicas >= low ==> t.replicas >= low)
  }

  lemma UpVisit(spec: Crd.Spec, s: Rest.Loop, d: Count, now: int, scaleOk: bool)
    requires Crd.SchemaValid(spec) && Steady(s, now) && Runs.Bounded(Counterpart(spec), s.replicas, d) && d > s.replicas
    ensures SafeVisit(spec, s, d, now, scaleOk, Crd.Scale(spec, s, d, now, scaleOk))
  {
    if Crd.UpWindow(spec) > 0 {
      Windowed(s.histories.up, Recommendation(d, now), now - Crd.UpWindow(spec) * SECOND);
    }
  }

  /** The answer to a scale-down is the decision or a higher entry; with a window of zero, the decision. */
  lemma DownAnswer(spec: Crd.Spec, s: Rest.Loop, d: Count, now: int)
    requires Crd.SchemaValid(spec) && Steady(s, now) && d < s.replicas
    ensures var (h, m) := Crd.Stabilize(spec, s.histories, s.replicas, d, now);
            d <= m <= s.replicas && Capped(h.down, m, now)
  {
    PickIsCapped(s.histories.down, s.replicas, d, now, Crd.DownWindow(spec) * SECOND);
  }

  ghost predicate Capped(h: seq<Recommendation>, m: int, now: int) {
    forall r :: r in Entries(h) ==> r.replicas <= m && r.timestamp <= now
  }

  lemma PickIsCapped(h: seq<Recommendation>, current: Count, d: Count, now: int, w: int)
    requires w >= 0 && d < current && Capped(h, current, now)
    ensures var recent := Recent(h + [Recommendation(d, now)], now - w); var m := Pick(recent, d);
            d <= m <= current && Capped(recent, m, now)
  {
    var rec := Recommendation(d, now);
    EntriesAppend(h, rec);
    if w == 0 {
      NothingLater(h + [rec], now);
    } else {
      Windowed(h, rec, now - w);
    }
  }

  lemma {:induction false} NothingLater(h: seq<Recommendation>, now: int)
    requires Runs.StampedBy(h, now)
    ensures Recent(h, now) == []
    decreases |h|
  {
    if h != [] {
      EntriesAppend(h, h[0]);
      assert h[|h| - 1] in Entries(h);
      NothingLater(h[..|h| - 1], now);
    }
  }

  lemma DownVisit(spec: Crd.Spec, s: Rest.Loop, d: Count, now: int, scaleOk: bool)
    requires Crd.SchemaValid(spec) && Steady(s, now) && Runs.Bounded(Counterpart(spec), s.replicas, d) && d < s.replicas
    ensures SafeVisit(spec, s, d, now, scaleOk, Crd.Scale(spec, s, d, now, scaleOk))
  {
    DownAnswer(spec, s, d, now);
  }

  ghost predicate SafeStep(s: Rest.Loop, v: Visit)
    requires Crd.SchemaValid(v.spec)
  {
    var t := Crd.Step(v.spec, s, v.event);
    if v.event.Observed? then
      var d := Crd.Desired(v.spec, s.replicas, v.event.metrics, v.event.fp);
      SafeVisit(v.spec, s, d, v.event.now, v.event.scaleOk, t)
    else t == s
  }

  lemma VisitIsSafe(s: Rest.Loop, v: Visit)
    requires Crd.SchemaValid(v.spec) && (v.event.Observed? ==> Steady(s, v.event.now))
    ensures SafeStep(s, v)
  {
    if v.event.Observed? {
      var spec, now, ok := v.spec, v.event.now, v.event.scaleOk;
      var d := Crd.Desired(spec, s.replicas, v.event.metrics, v.event.fp);
      CounterpartDecides(spec, s.replicas, v.event.metrics, v.event.fp);
      Runs.LimitBounds(Counterpart(spec), s.replicas,
                       Rest.Wanted(Counterpart(spec), s.replicas, v.event.metrics, v.event.fp));
      if d > s.replicas {
        UpVisit(spec, s, d, now, ok);
      } else if d < s.replicas {
        DownVisit(spec, s, d, now, ok);
      }
    }
  }

  ghost predicate SafeRun(s: Rest.Loop, vs: seq<Visit>)
    requires AllValid(vs)
    decreases |vs|
  {
    vs != [] ==> SafeStep(s, vs[0]) && SafeRun(Crd.Step(vs[0].spec, s, vs[0].event), vs[1..])
  }

  lemma {:induction false} SteadyRunIsSafe(s: Rest.Loop, vs: seq<Visit>, t: int)
    requires AllValid(vs) && ClockFrom(vs, t) && Steady(s, t)
    ensures SafeRun(s, vs)
    decreases |vs|
  {
    if vs != [] {
      var v := vs[0];
      VisitIsSafe(s, v);
      SteadyRunIsSafe(Crd.Step(v.spec, s, v.event), vs[1..], if v.event.Observed? then v.event.now else t);
    }
  }

  /** Safety of every reconcile in every run, however the resource is edited in between. */
  lemma EditedRunSafety(replicas: Count, vs: seq<Visit>, t: int)
    requires AllValid(vs) && ClockFrom(vs, t)
    ensures SafeRun(Rest.Loop(replicas, NO_HISTORY), vs)
  {
    SteadyRunIsSafe(Rest.Loop(replicas, NO_HISTORY), vs, t);
  }

  ghost function RunEdited(s: Rest.Loop, vs: seq<Visit>): Rest.Loop
    requires AllValid(vs)
    decreases |vs|
  {
    if vs == [] then s else RunEdited(Crd.Step(vs[0].spec, s, vs[0].event), vs[1..])
  }

  /** The replicas and the scale-up entries lie within a range. */
  ghost predicate Within(s: Rest.Loop, lo: int, hi: int) {
    lo <= s.replicas <= hi && AtMost(s.histories.up, hi)
  }

  lemma UpAnswer(spec: Crd.Spec, h: Histories, current: Count, d: Count, now: int, hi: int)
    requires current < d <= hi && AtMost(h.up, hi)
    ensures var (h', m) := Crd.Stabilize(spec, h, current, d, now); m <= hi && AtMost(h'.up, hi)
  {
    if Crd.UpWindow(spec) > 0 {
      PickIsAtMost(h.up, d, now, Crd.UpWindow(spec) * SECOND, hi);
    } else {
      EntriesAppend(h.up, Recommendation(d, now));
    }
  }

  ghost predicate AtMost(h: seq<Recommendation>, hi: int) {
    forall r :: r in Entries(h) ==> r.replicas <= hi
  }

  lemma PickIsAtMost(h: seq<Recommendation>, d: Count, now: int, w: int, hi: int)
    requires w > 0 && d <= hi && AtMost(h, hi)
    ensures var recent := Recent(h + [Recommendation(d, now)], now - w); Pick(recent, d) <= hi && AtMost(recent, hi)
  {
    Windowed(h, Recommendation(d, now), now - w);
  }

  lemma VisitStays(s: Rest.Loop, v: Visit, lo: int, hi: int)
    requires Crd.SchemaValid(v.spec) && (v.event.Observed? ==> Steady(s, v.event.now)) && Within(s, lo, hi)
    requires lo <= Counterpart(v.spec).minReplicas && v.spec.maxReplicas <= hi
    ensures Within(Crd.Step(v.spec, s, v.event), lo, hi)
  {
    VisitIsSafe(s, v);
    if v.event.Observed? {
      var d := Crd.Desired(v.spec, s.replicas, v.event.metrics, v.event.fp);
      CounterpartDecides(v.spec, s.replicas, v.event.metrics, v.event.fp);
      Runs.LimitBounds(Counterpart(v.spec), s.replicas,
                       Rest.Wanted(Counterpart(v.spec), s.replicas, v.event.metrics, v.event.fp));
      if d > s.replicas {
        UpAnswer(v.spec, s.histories, s.replicas, d, v.event.now, hi);
      }
    }
  }

  lemma {:induction false} SteadyRunStays(s: Rest.Loop, vs: seq<Visit>, t: int, lo: int, hi: int)
    requires AllValid(vs) && ClockFrom(vs, t) && Steady(s, t) && Within(s, lo, hi)
    requires forall i :: 0 <= i < |vs| ==> lo <= Counterpart(vs[i].spec).minReplicas && vs[i].spec.maxReplicas <= hi
    ensures lo <= RunEdited(s, vs).replicas <= hi
    decreases |vs|
  {
    if vs != [] {
      var v := vs[0];
      VisitIsSafe(s, v);
      VisitStays(s, v, lo, hi);
      SteadyRunStays(Crd.Step(v.spec, s, v.event), vs[1..], if v.event.Observed? then v.event.now else t, lo, hi);
    }
  }

  /** A workload that starts within the widest range any of the edits admits never leaves that range. */
  lemma EditedRunStays(replicas: Count, vs: seq<Visit>, t: int, lo: int, hi: int)
    requires AllValid(vs) && ClockFrom(vs, t) && lo <= replicas <= hi
    requires forall i :: 0 <= i < |vs| ==> lo <= Counterpart(vs[i].spec).minReplicas && vs[i].spec.maxReplicas <= hi
    ensures lo <= RunEdited(Rest.Loop(replicas, NO_HISTORY), vs).replicas <= hi
  {
    SteadyRunStays(Rest.Loop(replicas, NO_HISTORY), vs, t, lo, hi);
  }

  const BUSY := Metrics(150, 0, 0, 0, 0, 0)

  /** A CPU target of one half and a scale-up window of a minute. */
  function CpuSpec(most: Int32): Crd.Spec {
    Crd.Spec(1, most, Some(50), None, None, None, None, None, Some(Crd.PolicySpec(Some(60), None)), None)
  }

  lemma BusyWantsMax(most: Int32, fp: FloatUnit)
    requires 4 <= most <= 12
    ensures Crd.SchemaValid(CpuSpec(most)) && Crd.Desired(CpuSpec(most), 4, BUSY, fp) == most
  {
    assert Quotient(4, 150, 50, fp) == 12;
    assert Crd.Offers(CpuSpec(most), 4, BUSY, fp) == [12];
  }

  function Failing(fp: FloatUnit): Visit {
    Visit(CpuSpec(10), Crd.Observed(0, BUSY, fp, false, true))
  }

  function Lowered(fp: FloatUnit): Visit {
    Visit(CpuSpec(5), Crd.Observed(15 * SECOND, BUSY, fp, true, true))
  }

  const AFTER_FAILURE := Rest.Loop(4, Histories([Recommendation(10, 0)], []))

  lemma FailureLeavesEntry(fp: FloatUnit)
    ensures Crd.SchemaValid(CpuSpec(10))
    ensures Crd.Step(CpuSpec(10), Rest.Loop(4, NO_HISTORY), Failing(fp).event) == AFTER_FAILURE
  {
    BusyWantsMax(10, fp);
    var ten := Recommendation(10, 0);
    assert [] + [ten] == [ten] && Recent([ten][..0], -60 * SECOND) == [];
    assert Recent([ten], -60 * SECOND) == [ten];
  }

  lemma EntryIsFollowed(fp: FloatUnit)
    ensures Crd.SchemaValid(CpuSpec(5))
    ensures Crd.Step(CpuSpec(5), AFTER_FAILURE, Lowered(fp).event).replicas == 10
  {
    BusyWantsMax(5, fp);
    var ten := Recommendation(10, 0);
    Windowed([ten], Recommendation(5, 15 * SECOND), 15 * SECOND - 60 * SECOND);
    assert ten in Entries([ten]);
  }

  /** Lowering Max is not enough: a failed scale-up to the old Max leaves an entry behind, and the next
      scale-up within the window goes where it says. */
  lemma LoweredMaxIsExceeded(fp: FloatUnit)
    ensures AllValid([Failing(fp), Lowered(fp)]) && Lowered(fp).spec.maxReplicas == 5
    ensures RunEdited(Rest.Loop(4, NO_HISTORY), [Failing(fp), Lowered(fp)]).replicas == 10
  {
    FailureLeavesEntry(fp);
    EntryIsFollowed(fp);
    RunTwo(Rest.Loop(4, NO_HISTORY), Failing(fp), Lowered(fp));
  }

  lemma RunTwo(s: Rest.Loop, a: Visit, b: Visit)
    requires Crd.SchemaValid(a.spec) && Crd.SchemaValid(b.spec)
    ensures RunEdited(s, [a, b]) == Crd.Step(b.spec, Crd.Step(a.spec, s, a.event), b.event)
  {
    var mid := Crd.Step(a.spec, s, a.event);
    assert [a, b][1..] == [b] && [b][1..] == [];
    assert RunEdited(s, [a, b]) == RunEdited(mid, [b]);
    assert RunEdited(mid, [b]) == RunEdited(Crd.Step(b.spec, mid, b.event), []);
  }
}
