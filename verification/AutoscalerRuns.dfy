/** What the REST autoscaler guarantees over whole runs. */
module AutoscalerRuns {
  import opened Arithmetic
  import opened Scaling
  import opened Autoscaling

  // ----- what one decision means

  /** w is large enough for a metric: one more replica than w would bring it under its target. */
  ghost predicate Covers(w: int, base: Count, util: int, target: int) {
    target > 0 && util > 0 && base * util <= EXACT_FLOAT && base * util / target <= MAX_INT32
    ==> base * util < (w + 1) * target
  }

  /** w is exactly what a metric asks for. */
  ghost predicate Attains(w: int, base: Count, util: int, target: int, fp: FloatUnit) {
    && target > 0 && util > 0
    && (base * util <= EXACT_FLOAT && base * util / target <= MAX_INT32
        ==> w * target <= base * util < (w + 1) * target)
  }

  lemma OfferMeaning(base: Count, util: int, target: int, fp: FloatUnit, w: int)
    requires forall q :: q in Offer(base, util, target, fp) ==> q <= w
    ensures Covers(w, base, util, target)
    ensures w in Offer(base, util, target, fp) ==> Attains(w, base, util, target, fp)
  {
    if target > 0 && util > 0 {
      var q := Quotient(base, util, target, fp);
      assert q in Offer(base, util, target, fp);
      var p := base * util;
      if p <= EXACT_FLOAT && p / target <= MAX_INT32 {
        assert p >= 0;
        assert q == p / target && p == target * (p / target) + p % target;
        assert q * target <= p < (q + 1) * target;
        assert (q + 1) * target <= (w + 1) * target;
      }
    }
  }

  /** The metrics ask for the least count that covers all of them, and some metric needs it. */
  lemma WantedIsLeastCover(req: Request, current: Count, m: Metrics, fp: FloatUnit)
    ensures var w, b := Wanted(req, current, m, fp), Base(current);
            Offers(req, b, m, fp) != [] ==>
              && Covers(w, b, m.cpu, req.targetCPU)
              && Covers(w, b, m.memory, req.targetMemory)
              && Covers(w, b, m.gpu, req.targetGPU)
              && Covers(w, b, m.storageRead, req.targetStorageRead)
              && Covers(w, b, m.storageWrite, req.targetStorageWrite)
              && Covers(w, b, m.storageIOPS, req.targetStorageIOPS)
              && (|| Attains(w, b, m.cpu, req.targetCPU, fp)
                  || Attains(w, b, m.memory, req.targetMemory, fp)
                  || Attains(w, b, m.gpu, req.targetGPU, fp)
                  || Attains(w, b, m.storageRead, req.targetStorageRead, fp)
                  || Attains(w, b, m.storageWrite, req.targetStorageWrite, fp)
                  || Attains(w, b, m.storageIOPS, req.targetStorageIOPS, fp))
  {
    var w, b := Wanted(req, current, m, fp), Base(current);
    if Offers(req, b, m, fp) != [] {
      InSix(Offer(b, m.cpu, req.targetCPU, fp), Offer(b, m.memory, req.targetMemory, fp),
            Offer(b, m.gpu, req.targetGPU, fp), Offer(b, m.storageRead, req.targetStorageRead, fp),
            Offer(b, m.storageWrite, req.targetStorageWrite, fp), Offer(b, m.storageIOPS, req.targetStorageIOPS, fp));
      OfferMeaning(b, m.cpu, req.targetCPU, fp, w);
      OfferMeaning(b, m.memory, req.targetMemory, fp, w);
      OfferMeaning(b, m.gpu, req.targetGPU, fp, w);
      OfferMeaning(b, m.storageRead, req.targetStorageRead, fp, w);
      OfferMeaning(b, m.storageWrite, req.targetStorageWrite, fp, w);
      OfferMeaning(b, m.storageIOPS, req.targetStorageIOPS, fp, w);
    }
  }

  lemma InSix<T>(a: seq<T>, b: seq<T>, c: seq<T>, d: seq<T>, e: seq<T>, f: seq<T>)
    ensures forall x :: x in a + b + c + d + e + f <==> x in a || x in b || x in c || x in d || x in e || x in f
  {
  }

  function Distance(a: int, b: int): nat {
    if a < b then b - a else a - b
  }

  ghost predicate Allowed(req: Request, current: Count, x: int) {
    && req.minReplicas <= x <= req.maxReplicas
    && (StepLimit(req.scaleUp) > 0 ==> x <= current + StepLimit(req.scaleUp))
    && (StepLimit(req.scaleDown) > 0 ==> current - StepLimit(req.scaleDown) <= x)
  }

  /** From inside the range, the decision is the allowed count nearest to what the metrics want. */
  lemma DesiredIsNearest(req: Request, current: Count, m: Metrics, fp: FloatUnit, x: int)
    requires Ranged(req) && req.minReplicas <= current <= req.maxReplicas
    ensures Allowed(req, current, Desired(req, current, m, fp))
    ensures Allowed(req, current, x) ==>
              var w := Wanted(req, current, m, fp);
              Distance(Desired(req, current, m, fp), w) <= Distance(x, w)
  {
    var w := Wanted(req, current, m, fp);
  }

  // ----- the closed loop

  ghost function Run(req: Request, s: Loop, es: seq<Event>): Loop
    requires Ranged(req)
    decreases |es|
  {
    if es == [] then s else Run(req, Step(req, s, es[0]), es[1..])
  }

  ghost predicate Inv(req: Request, s: Loop) {
    && (forall r :: r in Entries(s.histories.down) ==> r.replicas <= s.replicas)
    && (forall r :: r in Entries(s.histories.up) ==> r.replicas <= req.maxReplicas)
  }

  ghost predicate InRange(req: Request, replicas: int) {
    req.minReplicas <= replicas <= req.maxReplicas
  }

  /** What the rest of a tick may rely on about a decision. */
  ghost predicate Bounded(req: Request, current: Count, d: Count) {
    && (current < req.minReplicas ==> current < d)
    && (current > req.maxReplicas ==> d < current)
    && (current >= req.minReplicas ==> d >= req.minReplicas)
    && (d > current ==> d <= req.maxReplicas)
    && (d < current && StepLimit(req.scaleDown) > 0 ==> current - d <= StepLimit(req.scaleDown))
  }

  lemma LimitBounds(req: Request, current: Count, wanted: Int32)
    requires Ranged(req)
    ensures Bounded(req, current, Limit(req, Base(current), wanted))
  {
  }

  /** Everything one tick may and may not do, given what it decided. */
  ghost predicate SafeScale(req: Request, s: Loop, d: Count, scaleOk: bool, t: Loop) {
    && (d == s.replicas ==> t == Loop(s.replicas, NO_HISTORY))
    && (d < s.replicas ==> d <= t.replicas <= s.replicas || !scaleOk)
    && (d < s.replicas && StepLimit(req.scaleDown) > 0 ==> s.replicas - t.replicas <= StepLimit(req.scaleDown))
    && (d > s.replicas && scaleOk ==> d <= t.replicas <= req.maxReplicas)
    && (InRange(req, s.replicas) ==> InRange(req, t.replicas))
    && (s.replicas < req.minReplicas && scaleOk ==> s.replicas < t.replicas <= req.maxReplicas)
    && (s.replicas > req.maxReplicas ==> req.minReplicas <= t.replicas <= s.replicas)
    && (!scaleOk ==> t.replicas == s.replicas)
  }

  lemma ScaleUpSafety(req: Request, s: Loop, d: Count, now: int, scaleOk: bool)
    requires Ranged(req) && Inv(req, s) && Bounded(req, s.replicas, d) && d > s.replicas
    ensures var t := Scale(req, s, d, now, scaleOk); Inv(req, t) && SafeScale(req, s, d, scaleOk, t)
  {
    var rec := Recommendation(d, now);
    if UpWindow(req) > 0 {
      Windowed(s.histories.up, rec, now - UpWindow(req) * SECOND);
    } else {
      EntriesAppend(s.histories.up, rec);
    }
  }

  lemma ScaleDownSafety(req: Request, s: Loop, d: Count, now: int, scaleOk: bool)
    requires Ranged(req) && Inv(req, s) && Bounded(req, s.replicas, d) && d < s.replicas
    ensures var t := Scale(req, s, d, now, scaleOk); Inv(req, t) && SafeScale(req, s, d, scaleOk, t)
  {
    Windowed(s.histories.down, Recommendation(d, now), now - DownWindow(req) * SECOND);
  }

  lemma ScaleSafety(req: Request, s: Loop, d: Count, now: int, scaleOk: bool)
    requires Ranged(req) && Inv(req, s) && Bounded(req, s.replicas, d)
    ensures var t := Scale(req, s, d, now, scaleOk); Inv(req, t) && SafeScale(req, s, d, scaleOk, t)
  {
    if d > s.replicas {
      ScaleUpSafety(req, s, d, now, scaleOk);
    } else if d < s.replicas {
      ScaleDownSafety(req, s, d, now, scaleOk);
    }
  }

  /** Every tick from a state that satisfies the invariant is safe, and keeps the invariant. */
  lemma {:induction false} TickSafety(req: Request, s: Loop, e: Event)
    requires Ranged(req) && Inv(req, s)
    ensures var t := Step(req, s, e);
            && Inv(req, t)
            && (e.Unreadable? ==> t == s)
            && (e.Observed? ==> SafeScale(req, s, Desired(req, s.replicas, e.metrics, e.fp), e.scaleOk, t))
  {
    if e.Observed? {
      LimitBounds(req, s.replicas, Wanted(req, s.replicas, e.metrics, e.fp));
      ScaleSafety(req, s, Desired(req, s.replicas, e.metrics, e.fp), e.now, e.scaleOk);
    }
  }

  lemma {:induction false} RunKeeps(req: Request, s: Loop, es: seq<Event>)
    requires Ranged(req) && Inv(req, s)
    ensures Inv(req, Run(req, s, es))
    ensures InRange(req, s.replicas) ==> InRange(req, Run(req, s, es).replicas)
    decreases |es|
  {
    if es != [] {
      TickSafety(req, s, es[0]);
      RunKeeps(req, Step(req, s, es[0]), es[1..]);
    }
  }

  /** In every reachable state no scale-down entry exceeds the replicas, so TickSafety applies to
      every tick of every run; and a workload that starts in range stays there. */
  lemma {:induction false} RunSafety(req: Request, replicas: Count, es: seq<Event>)
    requires Ranged(req)
    ensures var s := Run(req, Loop(replicas, NO_HISTORY), es);
            && Inv(req, s)
            && (InRange(req, replicas) ==> InRange(req, s.replicas))
  {
    RunKeeps(req, Loop(replicas, NO_HISTORY), es);
  }

  function Excess(req: Request, replicas: int): nat {
    if replicas < req.minReplicas then req.minReplicas - replicas
    else if replicas > req.maxReplicas then replicas - req.maxReplicas
    else 0
  }

  function Less(n: nat, k: nat): nat {
    if k < n then n - k else 0
  }

  predicate Succeeds(e: Event) {
    e.Observed? && e.scaleOk
  }

  function Successes(es: seq<Event>): nat
    decreases |es|
  {
    if es == [] then 0 else (if Succeeds(es[0]) then 1 else 0) + Successes(es[1..])
  }

  /** The clock never goes back, from a given reading on. */
  ghost predicate ClockFrom(es: seq<Event>, t: int)
    decreases |es|
  {
    es != [] ==> if es[0].Observed? then t <= es[0].now && ClockFrom(es[1..], es[0].now) else ClockFrom(es[1..], t)
  }

  ghost predicate StampedBy(h: seq<Recommendation>, t: int) {
    forall r :: r in Entries(h) ==> r.timestamp <= t
  }

  /** The windows of length w that fit one after another into a run from t0 on, each closed by the first
      successful tick at or after its end. */
  function Windows(es: seq<Event>, t0: int, w: int): nat
    decreases |es|
  {
    if es == [] then 0
    else if Succeeds(es[0]) && es[0].now >= t0 + w then 1 + Windows(es[1..], es[0].now, w)
    else Windows(es[1..], t0, w)
  }

  // ----- from below the range: every successful tick helps

  /** Below the range each successful tick climbs at least one, however close the ticks are, whatever the
      clock does and whatever fails in between; once inside, the workload stays. */
  lemma {:induction false} ClimbsFromBelow(req: Request, s: Loop, es: seq<Event>)
    requires Ranged(req) && Inv(req, s) && s.replicas <= req.maxReplicas
    ensures Excess(req, Run(req, s, es).replicas) <= Less(Excess(req, s.replicas), Successes(es))
    ensures Run(req, s, es).replicas <= req.maxReplicas
    decreases |es|
  {
    if es != [] {
      TickSafety(req, s, es[0]);
      ClimbsFromBelow(req, Step(req, s, es[0]), es[1..]);
    }
  }

  // ----- from above: every window helps

  /** Within a window that began at t0 with excess x: progress has been made, or every entry made since
      lies below the replicas. */
  ghost predicate OnTrack(req: Request, s: Loop, t0: int, x: nat) {
    || Excess(req, s.replicas) < x
    || (Excess(req, s.replicas) == x && (s.replicas > req.maxReplicas ==> YoungBelow(s.histories.down, t0, s.replicas)))
  }

  ghost predicate YoungBelow(h: seq<Recommendation>, t0: int, top: Count) {
    forall r :: r in Entries(h) && r.timestamp > t0 ==> r.replicas < top
  }

  lemma DownEntries(req: Request, s: Loop, d: Count, now: int, scaleOk: bool)
    ensures var t := Scale(req, s, d, now, scaleOk);
            forall r :: r in Entries(t.histories.down) ==>
              r in Entries(s.histories.down) || (d < s.replicas && r == Recommendation(d, now))
  {
    if d < s.replicas {
      Windowed(s.histories.down, Recommendation(d, now), now - DownWindow(req) * SECOND);
    }
  }

  lemma ScaleKeepsTrack(req: Request, s: Loop, d: Count, now: int, scaleOk: bool, t0: int, x: nat)
    requires Ranged(req) && Inv(req, s) && Bounded(req, s.replicas, d) && OnTrack(req, s, t0, x)
    ensures OnTrack(req, Scale(req, s, d, now, scaleOk), t0, x)
  {
    ScaleSafety(req, s, d, now, scaleOk);
    DownEntries(req, s, d, now, scaleOk);
  }

  /** At the end of the window every entry that still counts is below the top, and so is the answer. */
  lemma ClosingScaleFalls(req: Request, s: Loop, d: Count, now: int, t0: int, x: nat)
    requires Ranged(req) && Inv(req, s) && Bounded(req, s.replicas, d) && OnTrack(req, s, t0, x)
    requires now >= t0 + DownWindow(req) * SECOND
    ensures Excess(req, Scale(req, s, d, now, true).replicas) <= Less(x, 1)
  {
    ScaleSafety(req, s, d, now, true);
    if s.replicas > req.maxReplicas && Excess(req, s.replicas) == x {
      Windowed(s.histories.down, Recommendation(d, now), now - DownWindow(req) * SECOND);
    }
  }

  lemma TickStamps(req: Request, s: Loop, e: Event, t: int)
    requires Ranged(req) && StampedBy(s.histories.down, t) && (e.Observed? ==> t <= e.now)
    ensures StampedBy(Step(req, s, e).histories.down, if e.Observed? then e.now else t)
  {
    if e.Observed? {
      DownEntries(req, s, Desired(req, s.replicas, e.metrics, e.fp), e.now, e.scaleOk);
    }
  }

  lemma TickKeepsTrack(req: Request, s: Loop, e: Event, t0: int, x: nat)
    requires Ranged(req) && Inv(req, s) && OnTrack(req, s, t0, x)
    ensures OnTrack(req, Step(req, s, e), t0, x)
    ensures Succeeds(e) && e.now >= t0 + DownWindow(req) * SECOND ==>
              Excess(req, Step(req, s, e).replicas) <= Less(x, 1)
  {
    if e.Observed? {
      var d := Desired(req, s.replicas, e.metrics, e.fp);
      LimitBounds(req, s.replicas, Wanted(req, s.replicas, e.metrics, e.fp));
      ScaleKeepsTrack(req, s, d, e.now, e.scaleOk, t0, x);
      if e.scaleOk && e.now >= t0 + DownWindow(req) * SECOND {
        ClosingScaleFalls(req, s, d, e.now, t0, x);
      }
    }
  }

  lemma {:induction false} TrackConverges(req: Request, s: Loop, es: seq<Event>, t0: int, t: int, x: nat)
    requires Ranged(req) && Inv(req, s) && OnTrack(req, s, t0, x)
    requires StampedBy(s.histories.down, t) && ClockFrom(es, t)
    ensures Excess(req, Run(req, s, es).replicas) <= Less(x, Windows(es, t0, DownWindow(req) * SECOND))
    decreases |es|
  {
    if es != [] {
      var e, next := es[0], Step(req, s, es[0]);
      TickSafety(req, s, e);
      TickStamps(req, s, e, t);
      TickKeepsTrack(req, s, e, t0, x);
      var now := if e.Observed? then e.now else t;
      if Succeeds(e) && e.now >= t0 + DownWindow(req) * SECOND {
        TrackConverges(req, next, es[1..], e.now, now, Less(x, 1));
      } else {
        TrackConverges(req, next, es[1..], t0, now, x);
      }
    }
  }

  /** Liveness, at any spacing of the ticks and with any failures in between: whatever the metrics say,
      the distance to the range falls by at least one per scale-down window closed by a successful tick. */
  lemma {:induction false} Convergence(req: Request, s: Loop, es: seq<Event>, t0: int)
    requires Ranged(req) && Inv(req, s) && StampedBy(s.histories.down, t0) && ClockFrom(es, t0)
    ensures Excess(req, Run(req, s, es).replicas)
            <= Less(Excess(req, s.replicas), Windows(es, t0, DownWindow(req) * SECOND))
  {
    TrackConverges(req, s, es, t0, t0, Excess(req, s.replicas));
  }

  /** Successful ticks at most c apart, as a ticker gives them. */
  ghost predicate Cadence(es: seq<Event>, t: int, c: int)
    decreases |es|
  {
    es != [] ==> Succeeds(es[0]) && t <= es[0].now <= t + c && Cadence(es[1..], es[0].now, c)
  }

  function LastReading(es: seq<Event>, t: int): int
    decreases |es|
  {
    if es == [] then t else LastReading(es[1..], if es[0].Observed? then es[0].now else t)
  }

  lemma {:induction false} CadenceFillsWindows(es: seq<Event>, t0: int, t: int, w: int, c: int)
    requires 0 <= c && Cadence(es, t, c) && t0 <= t < t0 + w
    ensures (Windows(es, t0, w) + 1) * (w + c) > LastReading(es, t) - t0 && ClockFrom(es, t)
    decreases |es|
  {
    if es != [] {
      var now, n := es[0].now, Windows(es, t0, w);
      if now >= t0 + w {
        CadenceFillsWindows(es[1..], now, now, w, c);
        assert (n + 1) * (w + c) == n * (w + c) + (w + c);
      } else {
        CadenceFillsWindows(es[1..], t0, now, w, c);
      }
    }
  }

  /** With ticks at most c apart the workload is in range once one window and one tick have passed for
      every replica it was off. */
  lemma {:induction false} ConvergenceInTime(req: Request, s: Loop, es: seq<Event>, t0: int, c: int)
    requires Ranged(req) && Inv(req, s) && StampedBy(s.histories.down, t0) && 0 <= c && Cadence(es, t0, c)
    requires LastReading(es, t0) - t0 >= Excess(req, s.replicas) * (DownWindow(req) * SECOND + c)
    ensures InRange(req, Run(req, s, es).replicas)
  {
    var x, w := Excess(req, s.replicas), DownWindow(req) * SECOND;
    CadenceFillsWindows(es, t0, t0, w, c);
    ProductReflects(x, Windows(es, t0, w) + 1, w + c);
    Convergence(req, s, es, t0);
  }

  /** With the defaults, a 15 s ticker and a window of 300 s: 315 s for every replica it was off. */
  lemma DefaultConvergence(req: Request, s: Loop, es: seq<Event>, t0: int)
    requires Ranged(req) && Inv(req, s) && StampedBy(s.histories.down, t0) && req.scaleDown.None?
    requires Cadence(es, t0, 15 * SECOND) && LastReading(es, t0) - t0 >= Excess(req, s.replicas) * (315 * SECOND)
    ensures InRange(req, Run(req, s, es).replicas)
  {
    ConvergenceInTime(req, s, es, t0, 15 * SECOND);
  }

  /** Where others change the workload too, a decision to scale down is answered with more replicas than
      there are exactly when an entry that still counts says so. */
  lemma DownRaisesExactlyWhen(req: Request, h: Histories, current: Count, d: Count, now: int)
    requires d < current
    ensures Stabilize(req, h, current, d, now).1 > current <==>
            exists r :: r in Entries(h.down) && r.timestamp > now - DownWindow(req) * SECOND && r.replicas > current
  {
    Windowed(h.down, Recommendation(d, now), now - DownWindow(req) * SECOND);
  }

  // ----- the pruned history against a log that is never pruned

  datatype Ask = Ask(current: Count, desired: Count, now: int) {
    predicate Clears() { desired == current }
    predicate Goes(up: bool) { if up then desired > current else desired < current }
    function Entry(): Recommendation { Recommendation(desired, now) }
  }

  /** The histories the controller holds after a sequence of asks. */
  ghost function Replay(req: Request, asks: seq<Ask>): Histories {
    if asks == [] then NO_HISTORY
    else
      var last := asks[|asks| - 1];
      Stabilize(req, Replay(req, asks[..|asks| - 1]), last.current, last.desired, last.now).0
  }

  /** What it answers to the last one. */
  ghost function Answer(req: Request, asks: seq<Ask>): Count
    requires asks != []
    decreases |asks|
  {
    var last := asks[|asks| - 1];
    Stabilize(req, Replay(req, asks[..|asks| - 1]), last.current, last.desired, last.now).1
  }

  /** All recommendations of one direction since the last ask that wanted no change. */
  ghost function Log(asks: seq<Ask>, up: bool): set<Recommendation> {
    if asks == [] then {}
    else Extend(Log(asks[..|asks| - 1], up), asks[|asks| - 1], up)
  }

  ghost function Extend(log: set<Recommendation>, a: Ask, up: bool): set<Recommendation> {
    if a.Clears() then {} else if a.Goes(up) then log + {a.Entry()} else log
  }

  ghost predicate InOrder(asks: seq<Ask>) {
    forall i, j :: 0 <= i < j < |asks| ==> asks[i].now <= asks[j].now
  }

  lemma {:induction false} LogMeaning(asks: seq<Ask>, up: bool, r: Recommendation)
    ensures r in Log(asks, up) <==>
            exists i :: 0 <= i < |asks| && asks[i].Goes(up) && asks[i].Entry() == r
                        && forall j :: i <= j < |asks| ==> !asks[j].Clears()
  {
    if asks != [] {
      var n := |asks| - 1;
      var prior, last := asks[..n], asks[n];
      LogMeaning(prior, up, r);
      if r in Log(prior, up) && !last.Clears() {
        var i :| 0 <= i < n && prior[i].Goes(up) && prior[i].Entry() == r &&
                   forall j :: i <= j < n ==> !prior[j].Clears();
        assert asks[i].Goes(up) && asks[i].Entry() == r && forall j :: i <= j < |asks| ==> !asks[j].Clears() by {
          assert forall j :: i <= j < n ==> asks[j] == prior[j];
        }
      }
      if i :| 0 <= i < |asks| && asks[i].Goes(up) && asks[i].Entry() == r &&
              forall j :: i <= j < |asks| ==> !asks[j].Clears() {
        assert !last.Clears();
        if i < n {
          assert prior[i].Goes(up) && prior[i].Entry() == r && forall j :: i <= j < n ==> !prior[j].Clears();
        }
      }
    }
  }

  /** The entries of the log younger than the cutoff. */
  ghost function Young(log: set<Recommendation>, cutoff: int): set<Recommendation> {
    set r | r in log && r.timestamp > cutoff
  }

  /** A pruned history holds nothing foreign to the log and every entry still in the window. */
  ghost predicate Agree(window: int, h: seq<Recommendation>, log: set<Recommendation>, now: int) {
    Young(log, now - window * SECOND) <= Entries(h) <= log
  }

  lemma AgreeAppend(window: nat, h: seq<Recommendation>, log: set<Recommendation>, was: int, rec: Recommendation)
    requires window > 0 && was <= rec.timestamp && Agree(window, h, log, was)
    ensures var cutoff := rec.timestamp - window * SECOND; var recent := Recent(h + [rec], cutoff);
            recent != [] && Entries(recent) == Young(log + {rec}, cutoff)
  {
    Windowed(h, rec, rec.timestamp - window * SECOND);
  }

  /** What answering one ask must mean for logs that include it. */
  ghost predicate Right(req: Request, a: Ask, up: set<Recommendation>, down: set<Recommendation>, s: Count) {
    && (a.Clears() ==> s == a.current)
    && (a.Goes(true) && UpWindow(req) == 0 ==> s == a.desired)
    && (a.Goes(true) && UpWindow(req) > 0 ==> IsHighest(Young(up, a.now - UpWindow(req) * SECOND), s))
    && (a.Goes(false) ==> IsHighest(Young(down, a.now - DownWindow(req) * SECOND), s))
  }

  lemma AgreeLater(window: nat, h: seq<Recommendation>, log: set<Recommendation>, was: int, now: int)
    requires was <= now && Agree(window, h, log, was)
    ensures Agree(window, h, log, now)
  {
  }

  ghost predicate Tracks(req: Request, h: Histories, up: set<Recommendation>, down: set<Recommendation>, now: int) {
    Agree(UpWindow(req), h.up, up, now) && Agree(DownWindow(req), h.down, down, now)
  }

  lemma StepUp(req: Request, h: Histories, up: set<Recommendation>, down: set<Recommendation>, was: int, a: Ask)
    requires was <= a.now && Tracks(req, h, up, down, was) && a.Goes(true)
    ensures var (h', s) := Stabilize(req, h, a.current, a.desired, a.now);
            Tracks(req, h', up + {a.Entry()}, down, a.now) && Right(req, a, up + {a.Entry()}, down, s)
  {
    AgreeLater(DownWindow(req), h.down, down, was, a.now);
    if UpWindow(req) > 0 {
      AgreeAppend(UpWindow(req), h.up, up, was, a.Entry());
    } else {
      EntriesAppend(h.up, a.Entry());
    }
  }

  lemma StepDown(req: Request, h: Histories, up: set<Recommendation>, down: set<Recommendation>, was: int, a: Ask)
    requires was <= a.now && Tracks(req, h, up, down, was) && a.Goes(false)
    ensures var (h', s) := Stabilize(req, h, a.current, a.desired, a.now);
            Tracks(req, h', up, down + {a.Entry()}, a.now) && Right(req, a, up, down + {a.Entry()}, s)
  {
    AgreeLater(UpWindow(req), h.up, up, was, a.now);
    AgreeAppend(DownWindow(req), h.down, down, was, a.Entry());
  }

  lemma StepAgrees(req: Request, h: Histories, up: set<Recommendation>, down: set<Recommendation>, was: int, a: Ask)
    requires was <= a.now && Tracks(req, h, up, down, was)
    ensures var (h', s) := Stabilize(req, h, a.current, a.desired, a.now);
            && Tracks(req, h', Extend(up, a, true), Extend(down, a, false), a.now)
            && Right(req, a, Extend(up, a, true), Extend(down, a, false), s)
  {
    if a.Goes(true) {
      StepUp(req, h, up, down, was, a);
    } else if a.Goes(false) {
      StepDown(req, h, up, down, was, a);
    }
  }

  lemma {:induction false} ReplayAgrees(req: Request, asks: seq<Ask>)
    requires asks != [] && InOrder(asks)
    ensures var last := asks[|asks| - 1];
            && Tracks(req, Replay(req, asks), Log(asks, true), Log(asks, false), last.now)
            && Right(req, last, Log(asks, true), Log(asks, false), Answer(req, asks))
    decreases |asks|
  {
    var n := |asks| - 1;
    var prior, last := asks[..n], asks[n];
    if n > 0 {
      ReplayAgrees(req, prior);
    }
    var was := if n == 0 then last.now else prior[n - 1].now;
    StepAgrees(req, Replay(req, prior), Log(prior, true), Log(prior, false), was, last);
  }

  /** With a clock that never goes back, the pruned history computes the sliding-window maximum
      over the full log; without a window (scale-up only) the newest recommendation wins. */
  lemma {:induction false} WindowRefinesLog(req: Request, asks: seq<Ask>)
    requires asks != [] && InOrder(asks)
    ensures Right(req, asks[|asks| - 1], Log(asks, true), Log(asks, false), Answer(req, asks))
  {
    ReplayAgrees(req, asks);
  }
}
