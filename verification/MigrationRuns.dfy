/** Every interleaving of StartMigration calls and job goroutines. */
module MigrationRuns {
  import opened MigrationMachine
  import opened Migration
  import RunningMean

  /** An accepted job; jobs are told apart by position, so equal identifiers do no harm. */
  datatype Entry = Entry(env: Env, job: Job)

  /** durations: those of the completed jobs, in the order of completion. */
  datatype System = System(capacity: nat, tokens: nat, entries: seq<Entry>, metrics: Metrics, durations: seq<int>)

  datatype Action = Start(env: Env) | Advance(i: nat)

  predicate Accepts(s: System) {
    s.tokens < s.capacity
  }

  /** A release that finds no token would block; that is a step that changes nothing. */
  ghost function Act(s: System, a: Action): System
    requires EntriesOk(s)
    requires a.Start? ==> Proper(a.env.plan)
  {
    match a
    case Start(env) =>
      if Accepts(s) then s.(tokens := s.tokens + 1, entries := s.entries + [Entry(env, FRESH)]) else s
    case Advance(i) =>
      if i >= |s.entries| then s
      else
        var e := s.entries[i];
        if e.job.pc.Releasing? && s.tokens == 0 then s
        else Moved(s, i, Next(e.env, e.job))
  }

  /** The effect of a job's step on the controller's shared state. */
  function Moved(s: System, i: nat, j: Job): System
    requires i < |s.entries|
  {
    var e := s.entries[i];
    var t := s.(entries := s.entries[i := e.(job := j)]);
    match e.job.pc
    case Releasing => if s.tokens == 0 then t else t.(tokens := s.tokens - 1)
    case Failing => t.(metrics := FailedOnce(s.metrics))
    case Completing => t.(metrics := Succeeded(s.metrics, e.env.duration), durations := s.durations + [e.env.duration])
    case _ => t
  }

  predicate Holds(e: Entry) { !e.job.pc.Released? }
  predicate Succeeds(e: Entry) { e.job.status == Completed }
  predicate Fails(e: Entry) { e.job.status == Failed }
  predicate Active(e: Entry) { e.job.status == Pending || e.job.status == Running }

  function Count(es: seq<Entry>, p: Entry -> bool): nat {
    if es == [] then 0 else Count(es[..|es| - 1], p) + if p(es[|es| - 1]) then 1 else 0
  }

  function One(b: bool): nat {
    if b then 1 else 0
  }

  lemma CountAppend(es: seq<Entry>, e: Entry, p: Entry -> bool)
    ensures Count(es + [e], p) == Count(es, p) + One(p(e))
  {
    assert (es + [e])[..|es|] == es;
  }

  lemma {:induction false} CountUpdate(es: seq<Entry>, i: nat, e: Entry, p: Entry -> bool)
    requires i < |es|
    ensures Count(es[i := e], p) + One(p(es[i])) == Count(es, p) + One(p(e))
  {
    var n := |es| - 1;
    if i < n {
      assert es[i := e][..n] == es[..n][i := e];
      CountUpdate(es[..n], i, e, p);
    } else {
      assert es[i := e][..n] == es[..n];
    }
  }

  lemma {:induction false} CountMonotone(es: seq<Entry>, p: Entry -> bool, q: Entry -> bool)
    requires forall i :: 0 <= i < |es| && p(es[i]) ==> q(es[i])
    ensures Count(es, p) <= Count(es, q) <= |es|
  {
    if es != [] {
      CountMonotone(es[..|es| - 1], p, q);
    }
  }

  ghost predicate EntryOk(e: Entry) {
    Inv(e.env, e.job)
  }

  ghost predicate EntriesOk(s: System) {
    forall i :: 0 <= i < |s.entries| ==> EntryOk(s.entries[i])
  }

  ghost predicate SysInv(s: System) {
    && EntriesOk(s)
    && s.tokens == Count(s.entries, Holds) <= s.capacity
    && s.metrics.successful == Count(s.entries, Succeeds)
    && s.metrics.failed == Count(s.entries, Fails)
    && s.metrics.total == s.metrics.successful == |s.durations|
    && s.metrics.averageDuration == RunningMean.Average(s.durations)
  }

  ghost predicate Enabled(a: Action) {
    a.Start? ==> Proper(a.env.plan)
  }

  lemma StartKeeps(s: System, env: Env)
    requires SysInv(s) && Proper(env.plan)
    ensures SysInv(Act(s, Start(env)))
  {
    if Accepts(s) {
      var e := Entry(env, FRESH);
      assert EntryOk(e);
      forall k | 0 <= k < |s.entries + [e]| ensures EntryOk((s.entries + [e])[k]) {
        assert k < |s.entries| ==> EntryOk(s.entries[k]);
      }
      CountAppend(s.entries, e, Holds);
      CountAppend(s.entries, e, Succeeds);
      CountAppend(s.entries, e, Fails);
    }
  }

  /** All that the shared state sees of a job's step. */
  predicate StatusStep(j: Job, r: Job) {
    && (r.pc.Released? <==> j.pc.Releasing? || j.pc.Released?)
    && (j.pc.Failing? || j.pc.Completing? ==> j.status == Running)
    && r.status == (match j.pc
                    case Queued => Running
                    case Failing => Failed
                    case Completing => Completed
                    case _ => j.status)
    && (j.pc.Queued? ==> j.status == Pending)
  }

  lemma NextStatus(env: Env, j: Job)
    requires Inv(env, j)
    ensures StatusStep(j, Next(env, j))
  {
  }

  lemma CountsMove(s: System, i: nat, j: Job)
    requires i < |s.entries| && StatusStep(s.entries[i].job, j)
    requires s.tokens == Count(s.entries, Holds) <= s.capacity
    requires s.metrics.successful == Count(s.entries, Succeeds)
    requires s.metrics.failed == Count(s.entries, Fails)
    ensures var t := Moved(s, i, j);
            && t.tokens == Count(t.entries, Holds) <= t.capacity
            && t.metrics.successful == Count(t.entries, Succeeds)
            && t.metrics.failed == Count(t.entries, Fails)
    ensures s.entries[i].job.pc.Releasing? ==> s.tokens > 0
  {
    var moved := s.entries[i].(job := j);
    CountUpdate(s.entries, i, moved, Holds);
    CountUpdate(s.entries, i, moved, Succeeds);
    CountUpdate(s.entries, i, moved, Fails);
  }

  lemma MetricsMove(s: System, i: nat, j: Job)
    requires i < |s.entries| && s.metrics.total == s.metrics.successful == |s.durations|
    requires s.metrics.averageDuration == RunningMean.Average(s.durations)
    ensures var t := Moved(s, i, j);
            && t.metrics.total == t.metrics.successful == |t.durations|
            && t.metrics.averageDuration == RunningMean.Average(t.durations)
  {
    var d := s.entries[i].env.duration;
    assert (s.durations + [d])[..|s.durations|] == s.durations;
  }

  lemma AdvanceKeeps(s: System, i: nat)
    requires SysInv(s)
    ensures SysInv(Act(s, Advance(i)))
    ensures i < |s.entries| ==> Act(s, Advance(i)) == Moved(s, i, Next(s.entries[i].env, s.entries[i].job))
    ensures i < |s.entries| && s.entries[i].job.pc.Releasing? ==> s.tokens > 0
  {
    if i < |s.entries| {
      var e := s.entries[i];
      var j := Next(e.env, e.job);
      StepKeepsInv(e.env, e.job);
      NextStatus(e.env, e.job);
      CountsMove(s, i, j);
      MetricsMove(s, i, j);
      EntriesMove(s, i, j);
    }
  }

  lemma EntriesMove(s: System, i: nat, j: Job)
    requires i < |s.entries| && EntriesOk(s) && Inv(s.entries[i].env, j)
    ensures EntriesOk(Moved(s, i, j))
  {
    forall k | 0 <= k < |s.entries| ensures EntryOk(Moved(s, i, j).entries[k]) {
      assert EntryOk(s.entries[k]);
    }
  }

  function Initial(capacity: nat): System {
    System(capacity, 0, [], NO_MIGRATIONS, [])
  }

  ghost function Run(s: System, actions: seq<Action>): (t: System)
    requires SysInv(s) && forall i :: 0 <= i < |actions| ==> Enabled(actions[i])
    ensures SysInv(t)
    decreases |actions|
  {
    if actions == [] then s
    else
      ActKeeps(s, actions[0]);
      Run(Act(s, actions[0]), actions[1..])
  }

  lemma ActKeeps(s: System, a: Action)
    requires SysInv(s) && Enabled(a)
    ensures SysInv(Act(s, a))
  {
    match a
    case Start(env) => StartKeeps(s, env);
    case Advance(i) => AdvanceKeeps(s, i);
  }

  /** Safety of every reachable state, for any schedule and any failures. */
  lemma ControllerSafety(capacity: nat, actions: seq<Action>)
    requires forall i :: 0 <= i < |actions| ==> Enabled(actions[i])
    ensures var s := Run(Initial(capacity), actions);
            && s.capacity == capacity && s.tokens == Count(s.entries, Holds)
            && Count(s.entries, Active) <= s.tokens <= capacity
            && (!Accepts(s) <==> Count(s.entries, Holds) == capacity)
            && s.metrics.successful + s.metrics.failed + Count(s.entries, Active) == |s.entries|
            && s.metrics.total == s.metrics.successful == Count(s.entries, Succeeds)
            && s.metrics.averageDuration == RunningMean.Average(s.durations)
            && (forall i :: 0 <= i < |s.entries| ==> Safe(s.entries[i].env, s.entries[i].job))
            && (forall i :: 0 <= i < |s.entries| && s.entries[i].job.pc.Releasing? ==> s.tokens > 0)
  {
    var s := Run(Initial(capacity), actions);
    CountMonotone(s.entries, Active, Holds);
    CountPartition(s.entries);
    RunKeepsCapacity(Initial(capacity), actions);
    forall i | 0 <= i < |s.entries| ensures Safe(s.entries[i].env, s.entries[i].job) {
      InvIsSafe(s.entries[i].env, s.entries[i].job);
    }
    forall i | 0 <= i < |s.entries| && s.entries[i].job.pc.Releasing? ensures s.tokens > 0 {
      AdvanceKeeps(s, i);
    }
  }

  lemma {:induction false} RunKeepsCapacity(s: System, actions: seq<Action>)
    requires SysInv(s) && forall i :: 0 <= i < |actions| ==> Enabled(actions[i])
    ensures Run(s, actions).capacity == s.capacity
    decreases |actions|
  {
    if actions != [] {
      ActKeeps(s, actions[0]);
      RunKeepsCapacity(Act(s, actions[0]), actions[1..]);
    }
  }

  lemma {:induction false} CountPartition(es: seq<Entry>)
    ensures Count(es, Succeeds) + Count(es, Fails) + Count(es, Active) == |es|
  {
    if es != [] {
      CountPartition(es[..|es| - 1]);
    }
  }

  lemma ActKeepsTerminal(s: System, a: Action, i: nat)
    requires SysInv(s) && Enabled(a) && i < |s.entries| && !Active(s.entries[i])
    ensures var t := Act(s, a); i < |t.entries| && t.entries[i].job.status == s.entries[i].job.status
  {
    if a.Advance? && a.i == i {
      var e := s.entries[i];
      assert EntryOk(e);
      NextStatus(e.env, e.job);
    }
  }

  /** A terminal status is final: no later schedule changes it, so each job ends exactly once. */
  lemma {:induction false} TerminalIsFinal(s: System, actions: seq<Action>, i: nat)
    requires SysInv(s) && forall k :: 0 <= k < |actions| ==> Enabled(actions[k])
    requires i < |s.entries| && !Active(s.entries[i])
    ensures var t := Run(s, actions); i < |t.entries| && t.entries[i].job.status == s.entries[i].job.status
    decreases |actions|
  {
    if actions != [] {
      ActKeeps(s, actions[0]);
      ActKeepsTerminal(s, actions[0], i);
      TerminalIsFinal(Act(s, actions[0]), actions[1..], i);
    }
  }

  /** How often a schedule lets job i take a step. */
  function Turns(actions: seq<Action>, i: nat): nat
    decreases |actions|
  {
    if actions == [] then 0 else (if actions[0] == Advance(i) then 1 else 0) + Turns(actions[1..], i)
  }

  /** No job can be stuck, whatever runs beside it: in any schedule that gives it enough turns, at most
      the steps it has left, it reaches the end the machine determines for it and its token is back. */
  lemma {:induction false} JobFinishes(s: System, actions: seq<Action>, i: nat)
    requires SysInv(s) && forall k :: 0 <= k < |actions| ==> Enabled(actions[k])
    requires i < |s.entries| && Turns(actions, i) >= Rank(s.entries[i].env, s.entries[i].job)
    ensures var e, t := s.entries[i], Run(s, actions);
            && i < |t.entries| && t.entries[i] == Entry(e.env, Settle(e.env, e.job))
            && !Active(t.entries[i]) && !Holds(t.entries[i])
    decreases |actions|
  {
    var e := s.entries[i];
    assert EntryOk(e);
    if actions == [] {
      RankZeroIsReleased(e.env, e.job);
      SettlesEnded(e.env, e.job);
    } else {
      ActKeeps(s, actions[0]);
      if actions[0] == Advance(i) {
        AdvanceOnce(s, i);
      } else {
        OthersLeaveAlone(s, actions[0], i);
      }
      JobFinishes(Act(s, actions[0]), actions[1..], i);
    }
  }

  lemma RankZeroIsReleased(env: Env, j: Job)
    requires Placed(env, j) && Rank(env, j) == 0
    ensures j.pc.Released?
  {
    if !j.pc.Released? {
      StepDecreasesRank(env, j);
    }
  }

  lemma OthersLeaveAlone(s: System, a: Action, i: nat)
    requires SysInv(s) && Enabled(a) && i < |s.entries| && a != Advance(i)
    ensures var t := Act(s, a); i < |t.entries| && t.entries[i] == s.entries[i]
  {
  }

  lemma AdvanceOnce(s: System, i: nat)
    requires SysInv(s) && i < |s.entries|
    ensures var e, t := s.entries[i], Act(s, Advance(i));
            && |t.entries| == |s.entries| && t.entries[i] == Entry(e.env, Next(e.env, e.job))
            && (Rank(e.env, e.job) > 0 ==> Rank(e.env, Next(e.env, e.job)) < Rank(e.env, e.job))
            && (Rank(e.env, e.job) == 0 ==> Next(e.env, e.job) == e.job)
            && Settle(e.env, Next(e.env, e.job)) == Settle(e.env, e.job)
  {
    var e := s.entries[i];
    AdvanceKeeps(s, i);
    assert EntryOk(e);
    if e.job.pc.Released? {
    } else {
      StepDecreasesRank(e.env, e.job);
    }
    StepSettles(e.env, e.job);
  }
}
