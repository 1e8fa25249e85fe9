/** One migration job (pkg/controller/migration.go): the goroutine as a step machine, one step per
    external call or critical section, and the sequential code that refines it. */
module MigrationMachine {
  import opened Options
  import opened Text

  datatype Stage = Decode | Filter | Output

  function StagePathFor(stage: Stage): string {
    match stage
    case Decode => "/data"
    case Filter => "/cache"
    case Output => "/output"
  }

  function BuildStagePlan(start: string): seq<Stage> {
    var name := ToLower(TrimSpace(start));
    if name == "filter" then [Filter, Output]
    else if name == "output" then [Output]
    else [Decode, Filter, Output]
  }

  /** An absent annotation reads as the empty string. */
  function ResolveRequestedStage(requested: string, annotation: string): string {
    if TrimSpace(requested) != "" then ToLower(TrimSpace(requested))
    else if TrimSpace(annotation) != "" then ToLower(TrimSpace(annotation))
    else "decode"
  }

  /** What the calls made for one stage come back with. */
  datatype StageEnv = StageEnv(dirOk: bool, created: Option<string>, waitOk: bool, deleteOk: bool, cleanupOk: bool)

  /** What all calls of one job come back with; any of them may fail. pod is the stage annotation of
      the original pod when that pod can be read, plan the stage plan that follows from it. */
  datatype Env = Env(
    captureOk: bool, preservePV: bool, checkpointOk: bool,
    requestedStage: string, pod: Option<string>, rootOk: bool,
    plan: seq<Stage>, at: Stage -> StageEnv, duration: int)

  /** The output stage comes last and only last. */
  predicate Proper(plan: seq<Stage>) {
    |plan| > 0 && forall i :: 0 <= i < |plan| ==> (plan[i] == Output <==> i == |plan| - 1)
  }

  /** The plan is the one the request, or else the pod's annotation, asks for. */
  predicate PlanFits(env: Env) {
    env.plan == BuildStagePlan(ResolveRequestedStage(env.requestedStage, if env.pod.Some? then env.pod.value else ""))
  }

  const ALL_STAGES := [Decode, Filter, Output]

  /** The text that decides: the request, the pod's annotation when the request is blank. */
  function Wish(env: Env): string {
    if TrimSpace(env.requestedStage) != "" then env.requestedStage
    else if env.pod.Some? then env.pod.value
    else ""
  }

  predicate Names(wish: string, stage: string) {
    ToLower(TrimSpace(wish)) == stage
  }

  /** A plan is always the tail of the full pipeline, from the stage the request names, or else the
      annotation; any other text, blank or unknown, means the whole pipeline. */
  lemma PlanIsTail(env: Env)
    requires PlanFits(env)
    ensures Proper(env.plan)
    ensures env.plan == ALL_STAGES[1..] <==> Names(Wish(env), "filter")
    ensures env.plan == ALL_STAGES[2..] <==> Names(Wish(env), "output")
    ensures env.plan == ALL_STAGES <==> !Names(Wish(env), "filter") && !Names(Wish(env), "output")
  {
    TrimSpaceTrims(Wish(env));
    LowerKeepsTrimmed(TrimSpace(Wish(env)));
    LowerKeepsTrimmed("decode");
    assert ToLower("decode") == "decode";
    assert ALL_STAGES[1..] == [Filter, Output] && ALL_STAGES[2..] == [Output];
  }

  datatype Status = Pending | Running | Completed | Failed

  datatype Mark = Started | Done | Broken

  datatype Transition = Transition(stage: Stage, mark: Mark, path: string)

  function Record(stage: Stage, mark: Mark): Transition {
    Transition(stage, mark, StagePathFor(stage))
  }

  /** Where the goroutine is: the call or critical section it makes next. */
  datatype Pc =
    | Queued | Capturing | Checkpointing | Preparing
    | Entering(i: nat) | Creating(i: nat) | Waiting(i: nat) | Finishing(i: nat) | Leaving(i: nat) | Tidying(i: nat)
    | DroppingOriginal | Completing | Failing | Releasing | Released
  {
    predicate InStage() {
      Entering? || Creating? || Waiting? || Finishing? || Leaving? || Tidying?
    }
  }

  /** live: stage pods created and not yet asked to be deleted. */
  datatype Job = Job(pc: Pc, status: Status, history: seq<Transition>, newPod: Option<string>,
                     live: multiset<string>, originalAsked: bool)

  const FRESH := Job(Queued, Pending, [], None, multiset{}, false)

  predicate Placed(env: Env, j: Job) {
    Proper(env.plan)
    && (j.pc.InStage() ==> j.pc.i < |env.plan|)
    && (j.pc.Waiting? || j.pc.Finishing? || j.pc.Leaving? ==> env.at(env.plan[j.pc.i]).created.Some?)
  }

  function Next(env: Env, j: Job): (r: Job)
    requires Placed(env, j)
    ensures Placed(env, r)
  {
    var plan := env.plan;
    match j.pc
    case Queued => j.(pc := Capturing, status := Running)
    case Capturing => j.(pc := if !env.captureOk then Failing else if env.preservePV then Checkpointing else Preparing)
    case Checkpointing => j.(pc := if env.checkpointOk then Preparing else Failing)
    case Preparing => j.(pc := if env.pod.Some? && env.rootOk then Entering(0) else Failing)
    case Entering(i) =>
      if env.at(plan[i]).dirOk
      then j.(pc := Creating(i), history := j.history + [Record(plan[i], Started)])
      else j.(pc := Failing)
    case Creating(i) =>
      (match env.at(plan[i]).created
       case Some(pod) => j.(pc := Waiting(i), live := j.live + multiset{pod})
       case None => j.(pc := Failing, history := j.history + [Record(plan[i], Broken)]))
    case Waiting(i) =>
      if env.at(plan[i]).waitOk then j.(pc := Finishing(i))
      else j.(pc := Failing, history := j.history + [Record(plan[i], Broken)])
    case Finishing(i) =>
      j.(pc := Leaving(i), history := j.history + [Record(plan[i], Done)], newPod := env.at(plan[i]).created)
    case Leaving(i) =>
      if plan[i] == Output then j.(pc := Tidying(i))
      else j.(pc := if env.at(plan[i]).deleteOk then Tidying(i) else Failing,
              live := j.live - multiset{env.at(plan[i]).created.value})
    case Tidying(i) =>
      if i > 0 && plan[i - 1] != Output && !env.at(plan[i]).cleanupOk then j.(pc := Failing)
      else j.(pc := if i + 1 < |plan| then Entering(i + 1) else DroppingOriginal)
    case DroppingOriginal => j.(pc := Completing, originalAsked := true)
    case Completing => j.(pc := Releasing, status := Completed)
    case Failing => j.(pc := Releasing, status := Failed)
    case Releasing => j.(pc := Released)
    case Released => j
  }

  // ----- what every reachable state satisfies

  /** (started, completed) for each stage in turn. */
  function Pairs(stages: seq<Stage>): seq<Transition> {
    if stages == [] then []
    else Pairs(stages[..|stages| - 1]) + [Record(stages[|stages| - 1], Started), Record(stages[|stages| - 1], Done)]
  }

  predicate AtStart(j: Job) {
    j.history == [] && j.newPod == None && j.live == multiset{} && !j.originalAsked
  }

  predicate WholePlanDone(env: Env, j: Job) {
    && env.at(Output).created.Some?
    && j.history == Pairs(env.plan) && j.newPod == env.at(Output).created
    && j.live == multiset{env.at(Output).created.value}
  }

  /** A failed job left the original alone and stopped somewhere, for a reason. */
  ghost predicate Broke(env: Env, j: Job) {
    !j.originalAsked && exists k :: 0 <= k <= |env.plan| && StoppedAt(env, j.history, j.live, k)
  }

  predicate StoppedAt(env: Env, history: seq<Transition>, live: multiset<string>, k: nat)
    requires k <= |env.plan|
  {
    StoppedBefore(env, history, live, k) || StoppedInside(env, history, live, k)
  }

  /** Between stages, with k of them done: a call that makes no entry in the history failed. */
  predicate StoppedBefore(env: Env, history: seq<Transition>, live: multiset<string>, k: nat)
    requires k <= |env.plan|
  {
    var plan := env.plan;
    && history == Pairs(plan[..k])
    && (k < |plan| ==> live == multiset{})
    && (k == |plan| ==> env.at(Output).created.Some? && live == multiset{env.at(Output).created.value})
    && (|| (k < |plan| && !env.at(plan[k]).dirOk)
        || (0 < k < |plan| && !env.at(plan[k - 1]).deleteOk)
        || (1 < k && !env.at(plan[k - 1]).cleanupOk)
        || (k == 0 && (!env.captureOk || (env.preservePV && !env.checkpointOk) || env.pod.None? || !env.rootOk)))
  }

  /** Inside the stage at index k: no pod was created, or the pod that was did not complete and still lives. */
  predicate StoppedInside(env: Env, history: seq<Transition>, live: multiset<string>, k: nat)
    requires k <= |env.plan|
  {
    && k < |env.plan| && BrokenIn(env, history, k) && env.at(env.plan[k]).dirOk
    && match env.at(env.plan[k]).created
       case None => live == multiset{}
       case Some(pod) => !env.at(env.plan[k]).waitOk && live == multiset{pod}
  }

  predicate BrokenIn(env: Env, history: seq<Transition>, k: nat)
    requires k < |env.plan|
  {
    history == Pairs(env.plan[..k]) + [Record(env.plan[k], Started), Record(env.plan[k], Broken)]
  }

  /** The inductive invariant, by position. */
  ghost predicate Inv(env: Env, j: Job) {
    var plan := env.plan;
    Placed(env, j) &&
    match j.pc
    case Queued => j.status == Pending && AtStart(j)
    case Capturing => j.status == Running && AtStart(j)
    case Checkpointing => j.status == Running && AtStart(j) && env.preservePV
    case Preparing => j.status == Running && AtStart(j)
    case Entering(i) =>
      j.status == Running && !j.originalAsked && j.history == Pairs(plan[..i]) && j.live == multiset{}
    case Creating(i) =>
      && j.status == Running && !j.originalAsked && j.live == multiset{} && env.at(plan[i]).dirOk
      && j.history == Pairs(plan[..i]) + [Record(plan[i], Started)]
    case Waiting(i) =>
      && j.status == Running && !j.originalAsked && j.live == multiset{env.at(plan[i]).created.value}
      && env.at(plan[i]).dirOk
      && j.history == Pairs(plan[..i]) + [Record(plan[i], Started)]
    case Finishing(i) =>
      && j.status == Running && !j.originalAsked && j.live == multiset{env.at(plan[i]).created.value}
      && j.history == Pairs(plan[..i]) + [Record(plan[i], Started)]
    case Leaving(i) =>
      && j.status == Running && !j.originalAsked && j.live == multiset{env.at(plan[i]).created.value}
      && j.history == Pairs(plan[..i + 1]) && j.newPod == env.at(plan[i]).created
    case Tidying(i) =>
      && j.status == Running && !j.originalAsked && j.history == Pairs(plan[..i + 1])
      && (if plan[i] == Output then WholePlanDone(env, j) else j.live == multiset{})
    case DroppingOriginal => j.status == Running && !j.originalAsked && WholePlanDone(env, j)
    case Completing => j.status == Running && j.originalAsked && WholePlanDone(env, j)
    case Failing => j.status == Running && Broke(env, j)
    case Releasing => Ended(env, j)
    case Released => Ended(env, j)
  }

  ghost predicate Ended(env: Env, j: Job) {
    || (j.status == Completed && j.originalAsked && WholePlanDone(env, j))
    || (j.status == Failed && Broke(env, j))
  }

  lemma PairsExtend(env: Env, i: nat)
    requires i < |env.plan|
    ensures var plan := env.plan;
            Pairs(plan[..i + 1]) == Pairs(plan[..i]) + [Record(plan[i], Started)] + [Record(plan[i], Done)]
    ensures env.plan[..|env.plan|] == env.plan
  {
    var plan := env.plan;
    assert plan[..i + 1][..i] == plan[..i];
  }

  lemma BreaksHere(env: Env, j: Job, k: nat)
    requires k <= |env.plan| && StoppedAt(env, j.history, j.live, k) && !j.originalAsked
    ensures Broke(env, j) && |j.live| <= 1
  {
  }

  lemma EarlyStepKeepsInv(env: Env, j: Job)
    requires Inv(env, j) && Early(j.pc)
    ensures Inv(env, Next(env, j))
  {
    if Next(env, j).pc.Failing? {
      BreaksHere(env, Next(env, j), 0);
    }
  }

  lemma StageStepKeepsInv(env: Env, j: Job)
    requires Inv(env, j) && j.pc.InStage() && !j.pc.Leaving? && !j.pc.Tidying?
    ensures Inv(env, Next(env, j))
  {
    PairsExtend(env, j.pc.i);
    if Next(env, j).pc.Failing? {
      BreaksHere(env, Next(env, j), j.pc.i);
    }
  }

  lemma LeavingKeepsInv(env: Env, j: Job)
    requires Inv(env, j) && j.pc.Leaving?
    ensures Inv(env, Next(env, j))
  {
    PairsExtend(env, j.pc.i);
    if Next(env, j).pc.Failing? {
      BreaksHere(env, Next(env, j), j.pc.i + 1);
    }
  }

  lemma TidyingKeepsInv(env: Env, j: Job)
    requires Inv(env, j) && j.pc.Tidying?
    ensures Inv(env, Next(env, j))
  {
    if Next(env, j).pc.Failing? {
      BreaksHere(env, Next(env, j), j.pc.i + 1);
    }
  }

  lemma StepKeepsInv(env: Env, j: Job)
    requires Inv(env, j)
    ensures Inv(env, Next(env, j))
  {
    if j.pc.Leaving? {
      LeavingKeepsInv(env, j);
    } else if j.pc.Tidying? {
      TidyingKeepsInv(env, j);
    } else if j.pc.InStage() {
      StageStepKeepsInv(env, j);
    } else if Early(j.pc) {
      EarlyStepKeepsInv(env, j);
    }
  }

  /** The history of any reachable state: pairs for a prefix of the plan, then at most one stage that
      is under way (only while the job runs) or broken. */
  ghost predicate HistoryShape(env: Env, j: Job) {
    var plan := env.plan;
    exists k :: 0 <= k <= |plan| && ShapedAt(env, j, k)
  }

  predicate ShapedAt(env: Env, j: Job, k: nat)
    requires k <= |env.plan|
  {
    || j.history == Pairs(env.plan[..k])
    || (k < |env.plan| && BrokenIn(env, j.history, k))
    || UnderWayAt(env, j, k)
  }

  predicate UnderWayAt(env: Env, j: Job, k: nat)
    requires k <= |env.plan|
  {
    var plan := env.plan;
    k < |plan| && j.status == Running && j.history == Pairs(plan[..k]) + [Record(plan[k], Started)]
  }

  ghost predicate Safe(env: Env, j: Job) {
    && HistoryShape(env, j)
    && |j.live| <= 1
    && (j.originalAsked ==> WholePlanDone(env, j))
    && (j.status == Completed ==> j.originalAsked && WholePlanDone(env, j))
    && (j.status == Failed ==> Broke(env, j))
  }

  lemma InvIsSafe(env: Env, j: Job)
    requires Inv(env, j)
    ensures Safe(env, j)
  {
    var plan := env.plan;
    if j.pc.InStage() {
      PairsExtend(env, j.pc.i);
      var k := if j.pc.Leaving? || j.pc.Tidying? then j.pc.i + 1 else j.pc.i;
      assert ShapedAt(env, j, k);
    } else if Early(j.pc) {
      assert ShapedAt(env, j, 0);
    } else if Broke(env, j) {
      BrokeIsSafe(env, j);
    } else {
      PairsExtend(env, 0);
      assert ShapedAt(env, j, |plan|);
    }
  }

  lemma BrokeIsSafe(env: Env, j: Job)
    requires Placed(env, j) && Broke(env, j)
    ensures HistoryShape(env, j) && |j.live| <= 1
  {
    var k :| 0 <= k <= |env.plan| && StoppedAt(env, j.history, j.live, k);
    assert ShapedAt(env, j, k);
  }

  ghost function Steps(env: Env, j: Job, n: nat): (r: Job)
    requires Placed(env, j)
    ensures Placed(env, r)
  {
    if n == 0 then j else Next(env, Steps(env, j, n - 1))
  }

  /** What every step keeps holds after any number of steps. */
  lemma {:induction false} StepsKeep(env: Env, j: Job, n: nat, good: Job -> bool)
    requires Placed(env, j) && good(j)
    requires forall x :: Placed(env, x) && good(x) ==> good(Next(env, x))
    ensures good(Steps(env, j, n))
  {
    if n > 0 {
      StepsKeep(env, j, n - 1, good);
    }
  }

  lemma StepsKeepInv(env: Env, n: nat)
    requires Proper(env.plan)
    ensures Inv(env, Steps(env, FRESH, n))
  {
    var good := (x: Job) => Inv(env, x);
    forall x | Placed(env, x) && good(x) ensures good(Next(env, x)) {
      StepKeepsInv(env, x);
    }
    StepsKeep(env, FRESH, n, good);
  }

  /** Safety of every reachable state of a job, whatever fails and wherever. */
  lemma JobSafety(env: Env, n: nat)
    requires Proper(env.plan)
    ensures var j := Steps(env, FRESH, n); Inv(env, j) && Safe(env, j)
  {
    StepsKeepInv(env, n);
    InvIsSafe(env, Steps(env, FRESH, n));
  }

  // ----- termination

  /** Steps left, at most. */
  function Rank(env: Env, j: Job): nat
    requires Placed(env, j)
  {
    Offset(j.pc) + 6 * (if j.pc.InStage() then |env.plan| - 1 - j.pc.i else if Early(j.pc) then |env.plan| - 1 else 0)
  }

  predicate Early(pc: Pc) {
    pc.Queued? || pc.Capturing? || pc.Checkpointing? || pc.Preparing?
  }

  function Offset(pc: Pc): nat {
    match pc
    case Queued => 13 case Capturing => 12 case Checkpointing => 11 case Preparing => 10
    case Entering(_) => 9 case Creating(_) => 8 case Waiting(_) => 7
    case Finishing(_) => 6 case Leaving(_) => 5 case Tidying(_) => 4
    case DroppingOriginal => 3 case Completing => 2 case Failing => 2 case Releasing => 1 case Released => 0
  }

  lemma OpeningStepDecreasesRank(env: Env, j: Job)
    requires Placed(env, j) && (j.pc.Entering? || j.pc.Creating? || j.pc.Waiting?)
    ensures Rank(env, Next(env, j)) < Rank(env, j)
  {
  }

  lemma ClosingStepDecreasesRank(env: Env, j: Job)
    requires Placed(env, j) && (j.pc.Finishing? || j.pc.Leaving? || j.pc.Tidying?)
    ensures Rank(env, Next(env, j)) < Rank(env, j)
  {
  }

  lemma StageStepDecreasesRank(env: Env, j: Job)
    requires Placed(env, j) && j.pc.InStage()
    ensures Rank(env, Next(env, j)) < Rank(env, j)
  {
    if j.pc.Entering? || j.pc.Creating? || j.pc.Waiting? {
      OpeningStepDecreasesRank(env, j);
    } else {
      ClosingStepDecreasesRank(env, j);
    }
  }

  lemma StepDecreasesRank(env: Env, j: Job)
    requires Placed(env, j) && !j.pc.Released?
    ensures Rank(env, Next(env, j)) < Rank(env, j)
  {
    if j.pc.InStage() {
      StageStepDecreasesRank(env, j);
    }
  }

  /** The state in which the job's goroutine ends. */
  function Settle(env: Env, j: Job): Job
    requires Placed(env, j)
    decreases Rank(env, j)
  {
    if j.pc.Released? then j
    else
      StepDecreasesRank(env, j);
      Settle(env, Next(env, j))
  }

  lemma StepSettles(env: Env, j: Job)
    requires Placed(env, j)
    ensures Settle(env, Next(env, j)) == Settle(env, j)
  {
  }

  /** How a job ends: completed with everything done, or failed with the original pod untouched. */
  lemma {:induction false} SettlesEnded(env: Env, j: Job)
    requires Inv(env, j)
    ensures var r := Settle(env, j); r.pc.Released? && Inv(env, r) && Ended(env, r)
    decreases Rank(env, j)
  {
    if !j.pc.Released? {
      StepKeepsInv(env, j);
      StepDecreasesRank(env, j);
      SettlesEnded(env, Next(env, j));
    }
  }

  /** No call made for the stage at index i fails. */
  predicate StageOk(env: Env, i: nat)
    requires i < |env.plan|
  {
    var stage := env.plan[i]; var e := env.at(stage);
    e.dirOk && e.created.Some? && e.waitOk && (stage != Output ==> e.deleteOk) && (i > 0 ==> e.cleanupOk)
  }

  /** No call made from the stage at an index on fails. */
  predicate StagesOk(env: Env, from: nat)
    decreases |env.plan| - from
  {
    from < |env.plan| ==> StageOk(env, from) && StagesOk(env, from + 1)
  }

  predicate AllGoesWell(env: Env) {
    env.captureOk && (env.preservePV ==> env.checkpointOk) && env.pod.Some? && env.rootOk && StagesOk(env, 0)
  }

  /** What must still go well from a position. */
  predicate GoesWellFrom(env: Env, j: Job)
    requires Placed(env, j)
  {
    match j.pc
    case Queued => AllGoesWell(env)
    case Capturing => AllGoesWell(env)
    case Checkpointing => env.checkpointOk && env.pod.Some? && env.rootOk && StagesOk(env, 0)
    case Preparing => env.pod.Some? && env.rootOk && StagesOk(env, 0)
    case Entering(i) => StagesOk(env, i)
    case Creating(i) =>
      var e := env.at(env.plan[i]); e.created.Some? && e.waitOk && LeavesOk(env, i) && StagesOk(env, i + 1)
    case Waiting(i) => env.at(env.plan[i]).waitOk && LeavesOk(env, i) && StagesOk(env, i + 1)
    case Finishing(i) => LeavesOk(env, i) && StagesOk(env, i + 1)
    case Leaving(i) => LeavesOk(env, i) && StagesOk(env, i + 1)
    case Tidying(i) => (i > 0 ==> env.at(env.plan[i]).cleanupOk) && StagesOk(env, i + 1)
    case DroppingOriginal => true
    case Completing => true
    case Failing => false
    case Releasing => j.status == Completed
    case Released => j.status == Completed
  }

  predicate LeavesOk(env: Env, i: nat)
    requires i < |env.plan|
  {
    var stage := env.plan[i]; var e := env.at(stage);
    (stage != Output ==> e.deleteOk) && (i > 0 ==> e.cleanupOk)
  }

  lemma OpeningStepKeepsProspects(env: Env, j: Job)
    requires Placed(env, j) && (j.pc.Entering? || j.pc.Creating? || j.pc.Waiting?)
    ensures GoesWellFrom(env, Next(env, j)) <==> GoesWellFrom(env, j)
  {
  }

  lemma FinishingKeepsProspects(env: Env, j: Job)
    requires Placed(env, j) && j.pc.Finishing?
    ensures GoesWellFrom(env, Next(env, j)) <==> GoesWellFrom(env, j)
  {
  }

  lemma LeavingKeepsProspects(env: Env, j: Job)
    requires Placed(env, j) && j.pc.Leaving?
    ensures GoesWellFrom(env, Next(env, j)) <==> GoesWellFrom(env, j)
  {
  }

  lemma TidyingKeepsProspects(env: Env, j: Job)
    requires Placed(env, j) && j.pc.Tidying?
    ensures GoesWellFrom(env, Next(env, j)) <==> GoesWellFrom(env, j)
  {
  }

  lemma StageStepKeepsProspects(env: Env, j: Job)
    requires Placed(env, j) && j.pc.InStage()
    ensures GoesWellFrom(env, Next(env, j)) <==> GoesWellFrom(env, j)
  {
    if j.pc.Entering? || j.pc.Creating? || j.pc.Waiting? {
      OpeningStepKeepsProspects(env, j);
    } else if j.pc.Finishing? {
      FinishingKeepsProspects(env, j);
    } else if j.pc.Leaving? {
      LeavingKeepsProspects(env, j);
    } else {
      TidyingKeepsProspects(env, j);
    }
  }

  lemma StepKeepsProspects(env: Env, j: Job)
    requires Placed(env, j)
    ensures GoesWellFrom(env, Next(env, j)) <==> GoesWellFrom(env, j)
  {
    if j.pc.InStage() {
      StageStepKeepsProspects(env, j);
    }
  }

  lemma {:induction false} SettlesAsProspected(env: Env, j: Job)
    requires Placed(env, j)
    ensures Settle(env, j).status == Completed <==> GoesWellFrom(env, j)
    decreases Rank(env, j)
  {
    if !j.pc.Released? {
      StepKeepsProspects(env, j);
      StepDecreasesRank(env, j);
      SettlesAsProspected(env, Next(env, j));
    }
  }

  /** A job completes exactly when no call its plan needs fails. Failing to delete the original pod is
      not among them. */
  lemma CompletesExactlyWhen(env: Env)
    requires Proper(env.plan)
    ensures Settle(env, FRESH).status == Completed <==> AllGoesWell(env)
  {
    SettlesAsProspected(env, FRESH);
  }

  /** The whole pipeline, when nothing fails: what the job's record shows in the end. */
  lemma WholePipelineRecord(env: Env)
    requires env.plan == ALL_STAGES && AllGoesWell(env)
    ensures var r := Settle(env, FRESH);
            && r.status == Completed && r.originalAsked && r.newPod == env.at(Output).created
            && r.history == [Transition(Decode, Started, "/data"), Transition(Decode, Done, "/data"),
                             Transition(Filter, Started, "/cache"), Transition(Filter, Done, "/cache"),
                             Transition(Output, Started, "/output"), Transition(Output, Done, "/output")]
  {
    CompletesExactlyWhen(env);
    SettlesEnded(env, FRESH);
    assert ALL_STAGES[..2] == [Decode, Filter] && [Decode, Filter][..1] == [Decode] && [Decode][..0] == [];
    assert Pairs([Decode]) == [Record(Decode, Started), Record(Decode, Done)];
    assert Pairs([Decode, Filter]) == Pairs([Decode]) + [Record(Filter, Started), Record(Filter, Done)];
  }
}
