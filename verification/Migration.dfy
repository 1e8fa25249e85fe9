/** The migration controller's sequential code (pkg/controller/migration.go), refined to the machine. */
module Migration {
  import opened Options
  import opened MigrationMachine
  import RunningMean

  datatype Metrics = Metrics(total: nat, successful: nat, failed: nat, averageDuration: int)

  const NO_MIGRATIONS := Metrics(0, 0, 0, 0)

  /** completeMigration's and failMigration's effect on the metrics. */
  function Succeeded(m: Metrics, duration: int): Metrics {
    m.(total := m.total + 1, successful := m.successful + 1,
       averageDuration := RunningMean.Update(m.averageDuration, m.total + 1, duration))
  }

  function FailedOnce(m: Metrics): Metrics {
    m.(failed := m.failed + 1)
  }

  class MigrationJob {
    const env: Env
    var status: Status
    var stageHistory: seq<Transition>
    var newPodName: Option<string>
    ghost var pc: Pc
    ghost var live: multiset<string>
    ghost var originalAsked: bool

    ghost function View(): Job
      reads this
    {
      Job(pc, status, stageHistory, newPodName, live, originalAsked)
    }

    constructor (env: Env)
      ensures this.env == env && View() == FRESH
    {
      this.env := env;
      status, stageHistory, newPodName := Pending, [], None;
      pc, live, originalAsked := Queued, multiset{}, false;
    }

    method RecordStageTransition(stage: Stage, mark: Mark)
      modifies this`stageHistory
      ensures stageHistory == old(stageHistory) + [Record(stage, mark)]
    {
      stageHistory := stageHistory + [Transition(stage, mark, StagePathFor(stage))];
    }

    // One turn of the pipeline loop, call by call.

    method EnterStage(stage: Stage, ghost i: nat) returns (ok: bool)
      requires pc == Entering(i) && Placed(env, View()) && stage == env.plan[i]
      modifies this
      ensures View() == Next(env, old(View())) && pc == if ok then Creating(i) else Failing
    {
      if !env.at(stage).dirOk {
        pc := Failing;
        return false;
      }
      RecordStageTransition(stage, Started);
      pc, ok := Creating(i), true;
    }

    method CreateStagePod(stage: Stage, ghost i: nat) returns (created: Option<string>)
      requires pc == Creating(i) && Placed(env, View()) && stage == env.plan[i]
      modifies this
      ensures View() == Next(env, old(View())) && pc == if created.Some? then Waiting(i) else Failing
      ensures created == env.at(stage).created
    {
      created := env.at(stage).created;
      if created.None? {
        RecordStageTransition(stage, Broken);
        pc := Failing;
        return;
      }
      live, pc := live + multiset{created.value}, Waiting(i);
    }

    method WaitForStage(stage: Stage, ghost i: nat) returns (ok: bool)
      requires pc == Waiting(i) && Placed(env, View()) && stage == env.plan[i]
      modifies this
      ensures View() == Next(env, old(View())) && pc == if ok then Finishing(i) else Failing
    {
      ok := env.at(stage).waitOk;
      if !ok {
        RecordStageTransition(stage, Broken);
        pc := Failing;
        return;
      }
      pc := Finishing(i);
    }

    method FinishStage(stage: Stage, ghost i: nat, pod: string)
      requires pc == Finishing(i) && Placed(env, View()) && stage == env.plan[i] && env.at(stage).created == Some(pod)
      modifies this
      ensures View() == Next(env, old(View())) && pc == Leaving(i)
    {
      newPodName := Some(pod);
      RecordStageTransition(stage, Done);
      pc := Leaving(i);
    }

    method DropStagePod(stage: Stage, ghost i: nat, pod: string) returns (ok: bool)
      requires pc == Leaving(i) && Placed(env, View()) && stage == env.plan[i] && env.at(stage).created == Some(pod)
      modifies this
      ensures View() == Next(env, old(View())) && pc == if ok then Tidying(i) else Failing
    {
      if stage != Output {
        live := live - multiset{pod};
        if !env.at(stage).deleteOk {
          pc := Failing;
          return false;
        }
      }
      pc, ok := Tidying(i), true;
    }

    method TidyPrevious(plan: seq<Stage>, i: nat) returns (ok: bool)
      requires pc == Tidying(i) && Placed(env, View()) && plan == env.plan
      modifies this
      ensures View() == Next(env, old(View()))
      ensures pc == if !ok then Failing else if i + 1 < |plan| then Entering(i + 1) else DroppingOriginal
    {
      if i > 0 {
        if plan[i - 1] != Output {
          if !env.at(plan[i]).cleanupOk {
            pc := Failing;
            return false;
          }
        }
      }
      pc, ok := if i + 1 < |plan| then Entering(i + 1) else DroppingOriginal, true;
    }

    method ExecuteStage(plan: seq<Stage>, i: nat) returns (ok: bool)
      requires pc == Entering(i) && Placed(env, View()) && plan == env.plan
      modifies this
      ensures Placed(env, View()) && Settle(env, View()) == old(Settle(env, View()))
      ensures pc == if !ok then Failing else if i + 1 < |plan| then Entering(i + 1) else DroppingOriginal
    {
      StepSettles(env, View());
      ok := EnterStage(plan[i], i);
      if !ok {
        return;
      }
      StepSettles(env, View());
      var created := CreateStagePod(plan[i], i);
      if created.None? {
        return false;
      }
      StepSettles(env, View());
      ok := WaitForStage(plan[i], i);
      if !ok {
        return;
      }
      StepSettles(env, View());
      FinishStage(plan[i], i, created.value);
      StepSettles(env, View());
      ok := DropStagePod(plan[i], i, created.value);
      if !ok {
        return;
      }
      StepSettles(env, View());
      ok := TidyPrevious(plan, i);
    }

    /** Reads the original pod for its stage annotation and makes the checkpoint's root directory. */
    method PlanStages() returns (plan: seq<Stage>, ok: bool)
      requires pc == Preparing && PlanFits(env) && Placed(env, View())
      modifies this
      ensures Placed(env, View()) && Settle(env, View()) == old(Settle(env, View()))
      ensures pc == (if ok then Entering(0) else Failing) && (ok ==> plan == env.plan)
    {
      StepSettles(env, View());
      if env.pod.None? {
        pc := Failing;
        return [], false;
      }
      plan := BuildStagePlan(ResolveRequestedStage(env.requestedStage, env.pod.value));
      if !env.rootOk {
        pc := Failing;
        return plan, false;
      }
      pc, ok := Entering(0), true;
    }

    method ExecuteStagePipeline() returns (ok: bool)
      requires pc == Preparing && PlanFits(env) && Placed(env, View())
      modifies this
      ensures Placed(env, View()) && Settle(env, View()) == old(Settle(env, View()))
      ensures pc == if ok then DroppingOriginal else Failing
    {
      var plan;
      plan, ok := PlanStages();
      if !ok {
        return;
      }
      for i := 0 to |plan|
        invariant pc == if i < |plan| then Entering(i) else DroppingOriginal
        invariant Placed(env, View()) && Settle(env, View()) == old(Settle(env, View()))
      {
        ok := ExecuteStage(plan, i);
        if !ok {
          return;
        }
      }
      ok := true;
    }
  }

  class MigrationController {
    const capacity: nat
    var tokens: nat  // concurrencyCh's length
    var migrations: map<string, MigrationJob>
    var metrics: Metrics

    constructor (maxConcurrent: nat)
      requires maxConcurrent > 0
      ensures capacity == maxConcurrent && tokens == 0 && migrations == map[] && metrics == NO_MIGRATIONS
    {
      capacity, tokens, migrations, metrics := maxConcurrent, 0, map[], NO_MIGRATIONS;
    }

    method StartMigration(id: string, env: Env) returns (job: MigrationJob?)
      modifies this
      ensures metrics == old(metrics)
      ensures job == null <==> old(tokens) >= capacity
      ensures job == null ==> tokens == old(tokens) && migrations == old(migrations)
      ensures job != null ==>
                && fresh(job) && job.env == env && job.View() == FRESH
                && tokens == old(tokens) + 1 && migrations == old(migrations)[id := job]
    {
      if tokens >= capacity {
        return null;
      }
      tokens := tokens + 1;
      job := new MigrationJob(env);
      migrations := migrations[id := job];
    }

    method FailMigration(job: MigrationJob)
      requires job.pc == Failing && Placed(job.env, job.View())
      modifies this`metrics, job
      ensures job.View() == Next(job.env, old(job.View())) && job.pc == Releasing && job.status == Failed
      ensures metrics == FailedOnce(old(metrics))
    {
      job.status, job.pc := Failed, Releasing;
      metrics := metrics.(failed := metrics.failed + 1);
    }

    method CompleteMigration(job: MigrationJob)
      requires job.pc == Completing && Placed(job.env, job.View())
      modifies this`metrics, job
      ensures job.View() == Next(job.env, old(job.View())) && job.pc == Releasing && job.status == Completed
      ensures metrics == Succeeded(old(metrics), job.env.duration)
    {
      job.status, job.pc := Completed, Releasing;
      var total, successful := metrics.total + 1, metrics.successful + 1;
      var average := RunningMean.GoDiv(metrics.averageDuration * (total - 1) + job.env.duration, total);
      metrics := metrics.(total := total, successful := successful, averageDuration := average);
    }

    /** The original pod is asked to go; a failure is only logged. */
    method DeleteOriginalPod(job: MigrationJob)
      requires job.pc == DroppingOriginal && Placed(job.env, job.View())
      modifies job
      ensures job.View() == Next(job.env, old(job.View())) && job.pc == Completing
    {
      job.originalAsked, job.pc := true, Completing;
    }

    method Release(job: MigrationJob)
      requires job.pc == Releasing && Placed(job.env, job.View()) && tokens > 0
      modifies this`tokens, job
      ensures job.View() == Next(job.env, old(job.View())) && job.pc == Released && job.status == old(job.status)
      ensures tokens == old(tokens) - 1
    {
      tokens := tokens - 1;
      job.pc := Released;
    }

    method Prepare(job: MigrationJob) returns (ok: bool)
      requires job.View() == FRESH && Proper(job.env.plan)
      modifies job
      ensures Placed(job.env, job.View()) && Settle(job.env, job.View()) == Settle(job.env, FRESH)
      ensures job.pc == if ok then Preparing else Failing
    {
      ghost var env := job.env;
      job.status, job.pc := Running, Capturing;
      StepSettles(env, FRESH);
      ghost var v := job.View();
      if !job.env.captureOk {
        job.pc := Failing;
        StepSettles(env, v);
        return false;
      }
      if job.env.preservePV {
        job.pc := Checkpointing;
        StepSettles(env, v);
        v := job.View();
        if !job.env.checkpointOk {
          job.pc := Failing;
          StepSettles(env, v);
          return false;
        }
      }
      job.pc := Preparing;
      StepSettles(env, v);
      ok := true;
    }

    /** executeMigration's body, up to its deferred release. */
    method Run(job: MigrationJob)
      requires job.View() == FRESH && PlanFits(job.env) && Proper(job.env.plan)
      modifies this`metrics, job
      ensures Placed(job.env, job.View()) && job.pc == Releasing
      ensures Settle(job.env, job.View()) == Settle(job.env, FRESH)
      ensures job.status == Completed || job.status == Failed
      ensures metrics ==
                if job.status == Completed then Succeeded(old(metrics), job.env.duration) else FailedOnce(old(metrics))
    {
      var ok := Prepare(job);
      if ok {
        ok := job.ExecuteStagePipeline();
      }
      if !ok {
        StepSettles(job.env, job.View());
        FailMigration(job);
        return;
      }
      StepSettles(job.env, job.View());
      DeleteOriginalPod(job);
      StepSettles(job.env, job.View());
      CompleteMigration(job);
    }

    /** executeMigration: it ends where the machine ends, gives back its token and counts itself once. */
    method ExecuteMigration(job: MigrationJob)
      requires job.View() == FRESH && PlanFits(job.env) && Proper(job.env.plan) && tokens > 0
      modifies this, job
      ensures job.View() == Settle(job.env, FRESH)
      ensures tokens == old(tokens) - 1 && migrations == old(migrations)
      ensures metrics ==
                if job.status == Completed then Succeeded(old(metrics), job.env.duration) else FailedOnce(old(metrics))
    {
      Run(job);
      StepSettles(job.env, job.View());
      Release(job);
    }
  }
}
