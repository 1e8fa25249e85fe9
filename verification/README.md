# Storage orchestrator and scheduler: a verified model

This project models the decision logic of the AI Storage Orchestrator and of the AI Storage Scheduler in Dafny and
proves what it guarantees: over whole runs of the autoscalers, over every interleaving of migrations, through the
string-valued accounting of preemption, and for the planners, caches and pod rewriting around them.

`dafny verify dfyconfig.toml` checks everything.

## What is modelled

**Autoscaling.** `Autoscaling` is the REST controller, `StorageHpa` the CRD reconciler; each keeps the classes and
fields of its source file and is proved against a function of the old state. `AutoscalerRuns` closes the loop (only
the controller changes replicas; reads and scale calls may fail) and proves an inductive invariant that links the
scale-down history to the current replicas, safety of every tick of every run, convergence into the range at any
spacing of the ticks, and that the pruned history computes a sliding-window maximum over a log that is never pruned.
`AutoscalerEquivalence` compares the two implementations over whole runs; they differ in one case only, an explicit
zero scale-down window, and equivalence is proved to hold if and only if that case is absent or nothing can be scaled
down. `StorageHpaRuns` gives safety and convergence of the reconciler for every spec its schema admits, and what
remains of safety when the resource is edited during the run.

**Migration.** `MigrationMachine` is one job as a step machine, one step per external call or critical section, any of
which may fail. `Migration` is the sequential code, proved to end in the state the machine settles in. `MigrationRuns`
interleaves any number of jobs and requests around the shared semaphore and metrics: every job that gets its turns
ends, as determined, exactly once. `RunningMean` gives the exact error bound of the incrementally updated integer
mean, and shows it is attained.

**Preemption.** `Decimal` and `Quantity` are the printers and parsers ("1500m", "3Gi"), `QuantityTexts` the grammar
they accept and what its units are worth; `Preemption` is the selection (in-place sort and flags) and the eviction
round; `PreemptionAccounting` carries the figures through print-and-parse and says what the TargetAchieved field and
the running totals mean in true bytes and cores. Targets that parse to zero or less are never achieved; the memory
total keeps up exactly while every partial sum prints without loss.

**Load balancing.** `LoadBalancing` and `LoadSpreading` are two planners and the execution loop. `LoadBalancingPlans`
proves what each move keeps to and the exact effect of a plan on the spread of pods. All moves of a pod_count plan go to
the same node, so a long plan can overshoot; when it does is stated exactly, with a family of clusters on which it does.

**Pods and volumes.** `OptimizedPod` is the pod a migration stage runs in, `StorageMutation` the injection of the
standard volumes.

**Scheduler.** `PolicyCache` is the APOLLO policy cache, for any interleaving of its locked sections;
`PluginFramework` scores nodes with weights in 64-bit arithmetic and intersects prefilter node sets.

**Caching.** `Caching` relates the counters to the stored caches over any sequence of operations;
`Sharding` is the assignment of files to shards.

`Scaling`, `Options`, `Text`, `Arithmetic`, `Sorting` and `Pods` hold what several of these share.

## Where the code and its comments differ

- `storage_mutation.go:18-19` says a user's own mount on a standard path is overridden; the code keeps it
  (`StorageMutation.ServedExactlyWhen`).
- `loadbalancing.go:677` calls the load-spreading target the least loaded node; it is the most loaded of the
  underloaded ones (`LoadSpreading.SpreadIsSound`).
- TotalMigrations counts completed migrations only (`MigrationRuns.ControllerSafety`).

## Conventions

- Integers are unbounded except where a width matters: replica counts are int32 values, quantities and plugin scores
  int64 values, and the conversions that saturate, truncate or wrap are written out.
- `int32(float64(a) * float64(b) / float64(c))` is integer division while float64 is exact (products up to 2^53);
  beyond that, and where the conversion overflows, a function parameter stands for whatever the platform yields, so the
  theorems hold for every such platform. Parsing of quantities is treated the same way.
- Time is an integer number of nanoseconds. Kubernetes, gRPC and file-system calls are parameters that may fail.
- `sort.Slice` promises an order and a permutation and nothing about ties (`Sorting`).

## Model

| member | source | states |
|---|---|---|
| `Autoscaling.AutoscalingJob.CalculateDesiredReplicas` | ai-storage-orchestrator/pkg/controller/autoscaling.go:235-320 | The imperative decision equals the decision function of which WantedIsLeastCover, DesiredIsNearest and LimitBounds are proved. |
| `Autoscaling.AutoscalingJob.Constrain` | ai-storage-orchestrator/pkg/controller/autoscaling.go:292-319 | Clamping and the two per-step limits, as the code applies them, equal the limit function. |
| `Autoscaling.AutoscalingJob.ApplyStabilizationWindow` | ai-storage-orchestrator/pkg/controller/autoscaling.go:324-404 | The two history fields and the answer after one call: append, prune by age, maximum; cleared when no change is wanted. |
| `Autoscaling.AutoscalingJob.Tick` | ai-storage-orchestrator/pkg/controller/autoscaling.go:155-231 | One turn of the loop: workload, histories and counters afterwards, with unreadable metrics or a failed scale call changing exactly what the code changes; the pair of workload and histories moves as the closed-loop step of RunSafety. |
| `Scaling.Prune` | ai-storage-orchestrator/pkg/controller/autoscaling.go:346-353 | The pruning loop keeps, in order, exactly the entries younger than the cutoff. |
| `Scaling.Largest` | ai-storage-orchestrator/pkg/controller/autoscaling.go:357-362 | The maximum loop over a non-empty history returns the highest recommendation in it. |
| `AutoscalerRuns.WantedIsLeastCover` | ai-storage-orchestrator/pkg/controller/autoscaling.go:235-290 | Before clamping, the count covers every configured metric, and some metric asks for exactly this count (exact integer quotients). |
| `AutoscalerRuns.DesiredIsNearest` | ai-storage-orchestrator/pkg/controller/autoscaling.go:292-319 | From a count in range, the decision is allowed by range and step limits, and no allowed count is nearer to what the metrics want. |
| `AutoscalerRuns.LimitBounds` | ai-storage-orchestrator/pkg/controller/autoscaling.go:292-319 | From any count, in range or not: a decision moves towards the range, never leaves it again and never drops by more than the scale-down limit. |
| `AutoscalerRuns.TickSafety` | ai-storage-orchestrator/pkg/controller/autoscaling.go:155-404 | From any state satisfying the run invariant, a tick keeps it; a scale-down tick never raises replicas nor removes more than the limit; below the minimum a successful tick strictly raises without passing the maximum; a failed call changes nothing. |
| `AutoscalerRuns.RunSafety` | ai-storage-orchestrator/pkg/controller/autoscaling.go:155-404 | In every state of every run every scale-down entry is at most the current replicas, and a workload that starts in range stays in range. |
| `AutoscalerRuns.Convergence` | ai-storage-orchestrator/pkg/controller/autoscaling.go:155-404 | Liveness at any spacing of the ticks and with any failures in between: whatever the metrics say, the distance to the range falls by at least one per scale-down window closed by a successful tick. |
| `AutoscalerRuns.ClimbsFromBelow` | ai-storage-orchestrator/pkg/controller/autoscaling.go:155-404 | Not above the range, no spacing is needed: each successful tick climbs at least one, whatever the clock does, and the maximum is never passed. |
| `AutoscalerRuns.ConvergenceInTime` | ai-storage-orchestrator/pkg/controller/autoscaling.go:155-404 | With successful ticks at most c apart (15 s in the code), the workload is in range once a window and c have passed for every replica it was off. |
| `AutoscalerRuns.DefaultConvergence` | ai-storage-orchestrator/pkg/controller/autoscaling.go:155-404 | With the default window of 300 s and the ticker's 15 s that is 315 s for every replica. |
| `AutoscalerRuns.DownRaisesExactlyWhen` | ai-storage-orchestrator/pkg/controller/autoscaling.go:324-404 | Where others change the workload too: a decision to scale down is answered with more replicas than there are if and only if an entry younger than the window says so. |
| `AutoscalerRuns.LogMeaning` | ai-storage-orchestrator/pkg/controller/autoscaling.go:324-404 | The never-pruned log holds exactly the recommendations of one direction made since the last no-change tick. |
| `AutoscalerRuns.WindowRefinesLog` | ai-storage-orchestrator/pkg/controller/autoscaling.go:324-404 | With a clock that never goes back, the answer from the pruned history is the maximum over the entries of the full log that are younger than the window, in both directions; without a scale-up window the newest wins. |
| `StorageHpa.Reconciler.CalculateDesiredReplicas` | ai-storage-orchestrator/pkg/controller/storagehpa_controller.go:240-324 | The reconciler's own decision code equals its decision function. |
| `StorageHpa.Reconciler.ApplyStabilizationWindow` | ai-storage-orchestrator/pkg/controller/storagehpa_controller.go:327-393 | Replaces one key's histories by the stabilised ones and leaves every other key alone. |
| `StorageHpa.Reconciler.Reconcile` | ai-storage-orchestrator/pkg/controller/storagehpa_controller.go:90-156 | One reconcile under every failure: what happens to the workload, the stored histories and the status, and when the next one is due (never, after 15 s, after 30 s, or as an error), when the resource is missing or cannot be read, replicas are unreadable, the scale call fails or the status update fails; workload and histories move as the closed-loop step of the run results. |
| `AutoscalerEquivalence.DesiredAgrees` | ai-storage-orchestrator/pkg/controller/storagehpa_controller.go:240-324 | For settings both accept, the two implementations decide the same count in every state. |
| `AutoscalerEquivalence.RunsAgree` | ai-storage-orchestrator/pkg/controller/storagehpa_controller.go:240-393 | Over any sequence of observations both give the same decisions, histories and answers unless the scale-down window is written out as zero and something can be scaled down. |
| `AutoscalerEquivalence.ZeroWindowDiffers` | ai-storage-orchestrator/pkg/controller/storagehpa_controller.go:362-385 | The failing inputs: with an explicit zero scale-down window (300 s in one, none in the other) one tick already differs, whatever the other settings, unless minimum and maximum are both the largest int32. |
| `AutoscalerEquivalence.EquivalentExactlyWhen` | ai-storage-orchestrator/pkg/controller/storagehpa_controller.go:240-393 | For all settings both accept, the two controllers are equal on all runs if and only if the scale-down window is not explicitly zero or minimum and maximum are both the largest int32. |
| `StorageHpaRuns.CounterpartDecides` | ai-storage-orchestrator/pkg/controller/storagehpa_controller.go:240-324 | Every spec the schema admits, without targets or with Max below Min included, decides as a REST request whose range is Max alone in the latter case. |
| `StorageHpaRuns.TickSafety` | ai-storage-orchestrator/pkg/controller/storagehpa_controller.go:90-156 | The per-tick safety of the REST controller for every reconcile, under every failure and for every admitted spec, explicit zero windows included. |
| `StorageHpaRuns.RunSafety` | ai-storage-orchestrator/pkg/controller/storagehpa_controller.go:90-156 | Under one spec: the run invariant holds in every reachable state, with a zero window the scale-down history is always empty, and a workload that starts in the admitted range stays in it. |
| `StorageHpaRuns.Convergence` | ai-storage-orchestrator/pkg/controller/storagehpa_controller.go:90-156 | Liveness for every admitted spec, at any spacing and with any failures: the distance to the range falls by at least one per scale-down window closed by a successful reconcile, which with a zero window is every successful one. |
| `StorageHpaRuns.EditedRunSafety` | ai-storage-orchestrator/pkg/controller/storagehpa_controller.go:90-156 | With a clock that never goes back, over runs in which the resource is edited, or deleted and created again, between reconciles: a scale-down never raises and keeps the step limit, a scale-up never falls short of the decision, and it stays within Max if and only if no scale-up entry that still counts lies above Max. |
| `StorageHpaRuns.EditedRunStays` | ai-storage-orchestrator/pkg/controller/storagehpa_controller.go:90-156 | A workload that starts within a range that covers the ranges of all those specs never leaves it. |
| `StorageHpaRuns.LoweredMaxIsExceeded` | ai-storage-orchestrator/pkg/controller/storagehpa_controller.go:327-360 | The failing run: a scale-up to 10 fails, Max is lowered to 5, and 15 s later the workload is scaled to 10. |
| `MigrationMachine.PlanIsTail` | ai-storage-orchestrator/pkg/controller/migration.go:508-529 | The stage plan is always a tail of decode, filter, output, output last and only last: from filter or output if and only if the request, or when that is blank the pod's annotation, names it, and the whole pipeline for any other text, none included. |
| `Text.TrimSpaceDrops` | ai-storage-orchestrator/pkg/controller/migration.go:508-529 | The trimming these lines rely on takes off all white space at both ends and nothing else. |
| `Text.LowerMeans` | ai-storage-orchestrator/pkg/controller/migration.go:508-529 | The lower-casing they rely on replaces each capital letter by its small one and nothing else. |
| `MigrationMachine.StepKeepsInv` | ai-storage-orchestrator/pkg/controller/migration.go:190-257 | Every step, whichever call fails, keeps the inductive invariant tying position, history, live stage pods, new-pod name and deletion of the original. |
| `MigrationMachine.JobSafety` | ai-storage-orchestrator/pkg/controller/migration.go:190-434 | In every reachable state: the history is (started, completed) pairs for a prefix of the plan plus at most one unfinished or failed stage; at most one stage pod is live; the original is asked to go only after the whole plan completed; a completed job names the output-stage pod; a failed job's history and live pod show where it stopped, and a call made there failed. |
| `MigrationMachine.WholePipelineRecord` | ai-storage-orchestrator/pkg/controller/migration.go:364-542 | The record of a job of the whole pipeline in which nothing fails, entry by entry: decode on /data, filter on /cache, output on /output, each started and completed. |
| `MigrationMachine.SettlesEnded` | ai-storage-orchestrator/pkg/controller/migration.go:190-257 | Every job ends: completed with everything done, or failed with the original pod untouched. |
| `MigrationMachine.CompletesExactlyWhen` | ai-storage-orchestrator/pkg/controller/migration.go:190-434 | A job completes if and only if no call its plan needs fails; failing to delete the original is not among them. |
| `Migration.MigrationJob.RecordStageTransition` | ai-storage-orchestrator/pkg/controller/migration.go:767-786 | Appends one transition carrying the stage's path. |
| `Migration.MigrationJob.ExecuteStage` | ai-storage-orchestrator/pkg/controller/migration.go:382-432 | One turn of the pipeline loop ends where the step machine says, with the same settled outcome. |
| `Migration.MigrationJob.ExecuteStagePipeline` | ai-storage-orchestrator/pkg/controller/migration.go:364-434 | The whole pipeline refines the machine: success leads to dropping the original, anything else to failure. |
| `Migration.MigrationController.StartMigration` | ai-storage-orchestrator/pkg/controller/migration.go:72-116 | Refused exactly when no token is free, and then nothing changes; accepted it takes one token and stores a fresh job. |
| `Migration.MigrationController.ExecuteMigration` | ai-storage-orchestrator/pkg/controller/migration.go:190-257 | The sequential code ends in exactly the state the step machine settles in, returns its token and counts itself once, in the right counter. |
| `Migration.MigrationController.CompleteMigration` | ai-storage-orchestrator/pkg/controller/migration.go:831-861 | Completion updates totals and the running integer mean. |
| `Migration.MigrationController.FailMigration` | ai-storage-orchestrator/pkg/controller/migration.go:794-829 | Failure sets the status and counts one failure. |
| `MigrationRuns.ControllerSafety` | ai-storage-orchestrator/pkg/controller/migration.go:72-116 | For every interleaving of starts and job steps under any failures: tokens equal accepted jobs not yet released, pending plus running jobs never exceed the configured limit, a release never blocks, successes + failures + active jobs equal accepted jobs, TotalMigrations counts only successes, and every job is safe. |
| `MigrationRuns.TerminalIsFinal` | ai-storage-orchestrator/pkg/controller/migration.go:794-861 | No later schedule changes a completed or failed job's status. |
| `MigrationRuns.JobFinishes` | ai-storage-orchestrator/pkg/controller/migration.go:190-257 | In every interleaving that lets a job take as many steps as it has left, whatever the other jobs and requests do in between, it reaches exactly the end determined for it, completed or failed, and its token is back. |
| `RunningMean.MeanError` | ai-storage-orchestrator/pkg/controller/migration.go:839-847 | After n updates the stored mean is within (n-1)/2 of the true mean, and never above it for non-negative durations. |
| `RunningMean.MeanBetween` | ai-storage-orchestrator/pkg/controller/migration.go:839-847 | The stored mean lies between the smallest and the largest duration. |
| `RunningMean.ErrorBoundIsTight` | ai-storage-orchestrator/pkg/controller/migration.go:839-847 | For every n a sequence attains the bound, so it cannot be improved. |
| `Decimal.ParseOfFormat` | ai-storage-orchestrator/pkg/controller/preemption.go:685-700 | Parsing a printed int64 gives it back. |
| `Decimal.ParseIsNearest` | ai-storage-orchestrator/pkg/controller/preemption.go:668-683 | Parsing a printed integer of any size gives the int64 nearest to it, the parse error being dropped, with or without a plus sign. |
| `Quantity.CpuRoundTrip` | ai-storage-orchestrator/pkg/controller/preemption.go:685-700 | parseCPU(formatMillicores(n)) = n, for every int64 (whole cores up to 2^53 millicores). |
| `Quantity.MemoryRoundTrip` | ai-storage-orchestrator/pkg/controller/preemption.go:702-739 | parseMemory(formatBytes(b)) is b rounded down to its printed unit, for every int64, negatives included. |
| `QuantityTexts.CpuIsPrinted` | ai-storage-orchestrator/pkg/controller/preemption.go:814-819 | Whole cores are printed as cores, everything else in millicores. |
| `QuantityTexts.MemoryIsPrinted` | ai-storage-orchestrator/pkg/controller/preemption.go:821-841 | Memory is printed as a whole number, rounded down, of the largest unit up to Ti that it reaches, below 1024 in every unit but Ti. |
| `Quantity.RoundedBounds` | ai-storage-orchestrator/pkg/controller/preemption.go:821-841 | Rounding never raises, loses less than half, keeps the unit and is idempotent. |
| `Quantity.PrintingSettles` | ai-storage-orchestrator/pkg/controller/preemption.go:821-841 | Formatting what was read back gives the same text. |
| `Quantity.RoundedMonotone` | ai-storage-orchestrator/pkg/controller/preemption.go:821-841 | Rounding never reverses an order. |
| `Quantity.GoCodecIsFaithful` | ai-storage-orchestrator/pkg/controller/preemption.go:685-739 | The two printers and readers together satisfy what the accounting lemmas assume of a codec. |
| `Preemption.FindPreemptionCandidates` | ai-storage-orchestrator/pkg/controller/preemption.go:295-369 | The array holds exactly the eligible pods' candidates, sorted by score. |
| `Preemption.SelectPodsToPreempt` | ai-storage-orchestrator/pkg/controller/preemption.go:475-515 | Returns and marks in place exactly the shortest prefix at which the gathered amount reaches the target, the limit is hit or candidates run out; nothing else in the array changes. |
| `PreemptionAccounting.VictimsReachTarget` | ai-storage-orchestrator/pkg/controller/preemption.go:475-515 | What is gathered, in truth: the victims are the shortest prefix of the candidates at which all are taken, the limit is reached, or their true cpu, gpu, storage or pod count, or rounded memory, reaches the target; no shorter prefix does any of these. |
| `PreemptionAccounting.TargetReadsNumber` | ai-storage-orchestrator/pkg/controller/preemption.go:668-683 | A whole number is the target of that many GPUs or pods; storage targets are zero. |
| `PreemptionAccounting.TargetReadsCpu` | ai-storage-orchestrator/pkg/controller/preemption.go:668-700 | A CPU target is a number of cores, or of millicores with an m. |
| `PreemptionAccounting.TargetReadsBytes` | ai-storage-orchestrator/pkg/controller/preemption.go:668-739 | A memory target in any unit the pattern accepts is number times unit, the unit a power of 1000 or 1024 by its letter; exa units are zero. |
| `Preemption.VictimsAreLowest` | ai-storage-orchestrator/pkg/controller/preemption.go:295-515 | No victim scores above a spared candidate; every candidate is listed, readable, unprotected, in the namespace and below the minimum priority. |
| `Preemption.CandidatesMembers` | ai-storage-orchestrator/pkg/controller/preemption.go:295-369 | A candidate is in the list if and only if its pod is listed, unprotected, in the namespace if one is asked for, readable and below the minimum priority, and it carries that pod's score and printed requests. |
| `Preemption.CandidatesAreDistinct` | ai-storage-orchestrator/pkg/controller/preemption.go:295-369 | No pod is a candidate twice. |
| `Preemption.GoneExactly` | ai-storage-orchestrator/pkg/controller/preemption.go:518-603 | The victims counted as gone are exactly those whose eviction succeeded, as often as they were selected. |
| `Preemption.PreemptionController.ExecutePreemption` | ai-storage-orchestrator/pkg/controller/preemption.go:518-603 | Job counters, printed totals and global metrics are those of the victims whose eviction succeeded. |
| `Preemption.PreemptionController.RunPreemption` | ai-storage-orchestrator/pkg/controller/preemption.go:176-248 | Completed exactly when node and pods can be read; then the victims are a selection, the flag is set only by an eviction round, and counters, verdict and global totals follow from the evictions that succeeded. |
| `Preemption.PreemptionController.UpdateGlobalMetrics` | ai-storage-orchestrator/pkg/controller/preemption.go:741-749 | The global totals move by one printed, re-read addition. |
| `PreemptionAccounting.TallyAgainstTruth` | ai-storage-orchestrator/pkg/controller/preemption.go:518-603 | What the controller adds up from strings: CPU, GPU and storage exactly the true sums, memory between half and all of it. |
| `PreemptionAccounting.ReportedMemory` | ai-storage-orchestrator/pkg/controller/preemption.go:606-627 | The reported memory, rounded twice, never exceeds the true sum and is more than a quarter of it. |
| `PreemptionAccounting.NothingToReach` | ai-storage-orchestrator/pkg/controller/preemption.go:202-215 | A target that parses to zero or less selects no victim. |
| `PreemptionAccounting.EmptyTargets` | ai-storage-orchestrator/pkg/controller/preemption.go:668-683 | Accepted inputs of that kind: "0" and "two" GPUs, "1Ei" of memory. |
| `PreemptionAccounting.FlagDiffersFromComparison` | ai-storage-orchestrator/pkg/controller/preemption.go:202-215 | The failing input of the plain comparison: with such a GPU target the job completes unachieved although the GPUs freed are no fewer than the parsed target. |
| `PreemptionAccounting.TargetJudgement` | ai-storage-orchestrator/pkg/controller/preemption.go:176-248 | The TargetAchieved field of every completed job: for cpu, gpu and all it is set if and only if the parsed target is positive and the true amount evicted reaches it; for memory if and only if it is positive and the rounded requests reach the target rounded up, hence never falsely and always from four times the target; for storage targets never. |
| `PreemptionAccounting.TotalsOverRuns` | ai-storage-orchestrator/pkg/controller/preemption.go:561-594 | Over any sequence of jobs, each with its own cluster, TotalCPUFreed parses to the exact sum; TotalMemoryFreed parses to a sum rounded after every job, which no job makes fall and which never exceeds the true sum. |
| `PreemptionAccounting.MemoryTotalExactlyWhen` | ai-storage-orchestrator/pkg/controller/preemption.go:741-749 | TotalMemoryFreed is the true sum if and only if every evicted pod's request and every partial sum over the jobs prints without loss. |
| `PreemptionAccounting.MemoryTotalMovesExactlyWhen` | ai-storage-orchestrator/pkg/controller/preemption.go:741-749 | From the totals of any run, further jobs move the memory total if and only if one of them alone frees at least the unit the total is printed in; any number of smaller jobs leaves it where it was. |
| `PreemptionAccounting.LossHasNoBound` | ai-storage-orchestrator/pkg/controller/preemption.go:741-749 | A family of real rounds: a job that frees a tebibyte, then n jobs that free a gibibyte each, up to the largest int64; TotalMemoryFreed reads one tebibyte throughout. |
| `Quantity.KeptExactlyWhen` | ai-storage-orchestrator/pkg/controller/preemption.go:741-749 | A printed total is the exact sum if and only if every partial sum prints without loss. |
| `Quantity.RoundingAdjoint` | ai-storage-orchestrator/pkg/controller/preemption.go:821-841 | What printing keeps of an amount reaches a target if and only if the amount reaches the target rounded up to a printable one. |
| `QuantityTexts.UnitsReadExactlyWhen` | ai-storage-orchestrator/pkg/controller/preemption.go:702-739 | For whole-number texts the pattern accepts, within the exact range, parseMemory gives number times unit, the unit's power of 1000 or 1024 given by its letter's place in KMGTPE, if and only if the number is zero or the unit is not E or Ei; those read as zero. |
| `QuantityTexts.OtherNumbersAreScaled` | ai-storage-orchestrator/pkg/controller/preemption.go:702-739 | Every other number the pattern accepts is left to float64 with that power as its factor. |
| `QuantityTexts.CpuTextsRead` | ai-storage-orchestrator/pkg/controller/preemption.go:685-700 | A number with an m reads as millicores, a plain one as cores. |
| `QuantityTexts.PatternTakes` | ai-storage-orchestrator/pkg/controller/preemption.go:708-717 | The pattern accepts every text made of a number, white space, a unit and a B or b, and takes its number and unit. |
| `QuantityTexts.PatternRejects` | ai-storage-orchestrator/pkg/controller/preemption.go:708-717 | It accepts no other text. |
| `LoadBalancing.CountPods` | ai-storage-orchestrator/pkg/controller/loadbalancing.go:507-528 | Counts and total are those of the readable nodes under the namespace filter. |
| `LoadBalancingPlans.CountedExactly` | ai-storage-orchestrator/pkg/controller/loadbalancing.go:507-528 | A node is counted with a number if and only if it is listed and readable and that is the number of its pods in the namespace. |
| `LoadBalancing.ChooseMoves` | ai-storage-orchestrator/pkg/controller/loadbalancing.go:557-612 | The two nested loops produce the specified plan: nodes in order, above the threshold, while the limit lasts. |
| `LoadBalancingPlans.HeavyExactlyWhen` | ai-storage-orchestrator/pkg/controller/loadbalancing.go:533-562 | The planner's test on a source holds if and only if its count exceeds the mean by more than the threshold less one, the threshold being one within a namespace and otherwise the least whole number that is at least one and at least half of the mean. |
| `LoadBalancing.CalculatePodCountPlan` | ai-storage-orchestrator/pkg/controller/loadbalancing.go:495-615 | Nothing below two readable nodes or without pods; otherwise the plan chosen over the counted nodes, sources by falling and targets by rising count. |
| `LoadBalancing.LoadbalancingJob.ExecuteMigrations` | ai-storage-orchestrator/pkg/controller/loadbalancing.go:914-990 | Executes the plan sorted by priority, records every outcome in order, and counts each once as success or failure. |
| `LoadBalancingPlans.EveryMoveIsSound` | ai-storage-orchestrator/pkg/controller/loadbalancing.go:495-615 | From outside: in a plan over distinctly named nodes every move takes the first movable pod (in the namespace, outside kube-system and apollo) listed on a node strictly above the mean to a least loaded node, strictly below it; its source occurs once, its priority is its place from 100 down, and the plan is within the limit. |
| `LoadBalancingPlans.PlanTakesFullest` | ai-storage-orchestrator/pkg/controller/loadbalancing.go:495-615 | Every source is over the threshold and has a movable pod, fuller nodes go first, and such a node is left out only when the limit is reached and it is no fuller than any source. |
| `LoadBalancingPlans.NothingToMove` | ai-storage-orchestrator/pkg/controller/loadbalancing.go:557-612 | The plan is empty exactly when no node has anything to offer. |
| `LoadBalancingPlans.PlanIsSound` | ai-storage-orchestrator/pkg/controller/loadbalancing.go:495-615 | For any two sorts of the counted nodes the chosen moves keep to the rules: distinct sources above the mean, the least node as target, strictly falling priorities, the limit. |
| `LoadBalancingPlans.ExecutionKeepsOrder` | ai-storage-orchestrator/pkg/controller/loadbalancing.go:914-925 | Any sort by priority leaves such a plan in its order. |
| `LoadBalancingPlans.PlanEffect` | ai-storage-orchestrator/pkg/controller/loadbalancing.go:495-615 | Exact effect of any part of a plan: pods conserved; the sum of squared counts changes by the target's gain less twice what the sources held. |
| `LoadBalancingPlans.SourcesAreGivers` | ai-storage-orchestrator/pkg/controller/loadbalancing.go:557-612 | The sources of a plan are exactly the first nodes that are heavy and list a movable pod, as many as the limit allows. |
| `LoadBalancingPlans.PlanHelpsExactlyWhen` | ai-storage-orchestrator/pkg/controller/loadbalancing.go:495-615 | On the planner's inputs: the plan has m moves, m being the number of nodes with a pod to give up to the limit; pods are conserved; the spread gets no worse if and only if twice what the m fullest of those nodes hold is at least m(m+1) + 2mt, t being the least count; one move never worsens it. |
| `LoadBalancingPlans.EvenClusterGetsWorse` | ai-storage-orchestrator/pkg/controller/loadbalancing.go:495-615 | On a cluster where no two counts differ by more than one, every plan of two or more moves makes the spread strictly worse. |
| `LoadBalancingPlans.EvenNamespaceGetsWorse` | ai-storage-orchestrator/pkg/controller/loadbalancing.go:495-615 | The failing family on the inputs: a namespace plan with room for two moves on such a cluster with two full nodes has at least two moves. |
| `LoadBalancingPlans.ThreeNodesGetWorse` | ai-storage-orchestrator/pkg/controller/loadbalancing.go:495-615 | An instance: three nodes with two, two and one pods and a limit of two. |
| `LoadSpreading.CalculateLoadSpreadingPlan` | ai-storage-orchestrator/pkg/controller/loadbalancing.go:618-694 | The plan is the first MaxMigrationsPerCycle pods of the overloaded nodes taken in order, all to one underloaded node, or nothing if either group is empty. |
| `LoadSpreading.SpreadIsSound` | ai-storage-orchestrator/pkg/controller/loadbalancing.go:618-694 | Source overloaded and holding the pod, target underloaded; the target carries the highest load of its group, so it is least loaded (as the code's comment says) exactly when the whole group carries one load. |
| `LoadSpreading.SpreadTakesBusiest` | ai-storage-orchestrator/pkg/controller/loadbalancing.go:618-694 | Busier overloaded nodes give first. |
| `LoadSpreading.SpreadIsComplete` | ai-storage-orchestrator/pkg/controller/loadbalancing.go:618-694 | With an underloaded node, a plan below its limit leaves no pod of the namespace on an overloaded node. |
| `LoadSpreading.SpreadMovesOnce` | ai-storage-orchestrator/pkg/controller/loadbalancing.go:618-694 | No pod is moved twice. |
| `LoadSpreading.SpreadChangesNode` | ai-storage-orchestrator/pkg/controller/loadbalancing.go:618-694 | Where names identify nodes, every move changes the pod's node. |
| `OptimizedPod.GetPodContainerStates` | ai-storage-orchestrator/pkg/k8s/client.go:83-123 | One state per container, in order, from the first status with its name: waiting, running, completed or failed, its restart count, and to be moved exactly when running or terminated with a non-zero code. |
| `OptimizedPod.CreateOptimizedPod` | ai-storage-orchestrator/pkg/k8s/client.go:297-396 | The new pod is bound to the target node in the original's namespace, with the original's annotations, a generated name and the three migration labels; its volumes are the original's followed by the checkpoint claim, or at most by a scratch directory; its containers are those of NewPodContainers. |
| `OptimizedPod.OptimizeContainers` | ai-storage-orchestrator/pkg/k8s/client.go:329-374 | The nested loops yield the wanted containers, each fitted with its mount, and the flag for the scratch volume. |
| `OptimizedPod.NewPodContainers` | ai-storage-orchestrator/pkg/k8s/client.go:297-396 | The new pod has, in order, exactly the containers that were running or had failed, mounts kept as a prefix with at most one more, and each can reach the stage path. |
| `OptimizedPod.NewPodIsWellFormed` | ai-storage-orchestrator/pkg/k8s/client.go:297-396 | From a well-formed pod the new spec is well formed (distinct names, distinct mount paths, every mount backed by a volume) if and only if the volume it adds does not reuse a name of the original. |
| `OptimizedPod.MigratingAgainBreaks` | ai-storage-orchestrator/pkg/k8s/client.go:376-386 | Migrating with a checkpoint claim a pod that such a migration made never gives a well-formed spec. |
| `OptimizedPod.CheckpointMounted` | ai-storage-orchestrator/pkg/k8s/client.go:344-357 | A container gets the checkpoint volume if and only if not both candidate paths were taken. |
| `StorageMutation.GetStoragePolicy` | ai-storage-orchestrator/pkg/types/storage_policy.go:66-184 | Which roles a workload gets, both directions; each role at most once, with its standard class and path. |
| `StorageMutation.ClaimNamesAreUnique` | ai-storage-orchestrator/pkg/types/storage_policy.go:48-59 | Claim names determine workload and role. |
| `StorageMutation.PodSpec.Inject` | ai-storage-orchestrator/pkg/k8s/storage_mutation.go:57-94 | Though the code checks against growing lists, it adds exactly what the original pod lacked: original volumes and mounts stay as prefixes. |
| `StorageMutation.PodSpec.InjectStandardVolumes` | ai-storage-orchestrator/pkg/k8s/storage_mutation.go:20-95 | The same for the policy of the workload type, whose input, output and cache roles are given in both directions. |
| `StorageMutation.VolumesProvided` | ai-storage-orchestrator/pkg/k8s/storage_mutation.go:57-76 | Afterwards every role of the policy has its volume. |
| `StorageMutation.MountsProvided` | ai-storage-orchestrator/pkg/k8s/storage_mutation.go:78-94 | Afterwards a container has every standard path of the policy. |
| `StorageMutation.PathsReachClaims` | ai-storage-orchestrator/pkg/k8s/storage_mutation.go:57-94 | On a pod that uses none of the names and paths, /data/input, /data/output and /data/cache each lead, through volume and mount, to the workload's claim of that role. |
| `StorageMutation.InjectionIsIdempotent` | ai-storage-orchestrator/pkg/k8s/storage_mutation.go:20-95 | Injecting twice is injecting once. |
| `StorageMutation.InjectionKeepsSound` | ai-storage-orchestrator/pkg/k8s/storage_mutation.go:20-95 | Distinct volumes, distinct paths and backed mounts are preserved. |
| `StorageMutation.ServedExactlyWhen` | ai-storage-orchestrator/pkg/k8s/storage_mutation.go:78-94 | A standard path is served by its role's volume if and only if nothing else was mounted there before; the documented override of a user's mount does not happen. |
| `StorageMutation.OwnInputIsKept` | ai-storage-orchestrator/pkg/k8s/storage_mutation.go:78-94 | The failing input: a pod that mounts a volume of its own on /data/input keeps reading that one. |
| `PolicyCache.ReplayHoldsLatest` | ai-storage-scheduler/internal/apollo/client.go:162-220 | For every interleaving of the locked sections the two maps have the same keys and hold, per key, the last policy stored and its time. |
| `PolicyCache.AnswersAreLatest` | ai-storage-scheduler/internal/apollo/client.go:162-212 | Both reading sections answer in terms of the last store: young for the first look, any for the rescue after a failed call. |
| `PolicyCache.Client.GetSchedulingPolicyWithSource` | ai-storage-scheduler/internal/apollo/client.go:159-232 | Which source is reported, both directions, and with which policy: CACHE is the last fetch and is young or returned because this fetch failed; without a connection a stale policy is not used; only a fetch changes the entry. |
| `PolicyCache.Client.Close` | ai-storage-scheduler/internal/apollo/client.go:132-141 | Closing drops the connection and nothing else: what was stored goes on answering lookups. |
| `PolicyCache.KeysTellPodsApart` | ai-storage-scheduler/internal/apollo/client.go:160 | Cache keys identify pods, as namespaces hold no slash. |
| `PolicyCache.OtherPodsDoNotMatter` | ai-storage-scheduler/internal/apollo/client.go:216-220 | Stores for other pods leave a pod's entry alone. |
| `PluginFramework.RunScorePluginsWithAPOLLOWeights` | ai-storage-scheduler/internal/framework/framework.go:209-295 | A result exactly when every plugin scores every node; then the map the nested loops specify. |
| `PluginFramework.WeightOf` | ai-storage-scheduler/internal/framework/framework.go:236-253 | The weight is never zero, at least one where APOLLO overrides it, and the registered one elsewhere. |
| `PluginFramework.WeightMeans` | ai-storage-scheduler/internal/framework/framework.go:236-253 | An override is what was sent, or one if that is less; APOLLO never changes another plugin's weight; the weight is positive if and only if it is an override or was not registered negative. |
| `PluginFramework.PreferenceSurvivesExactlyWhen` | ai-storage-scheduler/internal/framework/framework.go:236-273 | On the stored entries: as long as both products fit an int64, weighting keeps a plugin's preference between two nodes if and only if the weight is an override or was not registered negative; equal scores stay equal. |
| `PluginFramework.EveryPreferenceSurvivesExactlyWhen` | ai-storage-scheduler/internal/framework/framework.go:268-273 | Over all int64 scores every preference survives the 64-bit product if and only if the weight is 1. |
| `PluginFramework.OverflowReverses` | ai-storage-scheduler/internal/framework/framework.go:268-273 | The failing inputs: for every weight from 2 up, a score whose product overflows ranks below a score of 1. |
| `PluginFramework.RunGivesTotals` | ai-storage-scheduler/internal/framework/framework.go:232-292 | Each node ends with one entry per plugin in registration order for each time it is listed, and its total is the 64-bit sum of effective weight times raw score. |
| `PluginFramework.TotalsAddUp` | ai-storage-scheduler/internal/framework/framework.go:270-279 | In every result a node's total is the 64-bit sum of its own entries. |
| `PluginFramework.OneEntryEach` | ai-storage-scheduler/internal/framework/framework.go:261-292 | For distinct node names: exactly one entry per plugin, at its position. |
| `PluginFramework.OrderDoesNotMatter` | ai-storage-scheduler/internal/framework/framework.go:232-292 | Permuting the plugins leaves every total unchanged, overflow included. |
| `PluginFramework.RunPreFilterPlugins` | ai-storage-scheduler/internal/framework/framework.go:75-111 | Fails iff some plugin fails; otherwise nil iff all sets are nil, else the intersection of the others, in a map of its own with the plugins' sets untouched. |
| `Caching.CachingController.CreateCache` | ai-storage-orchestrator/pkg/controller/caching.go:59-138 | Accepted exactly with a source claim, a namespace, a known tier and policy; then the cache is stored as pending, other caches stay and the total grows by one, and otherwise nothing changes; counters that agree stay right if and only if the request was rejected or the identifier is new. |
| `Caching.CachingController.DeleteCache` | ai-storage-orchestrator/pkg/controller/caching.go:159-181 | Removes the cache, marks it inactive, keeps the total and keeps the counters right. |
| `Caching.CachingController.EvictCache` | ai-storage-orchestrator/pkg/controller/caching.go:184-200 | Changes no tier and no counter. |
| `Caching.CachingController.MigrateTier` | ai-storage-orchestrator/pkg/controller/caching.go:203-229 | Moves one cache to another tier, known or not, leaves every other cache and every status alone, and keeps the counters right. |
| `Caching.StepAgreesExactlyWhen` | ai-storage-orchestrator/pkg/controller/caching.go:789-798 | From agreeing counters any operation keeps all four right if and only if it is not an accepted creation under an identifier in use. |
| `Caching.DriftIsCollisions` | ai-storage-orchestrator/pkg/controller/caching.go:59-229 | After any sequence of operations ActiveCaches exceeds the number of stored caches by exactly the number of such collisions. |
| `Caching.CountersAgreeExactlyWhen` | ai-storage-orchestrator/pkg/controller/caching.go:59-229 | After any sequence of creations, deletions, evictions and migrations all four counters count the stored caches if and only if no collision ever happened. |
| `Caching.SameIdentifierTwice` | ai-storage-orchestrator/pkg/controller/caching.go:59-138 | The failing input: two accepted creations under one identifier leave one cache stored and two counted. |
| `Caching.TierCountsFit` | ai-storage-orchestrator/pkg/controller/caching.go:789-798 | Agreeing counters are never negative and together at most the number of caches. |
| `Sharding.FilesAssignedToShard` | ai-storage-orchestrator/pkg/controller/caching.go:677-689 | For at least one shard the result holds file i at place i div totalShards for every i congruent to the index, and nothing else; for fewer, all files. |
| `Sharding.AllFilesAreHandedOut` | ai-storage-orchestrator/pkg/controller/caching.go:677-689 | Calling it once for every shard index hands out exactly the files, as a multiset. |
| `Sharding.IndexIsResidue` | ai-storage-orchestrator/pkg/controller/caching.go:681 | Under Go's truncated remainder every integer index, negative included, names the shard of its residue. |
| `Sharding.ShardsInterleave` | ai-storage-orchestrator/pkg/controller/caching.go:677-689 | File i is the (i div N)-th file of shard i mod N, and shard sizes are given exactly: nothing lost, repeated or reordered. |
| `Sharding.ShardPosition` | ai-storage-orchestrator/pkg/controller/caching.go:677-689 | Conversely the k-th file of a shard is the one at position shard + kN. |
| `Sharding.SizesAreEven` | ai-storage-orchestrator/pkg/controller/caching.go:677-689 | Shard sizes differ by at most one. |
| `Sharding.ShardsConserveFiles` | ai-storage-orchestrator/pkg/controller/caching.go:677-689 | Together the shards hold exactly the files, as a multiset. |

## Left out

- Kubernetes, gRPC, HTTP, Prometheus, DCGM, Gluesys and Manta calls: only their possible results appear, as parameters.
- The tie order of `sort.Slice`, log lines, messages, reasons, UUIDs and wall-clock formatting.
- White space and letter case outside Latin-1 and ASCII in `TrimSpace` and `ToLower`.
- The grammar `strconv.ParseFloat` accepts beyond plain digits ("1.5", "1e3"): a parameter gives the value.
- int64 overflow of running sums in preemption and of pod counts in load balancing; the latter's comparisons with the
  float64 mean are exact for int32 totals and up to a million nodes.
- Replica changes made by anyone but the controller, in the closed-loop results (`AutoscalerRuns`, `StorageHpaRuns`);
  the decision-level and equivalence results do not need this, and `AutoscalerRuns.DownRaisesExactlyWhen` says what such
  changes lead to.
- StorageHpaRuns.Convergence: for a spec that is not edited any more; a scale-up entry left from a larger Max must have
  left the window first, as `StorageHpaRuns.LoweredMaxIsExceeded` shows.
- A per-tick limit on scale-up with a positive window: an older recommendation in the window can exceed it, so none holds.
- The in-place sharing of Go slices and maps: histories, plans and mounts are values held in fields; a copied pod shares
  nothing with the original.
- The waiting for a stage to complete (`migration.go:663-754`), the checkpoint claim and its cleanup, and the resource
  savings: each is one call that may fail, or has no effect on what is proved.
- The annotations a stage pod gets for its stage and shard, and the job's CurrentStage field.
- A stage-pod creation that reports an error after the pod was in fact created; no rule of the code could notice it.
- The scoring formulas of the preemption strategies: a pod's score is given. Only ordering by it is modelled.
- Preemption targets "storage" and "storage_iops": their amount parses to zero, so nothing is ever selected for them.
- The resource-weighted load-balancing strategies and balance scores (`loadbalancing.go:377-455`, `703-911`).
- Labels of shards read from a request (`caching.go:657-674`), cache statistics, prefetching and eviction work.
- A caching request object shared by two caches: each job has its own, as every HTTP request decodes a new one.
- Filter, post-filter, reserve and bind plugins, which only pass results through.
- Provisioning, insight, the stage execution plan store and the webhook: no invariant spanning several calls.
- PreemptionAccounting.TotalsOverRuns: CPU totals are followed up to 2^53 millicores and memory up to an int64, where
  the code's own arithmetic stops being exact.
- PreemptionAccounting.TargetJudgement: stated for pods whose requests are non-negative and print without loss on the
  CPU side, as Kubernetes requests do, and for a true sum of cpu or memory that the code's numbers hold; within those it
  covers every request and every eviction outcome.
