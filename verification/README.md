# Verification of the compute operator's controllers

A Dafny model of the reconcilers in `internal/controller` and of the SparkJob webhook in
`internal/webhook/v1alpha1`, with proofs about every run of each of them. The API server is an in-memory
store; a reconcile pass is one step over it; what a pass cannot control (the clock, phases reported by
others, deletions by others, status writes that are lost to a conflict, deletions that fail and are ignored)
are the other steps or the parameters of a pass. `dafny verify dfyconfig.toml` checks everything.

## What is modelled

| file | contents |
|---|---|
| `Cron.dfy` | a schedule as an arbitrary function `Next`, the law of a real one (strict successor in a set of whole seconds), one expression evaluated in two zones, the catch-up walk of `nextRunToActOn`, the 64-bit deadline arithmetic, the fires of a window |
| `Pruning.dfy`, `Scheduler.dfy` | the store of a cron template as a class, with the passes of `reconcileScheduled` as methods, proved against the relation `Pass` |
| `ScheduledPass.dfy` | what one pass over a template does, told by the fields of its spec |
| `SchedulerRuns.dfy`, `ExactSchedule.dfy`, `WakeUps.dfy`, `SchedulerWitnesses.dfy` | runs of a template: passes under any spec, children changing phase, children removed by others, the clock, lost writes |
| `Shell.dfy`, `BuiltinConf.dfy`, `SubmitScript.dfy` | the built-in settings and the printer of the spark-submit command, and a word lexer after IEEE Std 1003.1-2017, Shell Command Language, sections 2.2.1, 2.2.2 and 2.3 |
| `ExecutorEnv.dfy`, `Executors.dfy` | the executor settings derived from Env and EnvFrom, the in-place pod filter, the executor count |
| `DriverLifecycle.dfy` | a SparkJob that runs by itself as a class, its runs, in which it may be a template for a while, its retry budget |
| `TrainingRuns.dfy`, `TrainingTermination.dfy` | a TrainingRun as a class, its runs, its resume budget, its termination measure |
| `Admission.dfy` | the rules of `validateSparkJob` and what they guarantee the controllers |
| `Common.dfy`, `Text.dfy` | Go's integer widths, time values, string order, decimal numerals, map iteration |

Code that updates state in place is a class or a method with loops; its contract ties the new state to a
specification (`Pass`, `Reconciled`, `ScriptText`, ...), and the theorems are about that specification.

Of a TrainingRun, a clean run is one whose deletions and status writes succeed, whose world size is never lowered
and whose pods nobody else deletes; a steady run is a clean one with a fixed positive world size whose pods only move
forward. A pass of a template is punctual when it starts no later than the delay the previous pass returned, the
first one before the second fire; it is quick when no fire elapses while it is at work. A schedule wakes in time when
between the end of a pass and the end of the delay it returns at most one fire of the walk elapses.

## Findings

Where a promise is not kept unconditionally, the condition is proved and a counterexample is given.

- A starting deadline above 9223372036 s overflows the 64-bit duration. Deadlines are honoured on every
  input if and only if they are at most that (`DeadlineHonouredExactlyWithinRange`); one second more
  and every fire is skipped, however recent (`OverflowingDeadlineSkipsEveryFire`). The webhook admits such values.
- A template under Allow skips a fire if and only if some pass finds two or more elapsed
  (`NothingSkippedExactly`). Waking up in time is not enough for that: a fire that elapses while a pass is
  at work falls between `now`, read at its start, and the clock read for the delay at its end
  (`SlowPassSkipsAFire`).
- The catch-up walk and the wake-up delay can follow different schedules. The delay is computed in the zone
  the spec names, but the walk starts from stored times, which are decoded in the controller's own zone and
  never converted, and the cron library evaluates an expression in the zone of its argument. So children are
  created at the fires of the controller's zone (`CreatedAtWalkedFires`), whatever `timeZone` says, and
  passes that start in time are enough if and only if the two schedules fit together
  (`PunctualRunsSkipNothingExactly`), as they do in one zone (`SameZoneWakesInTime`). With a zone an hour
  ahead, "every minute of every even hour" gets one child for five fires, at a time when nothing fires in the zone
  named (`ZoneAbroadMissesFires`).
- Under Replace one lost status write makes the next pass delete the running child of a fire. If the deletion frees
  the name at once the fire runs twice (`ReplaceRunsAFireTwice`). If the child lingers, as it does with
  dependents of its own since the deletion is a foreground one, the creation finds the name taken and the fire
  ends without a child (`ReplaceLosesARun`), for good (`RecordedIsFinal`). In any run the children beyond one
  per fire are at most the creations whose write was lost (`RepeatsArePaidFor`), and `CreatesExactly` says when a
  pass creates a child, in any state.
- A pass that creates a child always writes its fire time (`NoSwallowedFireTime`). A pass that acts on a fire
  whose child is already there need not, since the comparison starts from a copy that already holds the time:
  it writes nothing if and only if the stored phase, active list and next time are already those it computes
  (`WriteSkippedExactly`, in runs `SwallowedExactly`, an instance `ReactingPassCanSwallow`).
- A concurrency policy other than the three documented ones takes the Replace branch (`AdmittedTemplate` shows
  that admission excludes it).
- Lowering a TrainingRun's world size can fake success, because the counts include pods of ranks that no longer
  count (`ShrinkingFakesSuccess`, `SuccessIsRealExactly`).
- The executors are told of a variable what the driver's container takes if and only if its objects are of one
  kind, the container does not take it from elsewhere (a literal, a field), and an Env item and an EnvFrom
  object that both supply it name the same key (`ToldAsTakenExactly`). So a literal is overridden by an EnvFrom
  object that holds its name; of two Secrets the EnvFrom one wins, although a container prefers the Env item
  (`BulkSourceOverridesEnvItem`); and a variable that comes from a Secret and from a ConfigMap is set twice.
- With `maxExecutors` zero and a positive minimum, which is admitted, the auto-tuner asks for zero
  executors (`AdmittedTuning`). Its count stays in bounds even when the quotient wraps around 32 bits, but on the
  sizes up to some cap it is monotone if and only if the quotient of the cap fits (`TunedMonotonicallyExactly`).
- A memory request below one mebibyte is passed to Spark as zero (`MemoryWithinRequest`).
- A pass as a template, on a job that was given a schedule, sets its phase even if it had finished, and leaves the
  completion time: phase and times then disagree (`InterludeKeepsAgreementExactly`). No such interlude makes the
  cheap status comparison lose anything (`ComparisonIsSound`).

## Model

| member | source | states |
|---|---|---|
| Cron.NextRunToActOn | internal/controller/sparkjob_scheduled.go:145-160 | terminates for every `Next` whatsoever; for a lawful one and an exact deadline it returns the newest elapsed fire if that is within the deadline, and zero only if every elapsed fire is past it |
| Cron.RunToActOnMeaning | internal/controller/sparkjob_scheduled.go:137-160 | the walk finds the owed fire; it finds none if and only if all elapsed fires are past the deadline |
| Cron.WalkFindsFires | internal/controller/sparkjob_scheduled.go:147-159 | even with an overflowing deadline the walk never invents a fire |
| Cron.SafeNext | internal/controller/sparkjob_scheduled.go:166-172 | never returns an instant that does not advance, and equals `Next` for every lawful schedule |
| Cron.DeadlineHonouredExactlyWithinRange | internal/controller/sparkjob_scheduled.go:150 | for any fire the deadline test is right at every later moment if and only if the deadline is at most 9223372036 s |
| Cron.OverflowingDeadlineSkipsEveryFire | internal/controller/sparkjob_scheduled.go:150 | a deadline one second longer skips every fire, even one of this moment |
| Pruning.PruneIsIdempotent | internal/controller/sparkjob_scheduled.go:292-307 | a second prune deletes nothing |
| Pruning.PruneIsDeterministicWithoutTies | internal/controller/sparkjob_scheduled.go:284-307 | without ties in creation time the survivors are determined, although the sort is unstable |
| Pruning.PrunedSize | internal/controller/sparkjob_scheduled.go:265-308 | after pruning at most the active children and the two limits are left |
| Pruning.SortNewestFirst | internal/controller/sparkjob_scheduled.go:284-288 | a newest-first rearrangement, nothing promised about ties |
| Scheduler.ChildNameInjective | internal/controller/sparkjob_scheduled.go:212 | two fires with the same child name are the same fire |
| Scheduler.Store.ApplyConcurrencyPolicy | internal/controller/sparkjob_scheduled.go:188-209 | runs unless forbidden by an active child; deletes all active children exactly when replacing, and they are gone or linger |
| Scheduler.Store.SpawnChild | internal/controller/sparkjob_scheduled.go:211-251 | adds one child with a fresh uid under the name of the fire, or nothing if the name is taken |
| Scheduler.Store.PruneHistory | internal/controller/sparkjob_scheduled.go:265-308 | of each outcome exactly min(n, limit) children stay, none older than a deleted one; active ones are untouched; slices stay in range (the limits by the spec's fields: `PrunesBySpec`) |
| Scheduler.Store.RefreshScheduledStatus | internal/controller/sparkjob_scheduled.go:310-367 | writes phase, sorted active references and times, skips equal statuses, may lose the write |
| Scheduler.ActiveChildren | internal/controller/sparkjob_scheduled.go:174-185 | exactly the children that are neither Succeeded nor Failed, each once |
| Scheduler.Store.SpawnIfDue | internal/controller/sparkjob_scheduled.go:58-77 | the store and the in-memory status after deciding on a fire, applying the policy, creating the child (told by the spec's fields: `CreatesOwedFireExactly`) |
| Scheduler.Store.ReconcileScheduled | internal/controller/sparkjob_scheduled.go:31-108 | the whole pass refines the relation `Pass`: the walk in the zone of stored times, next time and requeue delay in the spec's; a bad schedule changes nothing |
| Scheduler.Requeue | internal/controller/sparkjob_scheduled.go:97-107 | the delay is between one second and five minutes |
| ScheduledPass.CreatesOwedFireExactly | internal/controller/sparkjob_scheduled.go:58-77 | a pass creates a child for a fire if and only if that is the newest one elapsed since the recorded one and within the template's starting deadline, the policy lets it run, and its name is free |
| ScheduledPass.PastDeadlinesDoNothing | internal/controller/sparkjob_scheduled.go:145-160 | when every elapsed fire is past the template's deadline a pass creates nothing, deletes nothing active and keeps the recorded time |
| ScheduledPass.EveryChildWasOwed | internal/controller/sparkjob_scheduled.go:58-77 | in every run, for each child some pass found its fire owed under the deadline of the spec it ran under |
| ScheduledPass.CreatedChild | internal/controller/sparkjob_scheduled.go:211-251 | the child is named after template and fire, unstarted, with a new uid, created at the pass's second |
| ScheduledPass.PrunesBySpec | internal/controller/sparkjob_scheduled.go:265-308 | as many succeeded children stay as `successfulJobsHistoryLimit` says, as many failed ones as `failedJobsHistoryLimit` says, three if it says nothing, the newest of each |
| ScheduledPass.ReplacesBySpec | internal/controller/sparkjob_scheduled.go:187-209 | children at work stay, unless a fire that may run replaces them; then they all go |
| ScheduledPass.ShowsItsChildren | internal/controller/sparkjob_scheduled.go:310-346 | the status says Running if and only if a child is at work, lists those in the order of their names, and gives the first fire to come in the spec's zone |
| ScheduledPass.SuspendedPass | internal/controller/sparkjob_scheduled.go:42-49 | a suspended pass touches no child and reports Pending with nothing active even while children are at work |
| ScheduledPass.DelayMeaning | internal/controller/sparkjob_scheduled.go:94-107 | the delay ends with the first fire to come if that is between a second and five minutes away, and is 15 s if none comes |
| SchedulerRuns.NoSwallowedFireTime | internal/controller/sparkjob_scheduled.go:67-92 | in every run, writes lost or not: a pass that creates a child issues a status write that carries the child's fire time |
| SchedulerRuns.CreatingPassWrites | internal/controller/sparkjob_scheduled.go:316-367 | the same of one pass: the new child survives pruning and its fresh uid makes the statuses differ |
| SchedulerRuns.WriteSkippedExactly | internal/controller/sparkjob_scheduled.go:316-346 | a pass that acts on a fire writes nothing if and only if stored phase, active list and next time are already those it computes, in any state |
| SchedulerRuns.SwallowedExactly | internal/controller/sparkjob_scheduled.go:67-92 | in every run: a pass whose writes land leaves the fire time it acted on unrecorded exactly then, and has created nothing |
| SchedulerRuns.AlwaysFresh | internal/controller/sparkjob_scheduled.go:211-251 | in every run stored uids are older than the next one, and children are named after whole-second fires |
| SchedulerRuns.AtMostOnce | internal/controller/sparkjob_scheduled.go:59-73 | when writes land, fire times of created children strictly increase along the run, and the last schedule time never falls nor passes the clock |
| SchedulerRuns.ActsOnNewName | internal/controller/sparkjob_scheduled.go:243-249 | when writes land, the fire a pass acts on has no child yet |
| SchedulerRuns.CreatesExactly | internal/controller/sparkjob_scheduled.go:43-77 | exactly when a pass creates a child, in any state |
| SchedulerRuns.ReactingAddsNoChild | internal/controller/sparkjob_scheduled.go:243-249 | after a lost write, re-acting adds no child while the first one exists, unless it is replaced and gone at once |
| SchedulerRuns.RepeatsArePaidFor | internal/controller/sparkjob_scheduled.go:67-92 | in every run, under any policy and with the spec edited: children beyond one per fire time are at most the creations whose status write was lost |
| SchedulerRuns.RecordedIsFinal | internal/controller/sparkjob_scheduled.go:128-160 | in every run: every child created from some moment on is for a fire after the schedule time stored then |
| SchedulerRuns.CreatedAtWalkedFires | internal/controller/sparkjob_scheduled.go:128-147 | in every run: children are created at fires of the schedule as evaluated in the zone of stored times |
| SchedulerRuns.BoundedFootprint | internal/controller/sparkjob_scheduled.go:187-308 | under every policy but Allow, replaced children gone at once: at most one active child and at most success limit + failed limit + 1 in all, in every state of every run |
| ExactSchedule.PassActsOnTheLast | internal/controller/sparkjob_scheduled.go:58-77 | a pass under Allow acts on the newest elapsed fire and on no other |
| ExactSchedule.NothingSkippedExactly | internal/controller/sparkjob_scheduled.go:58-92 | a run skips no fire if and only if every pass finds at most one elapsed; a skipped fire is never made up for |
| ExactSchedule.DelayCoversOneFire | internal/controller/sparkjob_scheduled.go:94-107 | of one schedule: within the delay a pass returns at most one fire elapses |
| ExactSchedule.SameZoneWakesInTime | internal/controller/sparkjob_scheduled.go:89-107 | a schedule walked and waited for in one zone wakes in time |
| ExactSchedule.TimelyPassesSkipNothing | internal/controller/sparkjob_scheduled.go:31-108 | when the schedule wakes in time, punctual and quick passes skip no fire |
| ExactSchedule.ChildrenAreExactlyTheFires | internal/controller/sparkjob_scheduled.go:31-108 | if the schedule wakes in time and passes so far were punctual and quick, the children created by the end of a pass are exactly the fires since the creation, each once and in order |
| WakeUps.PunctualRunsSkipNothingExactly | internal/controller/sparkjob_scheduled.go:51-107 | every run of punctual and quick passes is complete if and only if the schedule wakes in time: in no delay two fires elapse |
| WakeUps.ZoneAbroadMissesFires | internal/controller/sparkjob_scheduled.go:45-60 | a run of punctual and quick passes, the spec naming a zone an hour ahead: one child for five fires, none of them a fire in the zone named |
| SchedulerWitnesses.SlowPassSkipsAFire | internal/controller/sparkjob_scheduled.go:51-99 | a run with punctual passes that skips a fire, which elapses during the first pass |
| SchedulerWitnesses.ReplaceRunsAFireTwice | internal/controller/sparkjob_scheduled.go:201-208 | a run with one lost write, replaced children gone at once, in which a fire gets two children |
| SchedulerWitnesses.ReplaceLosesARun | internal/controller/sparkjob_scheduled.go:201-249 | the same with a child that lingers: the fire is recorded and ends without a child |
| SchedulerWitnesses.ReactingPassCanSwallow | internal/controller/sparkjob_scheduled.go:316-346 | a run in which a pass that creates nothing leaves its fire time unwritten |
| Shell.QuoteRoundTrip | internal/controller/sparkjob_controller.go:511 | any one string, quoted, is read back as that one field, unless it holds a NUL |
| Shell.OptionLineLexed | internal/controller/sparkjob_controller.go:502 | one option line adds exactly the flag and the value to the fields, whatever the value holds |
| SubmitScript.ScriptRoundTrip | internal/controller/sparkjob_controller.go:493-511 | the shell reads the script back as exactly the intended argument vector, for every job and mapping without NUL; with a NUL it is no shell input |
| SubmitScript.SparkSubmitScript | internal/controller/sparkjob_controller.go:449-509 | the printed text depends on the merged mapping alone, whatever the map order, lexes to the intended vector, and its fields are what the job asks for, one by one |
| SubmitScript.ConfPrecedence | internal/controller/sparkjob_controller.go:482-503 | each key of the three maps is printed once, ascending, with the user's value over the derived over the built-in one |
| SubmitScript.RoundTripOf | internal/controller/sparkjob_controller.go:493-511 | the round trip for any fixed words that need no quoting, of which the script's own are an instance |
| SubmitScript.ArgvAsAsked | internal/controller/sparkjob_controller.go:449-509 | the intended vector, field by field: opening, name, class if there is one, one `--conf` for exactly the settings that user, references or job give, nothing else, main file, arguments |
| SubmitScript.CoresAsked | internal/controller/sparkjob_controller.go:466-478 | unless overridden, `--conf spark.executor.cores=n` occurs if and only if executors have a CPU request and n is the least count of at least one covering it; the driver likewise |
| SubmitScript.MemoryAsked | internal/controller/sparkjob_controller.go:472-480 | the same for the memory of executors and driver |
| BuiltinConf.BuiltinsMeaning | internal/controller/sparkjob_controller.go:450-481 | which built-in settings there are and what each says, key by key, the service account included |
| BuiltinConf.CoresCoverRequest | internal/controller/sparkjob_controller.go:466-478 | the cores asked of Spark are the fewest whole ones, at least one, that cover the request |
| BuiltinConf.MemoryWithinRequest | internal/controller/sparkjob_controller.go:513-522 | the memory asked of Spark never exceeds the request and misses less than a mebibyte; below one mebibyte it is zero |
| Text.SortStrings | internal/controller/sparkjob_controller.go:487-491 | the only ascending enumeration of the keys |
| Text.AscendingIsUnique | internal/controller/sparkjob_controller.go:486-491 | there is one ascending enumeration of a set of keys |
| ExecutorEnv.ToldAsTakenExactly | internal/controller/sparkjob_controller.go:641-693 | the settings of a variable are what the driver's container takes if and only if it is unambiguous: one kind, not taken from elsewhere, Env and EnvFrom naming the same key |
| ExecutorEnv.AllConfAt | internal/controller/sparkjob_controller.go:644-690 | per kind and variable the last EnvFrom object that holds it decides, else the last Env item |
| ExecutorEnv.MirrorsExactly | internal/controller/sparkjob_controller.go:641-693 | one setting per ref-backed Env item and per key of every present EnvFrom object, naming that object and key, if and only if no two supplies of one kind and variable differ |
| ExecutorEnv.OutcomeMeaning | internal/controller/sparkjob_controller.go:658-692 | settings come out if and only if every required object exists; otherwise the first missing one in list order is reported |
| ExecutorEnv.FirstNeedIsReported | internal/controller/sparkjob_controller.go:658-692 | the first item that cannot do without a missing Secret or ConfigMap decides kind and name of what is reported |
| ExecutorEnv.OptionalIsPassedOver | internal/controller/sparkjob_controller.go:663-682 | an optional object that is missing changes nothing, wherever it stands |
| ExecutorEnv.EverySettingIsSourced | internal/controller/sparkjob_controller.go:644-690 | every setting has Spark's name for a variable that an item refers to or whose object has a key, and names that object and key |
| ExecutorEnv.EverySourceIsSet | internal/controller/sparkjob_controller.go:644-690 | every such item gives its variable a setting |
| ExecutorEnv.DerivedExecutorEnvConf | internal/controller/sparkjob_controller.go:641-693 | the loops compute that outcome, independently of the order in which an object's keys are walked |
| ExecutorEnv.ConfKeyInjective | internal/controller/sparkjob_controller.go:651-688 | a setting determines the kind and the variable |
| ExecutorEnv.ConfValueInjective | internal/controller/sparkjob_controller.go:651-688 | its value determines the object and the key |
| ExecutorEnv.BulkSourceOverridesEnvItem | internal/controller/sparkjob_controller.go:672-674 | a variable from a Secret in Env and another in EnvFrom takes the EnvFrom one |
| Executors.ListExecutorPods | internal/controller/sparkjob_controller.go:275-293 | compacting into the array being read leaves the order-preserving filter of the original list |
| Executors.FilterIsExact | internal/controller/sparkjob_controller.go:283-291 | the filter keeps every owned pod once, in order, however often the owner reference is repeated |
| Executors.RunningExecutors | internal/controller/sparkjob_controller.go:295-305 | the running count is the number of owned Running pods of the original list |
| Executors.DesiredCountMeaning | internal/controller/sparkjob_controller.go:175-189 | an explicit count is honoured; without a size the minimum or one; with one the 256th, moved up to the minimum and then down to the maximum |
| Executors.TunedWithinBoundsExactly | internal/controller/sparkjob_controller.go:179-184 | a tuned count is within the bounds, for every 64-bit size, if and only if the bounds are ordered |
| Executors.TunedMonotonically | internal/controller/sparkjob_controller.go:180 | monotone in the input size while the quotient fits 32 bits |
| Executors.TunedBackwards | internal/controller/sparkjob_controller.go:180 | beyond that it falls back to the minimum |
| Executors.TunedMonotonicallyExactly | internal/controller/sparkjob_controller.go:179-184 | tuning is monotone on all sizes up to some cap if and only if the quotient of the cap fits 32 bits |
| DriverLifecycle.SparkJob.Reconcile | internal/controller/sparkjob_controller.go:114-170 | a pass computes `Reconciled`: terminal jobs untouched, awaiting, creating, or updating |
| DriverLifecycle.SparkJob.UpdateJobStatus | internal/controller/sparkjob_controller.go:295-364 | phase, retries, times and the deletion of a failed driver, with skipped and lost writes |
| DriverLifecycle.DriverDecidesPhase | internal/controller/sparkjob_controller.go:312-339 | the job ends exactly as its driver does: Succeeded if and only if the driver succeeded, Failed if and only if it failed with the budget spent; otherwise it shows what the driver does, and a retry counts |
| DriverLifecycle.DriverPassRecords | internal/controller/sparkjob_controller.go:295-342 | which driver is left, the counts, the driver's name, the times and the cost after such a pass |
| DriverLifecycle.EndsAsItsDriver | internal/controller/sparkjob_controller.go:295-364 | in every run, template interludes included: a job ends only in a pass that finds its driver ended, and in the same way |
| DriverLifecycle.AwaitingSettles | internal/controller/sparkjob_controller.go:134-147 | a pass that misses an object records it and Pending and nothing else, and a further pass that misses the same one writes nothing |
| DriverLifecycle.BudgetAccounting | internal/controller/sparkjob_controller.go:130-161 | in every run, template interludes included: drivers created = present + deleted by the controller + removed by others; controller deletions at most persisted retries + lost writes; retries never fall nor exceed the budget; Failed only with the budget spent |
| DriverLifecycle.TimesAreSound | internal/controller/sparkjob_controller.go:315-337 | while a job has had no schedule: Running implies a start time, completion time exactly on terminal phases, finished jobs left alone |
| DriverLifecycle.TimesNeverChange | internal/controller/sparkjob_controller.go:315-341 | in every run, template interludes included: both times are set once, finished jobs have a completion time, jobs not started cost nothing |
| DriverLifecycle.SkippedWriteLosesNothing | internal/controller/sparkjob_controller.go:341-382 | a write is skipped if and only if it would change nothing, because recording a start changes the cost and a completion the phase |
| DriverLifecycle.ComparisonIsSound | internal/controller/sparkjob_controller.go:354-373 | in every run, template interludes included, a write is skipped if and only if it would change nothing |
| DriverLifecycle.InterludeKeepsAgreementExactly | internal/controller/sparkjob_scheduled.go:336-342 | a pass as a template keeps phase and times in agreement if and only if it reopens no finished job and calls none Running that has not started |
| DriverLifecycle.DriverNeedsItsObjects | internal/controller/sparkjob_controller.go:134-157 | a driver is created if and only if the job is open, has none, and every required object exists; otherwise the first missing one becomes the awaited dependency |
| TrainingRuns.TrainingRun.Reconcile | internal/controller/trainingrun_controller.go:56-127 | a pass computes `Reconciled`: missing ranks created, extra and failed ones deleted, status from the pods listed before (told rank by rank: `RepairMeaning`) |
| TrainingRuns.TrainingRun.CreateMissing | internal/controller/trainingrun_controller.go:102-114 | every rank below the world size that was not listed gets one new pod, no other changes |
| TrainingRuns.RepairMeaning | internal/controller/trainingrun_controller.go:93-120 | in any open state a listed pod goes if and only if its deletion works and its rank is beyond the world size, or it failed and the run resumes; a rank gets a pod if and only if it is within the world size and none was listed |
| TrainingRuns.RanksAreRepaired | internal/controller/trainingrun_controller.go:93-120 | in every run, resized at will: a pass with working deletions leaves pods for exactly the ranks within the world size, those aside that failed and are resumed |
| TrainingRuns.StatusMeaning | internal/controller/trainingrun_controller.go:210-260 | phase, ready count and resumes after a landed pass, each told by the pods that were listed |
| TrainingRuns.PassRecordsTimes | internal/controller/trainingrun_controller.go:226-281 | when a pass notes a time, what it says of the cost, and that finished runs are left alone |
| TrainingRuns.CountWorkers | internal/controller/trainingrun_controller.go:211-223 | the counters are the sizes of the sets of ready, failed and succeeded ranks, in any order of the map |
| TrainingRuns.TrainingRun.UpdateTrainingStatus | internal/controller/trainingrun_controller.go:210-281 | phase, resumes, times and deletions of failed workers, with skipped and lost writes |
| TrainingRuns.CountsMeanAllRanks | internal/controller/trainingrun_controller.go:229-252 | with ranks in range, Succeeded is computed if and only if every rank succeeded, Running if and only if every rank is ready |
| TrainingRuns.SuccessIsReal | internal/controller/trainingrun_controller.go:229-260 | in every run whose world size is never lowered the phase turns Succeeded, or Running, only when that holds of every rank |
| TrainingRuns.SuccessIsRealExactly | internal/controller/trainingrun_controller.go:230 | in any state, a computed success is real if and only if no rank outside the world size succeeded |
| TrainingRuns.ShrinkingFakesSuccess | internal/controller/trainingrun_controller.go:116-122 | a run, with the world size lowered, declared Succeeded while its only rank still runs |
| TrainingRuns.ResumeBudget | internal/controller/trainingrun_controller.go:236-251 | in every run: resumes grow by at most one a pass, never fall nor exceed the limit, and Failed implies they are spent |
| TrainingRuns.PodBudget | internal/controller/trainingrun_controller.go:102-120 | in a clean run each rank has had at most 1 + resumes pods |
| TrainingRuns.TimesAreSound | internal/controller/trainingrun_controller.go:229-260 | in every run: Running implies a start time, completion time exactly on terminal phases, both set once, terminal statuses final |
| TrainingRuns.ComparisonIsSound | internal/controller/trainingrun_controller.go:272-289 | in every run a skipped write loses nothing |
| TrainingTermination.StepMeasured | internal/controller/trainingrun_controller.go:93-120 | no step of a steady run raises the measure; every pod advance and every pass that creates or deletes a pod or ends the run lowers it |
| TrainingTermination.TrainingTerminates | internal/controller/trainingrun_controller.go:229-260 | a steady run does at most (max retries + 1)(3 world size + 2) - 1 such steps, and has ended once it has done them all |
| TrainingTermination.NeverStuck | internal/controller/trainingrun_controller.go:93-120 | while a run is open some pod can advance or the next pass does something |
| Admission.ValidateSparkJob | internal/webhook/v1alpha1/sparkjob_webhook.go:69-193 | the error list names exactly the violated rules, once each and in order, and is empty exactly for admitted specs |
| Admission.AdmittedMeaning | internal/webhook/v1alpha1/sparkjob_webhook.go:74-186 | what an admitted spec is like, every rule turned round |
| Admission.AdmittedTemplate | internal/webhook/v1alpha1/sparkjob_webhook.go:149-171 | an admitted template has limits that slice in range and a known policy; its deadline may still overflow |
| Admission.AdmittedTuning | internal/webhook/v1alpha1/sparkjob_webhook.go:90-113 | an admitted job with both bounds is tuned within them for every input size; with a zero maximum it is tuned to zero |

## Left out

- The cron library: field parsing, calendars, zone tables, and its five-year search horizon; a lawful schedule that returns zero has no later fire.
- Passes that end early because an API call fails for another reason than a conflict, a missing object or a name already taken.
- Caches, watches, leader election, finalizers, owner-reference garbage collection; a pass reads a fresh store.
- Deletion propagation: a successful delete removes the object at once, except that a replaced child may linger until it goes by itself.
- RBAC, Service and ConfigMap creation, pod specs, GPU and spot settings: field copying with easy claims only.
- Kubernetes expansion of `$(VAR)` in container arguments: the round trip is about the text the controller produces.
- The amount of a cost estimate, a floating-point display value: once a job has started it is any text but the two that mean no cost. Metrics and logging are not modelled.
- Warnings of the SparkJob webhook, and the whole TrainingRun webhook.
- Lists of 2^31 children or pods and more, whose lengths wrap around 32 bits.
- Objects that carry the operator's labels but were made by others, including pods with repeated, negative or unreadable ranks.
- The text of the DependenciesReady condition: it is reduced to the object it names, and its other conditions are not modelled.
- The recreation of a template under the same name while children of the old one exist.
- `sort.Slice`, `sort.Strings`, `maps.Copy` and `strings.ReplaceAll` act on values; only the code's own in-place filter works on an array.
- Characters are Unicode scalar values where Go has UTF-8 bytes; the order of keys is the same.
- Scheduler.Store.ReconcileScheduled: reads the clock once at the start and once after the reload, where the code reads it again for the delay.
- ChildrenAreExactlyTheFires: needs, besides punctual passes, that no fire elapses during a pass and that the schedule wakes in time; SlowPassSkipsAFire and ZoneAbroadMissesFires show that without them it fails, NothingSkippedExactly and PunctualRunsSkipNothingExactly give the exact conditions.
- TrainingTerminates: a lost or unknown pod counts as a running one, and a pod that goes back to pending is excluded.
- ExecutorEnv.ToldAsTakenExactly: key references that are optional or whose key is missing, and keys that are no variable names, are taken as if they were there.
- QuoteRoundTrip: the lexer rejects unquoted operators, expansions, patterns and double quotes, none of which the printer produces.
