# Abstruse: models and proofs

Abstruse is a continuous-integration server. Its scheduler keeps a queue of jobs, places them on
connected workers, and aggregates their results into builds; a worker runs a job's commands in a
container and streams the log and the verdict back. This project models that core, the command
generator that feeds it, and three reconciliation loops beside it (websocket subscriptions, team
permissions, provider synchronisation), and proves what they keep over every input and every run.

`dafny verify dfyconfig.toml` checks everything.

## How the model is laid out

| file | what it models |
|---|---|
| `Types` | tickets, job rows, first-match removal, shared by all scheduler modules |
| `FineSteps` | the scheduler as a transition system: every lock-protected section is one step, and any number of `Next`, `Stop`, `Resume`, `startJob` activities interleave with the single run loop, workers that come and go, and the timer |
| `SlotLimits` | exactly when fine steps keep every worker within its maximum |
| `WakeUps` | exactly when a comparison of workers that finds them full can lose a wake-up |
| `SchedulerSpec` | the scheduler on values at coarse granularity: `Next`, `Stop`, the dispatch prefix (`process`, then `startJob` to its pending entry) and the end of an execution are one step each |
| `Granularity` | every coarse run is a fine run on the same workers |
| `StopRecord` | what stopping the jobs of a build, in any order, leaves in the build's own record |
| `Scheduler` | the `scheduler`, registry and worker objects as classes that update their fields, each method proved against `SchedulerSpec` |
| `BuildTimes` | the build aggregator over whole runs of job saves, one save at a time |
| `BuildRuns` | a build's times and report over whole coarse runs on a clock that does not go back |
| `RowHistory` | what the rows of a build's jobs say over whole coarse runs, read off the calls, dispatches and ends |
| `BuildSections` | saving and aggregating section by section, with any number of calls for one build under way |
| `BuildVerdict` | from the exit codes of a build's jobs to the status reported for it |
| `Levelling` | greedy placement on the worker with the most free slots |
| `Parser`, `Splitting`, `Mounts` | job generation, joined lists, mount and cache encoding |
| `CommandRunner` | `RunContainer`: command loop, cut-off at the first failure, hooks, cache points |
| `Masking` | replacement of secret values in log chunks |
| `MaskedLog` | the joined log: what can be read in it across chunk boundaries |
| `WorkerJobs` | the worker's table of jobs and its containers under overlapping `StartJob` and `StopJob` calls |
| `Verdict` | handler, response stream, receive loop and the recorded status and log |
| `Slices`, `Websocket` | Go slices cut in place inside a range loop; clients, subscriptions, broadcasting |
| `Permissions` | the team update handler and the effective rights |
| `ProviderSync` | the paging loop that stores a provider's repositories |

Each theorem about the scheduler says in its comment which granularity it uses. The fine ones
(slot conservation, wake-ups, pause, order of dispatch, and the exact conditions for limits) hold
under every interleaving of the lock-protected sections. The coarse ones (queue discipline, rows,
stopping, restarting, a build's end and report) hold when nothing interleaves inside a step, and saving
a job counts as one step there. `Granularity.CoarseRunsAreFineRuns` matches every coarse run with a fine
run that has the same connections, worker objects, counters, queue, pending keys and executions; the
fine machine has no stored rows. `BuildSections` takes a save apart for one build.
`Scheduler.Scheduler.Drain` is the run loop by itself, with no other event.

Methods of classes are the loops and updates of the original; what they compute is a function of
the old state, and the lemmas beside them say what that function means. External parties are
parameters: exit codes and engine errors are an oracle per command, file existence is a predicate,
the worker's answer to a stop is a flag, a database error is a nondeterministic branch. Time is an
abstract number. `protojson`, YAML and the job copy kept by the database are treated as identities.

## Results that are not what one would expect

* `FineSteps.LostWakeUp`: an ending execution signals the run loop before its deferred decrement
  gives the slot back (`scheduler.go:391` against `273-277`), so a free slot can be left with work
  queued and no signal on its way. `WakeUps.WakeUpKeptIff` is the exact condition: after a comparison
  that finds every listed worker full, and until the loop takes a token or a worker connects, a token
  is kept or all stay full, exactly if a token is there already or no listed worker has room even when
  the executions past their last signal give their slots back. A connecting worker sends no signal
  either. `WakeUpSafety` says that there is no other way. `WakeUpLostIff`: such a loss can follow exactly
  if there is queued work, no pause, no token there or owed, and a listed worker that has room once such
  executions give their slots back. `TickDispatches`: the next timer tick repairs it.
* `SlotLimits.OverMax`: a worker can run more jobs than its maximum, because it is chosen by a
  counter that the spawned execution increments later. `OverMaxIff`: a run and everything already
  picked in it stay within the maxima exactly if every picked worker had room for one more than was
  sent to it and had not returned.
* `SchedulerSpec.RequeueWhileLive`: queueing a job again while its old execution is alive can leave it
  queued with an end time. `SafeEndIff`: stored end times keep telling who waits exactly if nobody does that.
* `BuildSections.LastSaveDecides`: saving and aggregating hold no lock. When the row that ends the last
  job is written, the build is sure to get the right end, start and one status exactly if no other call
  for the build is under way. Otherwise two statuses can be sent, or, as in `EndLost`, an aggregation that
  read earlier writes its nil end time over the end, and the build never ends. The hypothesis is that no
  save opens a row that had ended. Scheduling every job once is not enough for it: in `RowReopened` the
  queued row of `Next`, saved after the job was appended to the queue (`scheduler.go:71` and `78`), comes
  after the job's end, and neither the job nor the build ever ends.
* `BuildTimes.ReportedAgainIff`: a finished build without a start time is reported again by every further
  aggregation. A new build has a start time from its creation (`server/store/build/build.go:172`), but
  `BuildRuns.RestartThenStop` reaches such a build from any other: restart it and stop all its jobs
  before one is dispatched.
* `WorkerJobs.StopHoldsIff`: a stop is certain to hold exactly if no call for the job is past its look at
  the table without a container, and none is before it while the job is listed; `StopMissesContainer`
  is a run in which it does not. `KeepsPlaceIff`: a waiting call keeps its place on the table exactly if no
  other call for its job is there, because any cleanup takes the job off; `OverlapLosesJob` is a run.
* `Masking.MaskingCompleteIff`: masking one secret removes it from every chunk exactly if the value
  is not empty, has no star at either end and no ten stars in a row. `MaskedLog.LogContainsIff`: with such
  values, a secret can be read in the joined log exactly if it can be read in a stretch of original text
  that runs through chunk boundaries without a mask in between; `SplitSecretIff` says it for two chunks,
  and by `SplitSecretLeaks` every secret can be cut so that it passes.
* `Slices.SweepRemovesIff`: removing inside the range loop is wrong or panics on some slices with
  duplicates; the condition is exact, and no run of subscriptions reaches one of them.
* `Permissions.OneRowIff`: an update leaves two rows for a repository exactly if it was requested and either
  two were stored, or none was stored and it was requested twice. The handler's refusal of a caller who is
  not an admin dereferences a nil error (`update.go:38-39`); the model calls that answer `Crashed`.
* `ProviderSync.ProviderStore.Sync`: a failing page request ends the synchronisation without an error.

Where code and documentation differ, the model follows the code. `docs/ABSTRUSE_YML.md:110-111` speaks of
`after_success` and `after_failure` commands; only the last one of each runs. `docs/ABSTRUSE_YML.md:47-48`
promises the cache after a successful build; it is saved after the last install or script command, even if
an `after_script` command fails later. A deploy job has neither, so by `CommandRunner.DeployJobTrace` its
cache is saved right behind its first command. Matrix jobs get no mounts from `Parse`; the build store joins the
list itself and overwrites it (`server/store/build/build.go:207`).

## Model

| member | source | states |
|---|---|---|
| FineSteps.SlotConservation | server/scheduler/scheduler.go:268-277 | on every fine run: a worker's `Running` is the number of executions between increment and deferred decrement, every pending key belongs to a live execution of that job, pending is no larger than the sum of `Running`, and all of it returns to zero when nothing is active |
| FineSteps.PendingStep | server/scheduler/scheduler.go:338-345 | one fine step keeps every pending key owned by an execution between its entry and its delete |
| FineSteps.WakeUpSafety | server/scheduler/scheduler.go:588-599 | with no token, an idle loop and nobody owing a signal, unpaused queued work means the last `process` saw every worker full, and a slot is free only if since then a worker connected or an execution that had sent its last signal before gave its slot back |
| WakeUps.SignalKept | server/scheduler/scheduler.go:387-391 | where no such execution can make room, every undisturbed run keeps a token or all workers full |
| WakeUps.WakeUpKeptIff | server/scheduler/scheduler.go:250-256 | the exact condition under which a comparison that finds all workers full cannot lose a wake-up |
| WakeUps.WakeUpLostIff | server/scheduler/scheduler.go:250-256 | the exact condition, after such a comparison, for an undisturbed run to reach a quiet state with unpaused work, a free slot, and no token there or owed |
| FineSteps.LostWakeUp | server/scheduler/scheduler.go:387-391 | a reachable quiet state with work queued and a free slot |
| FineSteps.TickDispatches | server/scheduler/scheduler.go:588-599 | from any idle state with work and a free slot, one tick and one iteration start the head of the queue on any worker that is listed and has the most free slots, and no other can be picked |
| FineSteps.CrewIsConnected | server/worker/registry.go:24-38 | on every run the worker objects are those that connected, each with the maximum it brought, and those are listed that have not disconnected |
| FineSteps.PauseBound | server/scheduler/scheduler.go:182-195 | from any state, paused or not: after a call of `Pause` and until the next `Resume` at most one more job is dequeued, and none if the loop had not passed its pause check |
| FineSteps.PausedIff | server/scheduler/scheduler.go:182-195 | on every run the scheduler is paused exactly if the last of its `Pause` and `Resume` calls was a `Pause` |
| FineSteps.ResumeDispatches | server/scheduler/scheduler.go:189-195 | from any paused idle state with work and a free slot, `Resume`, its signal and one iteration start the head of the queue on any most-free worker |
| FineSteps.FifoOrder | server/scheduler/scheduler.go:401-411 | what was dispatched followed by what is queued is the arrival order of all `Next` calls without the removed entries, so dispatch stamps increase |
| FineSteps.FifoRemove | server/scheduler/scheduler.go:426-436 | splicing out an entry keeps the arrival order of the rest |
| SlotLimits.NeverOverMax | server/scheduler/scheduler.go:438-459 | no worker exceeds its maximum on any fine run in which every picked worker has room for one more than was sent to it and has not returned |
| SlotLimits.SafeNowIff | server/scheduler/scheduler.go:268-277 | a state leads to no worker above its maximum before the next comparison exactly if no worker was sent, or is picked for, more than its maximum |
| SlotLimits.OverMaxIff | server/scheduler/scheduler.go:250-271 | a run from the start leads to no worker above its maximum, also by what is already picked going on, exactly if every pick had that room |
| SlotLimits.OverMax | server/scheduler/scheduler.go:250-271 | a run in which one slot ends up with two running jobs |
| Granularity.CoarseRunsAreFineRuns | server/scheduler/scheduler.go:67-96 | every coarse run from the start is matched by a fine run with the same connections and choice of workers, the same queue, pending keys and worker objects, and every live execution on its worker; each counter equals the number of live executions there |
| Granularity.StopAgrees | server/scheduler/scheduler.go:98-144 | the sections of one undisturbed `Stop` do to queue and pending keys what the coarse step does |
| Granularity.NextAgrees | server/scheduler/scheduler.go:67-76 | the same for `Next` |
| Granularity.DispatchAgrees | server/scheduler/scheduler.go:241-279 | the same for a loop iteration that picks a listed most-free worker, and its execution up to the pending entry |
| Granularity.FinishAgrees | server/scheduler/scheduler.go:387-391 | the same for the end of an execution |
| Granularity.CrewAgrees | server/worker/registry.go:24-38 | the same for workers that connect and disconnect |
| SchedulerSpec.QueueDiscipline | server/scheduler/scheduler.go:67-81 | on every coarse run queued ids are distinct and none is pending |
| SchedulerSpec.MannedRun | server/scheduler/scheduler.go:338-345 | on every coarse run a live execution carries the id of the worker whose slot it took, and the ids are those with which workers connected |
| SchedulerSpec.EndTimeIsExact | server/scheduler/scheduler.go:279-285 | for any set of jobs, whatever happens to others: if each of them is queued again only after its execution returned, its stored end time is nil exactly while it is queued or pending |
| SchedulerSpec.RequeueWhileLive | server/scheduler/scheduler.go:382-389 | a job queued again earlier is queued with an end time once its old execution returns |
| SchedulerSpec.SafeEndIff | server/scheduler/scheduler.go:67-81 | a run leaves, at each of its states, the end times of the given jobs telling who waits under everything that may follow politely, exactly if none of these jobs is queued again while an execution of it is live |
| SchedulerSpec.StopOne | server/scheduler/scheduler.go:98-144 | what a stop removes and writes, for a queued, a pending and an unknown job |
| SchedulerSpec.StopOrderIrrelevant | server/scheduler/scheduler.go:165-180 | stopping jobs in any order and repetition gives one queue, one pending map and one set of rows: the stopped leave, the others keep entries and order |
| SchedulerSpec.WithoutIsFilter | server/scheduler/scheduler.go:426-436 | exactly the entries of the stopped jobs are gone |
| StopRecord.RecordAfterStops | server/scheduler/scheduler.go:503-562 | stopping jobs of a build in any order leaves the build's record as a single aggregation over the final rows makes it, or untouched if none was queued or pending; no other build's record changes |
| StopRecord.StopOrderState | server/scheduler/scheduler.go:165-180 | the whole state, the record included, depends only on which jobs of the build are stopped |
| StopRecord.ReadyInRun | server/scheduler/scheduler.go:98-144 | in every state of a run that gives each job of the build to `Next` once, a job that can still be stopped has not ended and waits under the build |
| SchedulerSpec.BuildEndsExactly | server/scheduler/scheduler.go:479-485 | on a coarse run that gives each job of a build to `Next` once, whatever happens to other jobs, the build has an end time and a sent status exactly if all its jobs were scheduled and none is queued or pending |
| SchedulerSpec.SaveKeeps | server/scheduler/scheduler.go:479-485 | any save, of the build's jobs or others', keeps the relation between a build's end, its report and its jobs' rows |
| SchedulerSpec.RestartClears | server/scheduler/scheduler.go:146-163 | restarting a build with no waiting job clears its times, reopens every job and queues them behind the rest, the k-th job of the build at the k-th place |
| BuildRuns.EndOfBuild | server/scheduler/scheduler.go:503-562 | on a coarse run that gives each job of the build to `Next` once, whatever happens to other jobs, with a clock that does not go back, the step that ends the last job sets end to the latest job end, which is the time of that step, and start to the earliest job start, not after the end, sends exactly one status, success exactly if all jobs pass, and nothing later changes a build that has a start |
| BuildRuns.PastRun | server/scheduler/scheduler.go:279-285 | on every coarse run with a clock that does not go back, nothing stored about a build and no execution's start ever lies in the future |
| RowHistory.RowsAreTold | server/scheduler/scheduler.go:74-77 | on a run that gives each job to `Next` once, every row's status, start and end are what the labels tell: the start is the time on the dispatch that sent the job, through a stop and the end of its execution alike, and a job never dispatched has none |
| RowHistory.StartOfBuild | server/scheduler/scheduler.go:279-285 | at the step that ends the last job the build's start is the least time on the dispatches of its jobs |
| BuildRuns.BeginsAfterRestart | server/scheduler/scheduler.go:146-163 | an undisturbed restart of a build none of whose jobs was waiting or live leaves a state from which the results about its end hold |
| BuildRuns.BeginsWhenCreated | server/store/build/build.go:155-212 | so does a new build, none of whose jobs was given to `Next` |
| BuildRuns.RestartThenStop | server/scheduler/scheduler.go:146-180 | restarting a build and stopping all its jobs leaves an end without a start, and the aggregation that `StopBuild` ends with sends the status again |
| BuildSections.AloneIsAggregate | server/scheduler/scheduler.go:503-562 | the sections of one aggregation in a row do what the aggregation on values does |
| BuildSections.SettlesIff | server/scheduler/scheduler.go:479-562 | when all rows have ended and one call is about to read, whatever the other calls under way are doing, also writing rows: they leave the build right, however they interleave, exactly if there is no other |
| BuildSections.LastSaveDecides | server/scheduler/scheduler.go:479-562 | the same at the save that ends the last job, on any run in which no save opens a row that had ended |
| BuildSections.EndLost | server/store/build/build.go:117-119 | a run that ends with both jobs over, success sent, nothing under way and no end time |
| BuildSections.RowReopened | server/scheduler/scheduler.go:67-80 | a run of saves of one job, scheduled once: its late queued row comes after its ended row, nothing is under way, and neither job nor build has an end time |
| BuildVerdict.SuccessMeansAllGreen | server/scheduler/scheduler.go:543-559 | with each job of the build given to `Next` once, whatever happens to other jobs: the step that ends the last job reports success only if every job had an execution whose commands, hooks aside, all exited 0; exactly then, if no stream was cut short |
| BuildVerdict.RowsRun | server/scheduler/scheduler.go:378-385 | on such a run a passing row was written by an ended execution, and an ended execution's row stays as it wrote it |
| BuildTimes.EarliestIsMin | server/scheduler/scheduler.go:524-526 | the scan's start time is the minimum of the non-nil job starts |
| BuildTimes.LatestIsMax | server/scheduler/scheduler.go:520-522 | the scan's end time is the maximum of the job ends |
| BuildTimes.SaveStep | server/scheduler/scheduler.go:503-562 | what one save and its aggregation, uninterrupted, do before, at and after the end of the last job |
| BuildTimes.EndsWithLastJob | server/scheduler/scheduler.go:512-543 | at every point of a run of saves, one at a time and each job scheduled once, from cleared times, the build has ended exactly if all its jobs have, and nothing was reported before |
| BuildTimes.VerdictOfRun | server/scheduler/scheduler.go:528-559 | saves one at a time: the save that ends the last job fixes end to the latest end, start to the earliest start, and reports success exactly if all pass; if every job started before it ended, start is not after end; nothing later in the run changes the build or reports again |
| BuildTimes.ReportedAgainIff | server/scheduler/scheduler.go:508-510 | a finished build is reported again by the next aggregation exactly if its start time was never set |
| Levelling.GreedyIsOptimal | server/scheduler/scheduler.go:438-459 | whatever order workers are listed in, every chosen worker ends within one slot of the most free one, and no other placement of as many jobs leaves a smaller largest free capacity |
| Levelling.GreedyKeepsRoom | server/scheduler/scheduler.go:447-456 | a worker within its maximum stays within it |
| Types.FirstAt | server/scheduler/scheduler.go:413-436 | finding and removing a job, read off the position of its first entry |
| Scheduler.Registry.Add | server/worker/registry.go:24-30 | registers a worker under its host id, replacing an older one |
| Scheduler.Registry.Delete | server/worker/registry.go:32-38 | drops the entry of a host id |
| Scheduler.Registry.List | server/worker/registry.go:40-49 | all registered workers, each entry once, in any order |
| Scheduler.Scheduler.constructor | server/scheduler/scheduler.go:30-43 | nothing queued or pending, not paused, no token |
| Scheduler.Scheduler.Signal | server/scheduler/scheduler.go:394-399 | leaves one token, whether or not there was one |
| Scheduler.Scheduler.Pause | server/scheduler/scheduler.go:182-187 | pauses and touches nothing else |
| Scheduler.Scheduler.Resume | server/scheduler/scheduler.go:189-195 | resumes and leaves a token |
| Scheduler.Scheduler.FindJob | server/scheduler/scheduler.go:413-424 | the first entry for the id, or none |
| Scheduler.Scheduler.RemoveJob | server/scheduler/scheduler.go:426-436 | the queue without the first entry for the id |
| Scheduler.Scheduler.EnqueueJob | server/scheduler/scheduler.go:401-411 | takes the head of the queue |
| Scheduler.Scheduler.FindWorker | server/scheduler/scheduler.go:438-459 | a worker with the most free slots, none only if all are full |
| Scheduler.Scheduler.GetWorker | server/scheduler/scheduler.go:461-477 | whether a worker with the id is registered |
| Scheduler.Scheduler.ScanJobs | server/scheduler/scheduler.go:512-527 | all done exactly if every job has ended; the times are extrema over the jobs before the first open one |
| Scheduler.Scheduler.Succeeded | server/scheduler/scheduler.go:543-549 | success exactly if every job passes |
| Scheduler.Scheduler.UpdateBuildTime | server/scheduler/scheduler.go:503-562 | the database after one aggregation |
| Scheduler.Scheduler.SaveJob | server/scheduler/scheduler.go:479-485 | the row is written, then the build aggregated |
| Scheduler.Scheduler.Stop | server/scheduler/scheduler.go:98-144 | the coarse `Stop`, and when it reports success |
| Scheduler.Scheduler.Next | server/scheduler/scheduler.go:67-96 | the coarse `Next`, with a token left |
| Scheduler.Scheduler.StopJobs | server/scheduler/scheduler.go:170-178 | stopping a set of jobs in an order nobody chooses has one outcome for queue, pending map and rows, and is some sequence of single stops for the rest |
| Scheduler.Scheduler.StopBuild | server/scheduler/scheduler.go:165-180 | none of the build's jobs is left, the others keep their entries, and the build's record does not depend on the order of the stops |
| Scheduler.Scheduler.RestartBuild | server/scheduler/scheduler.go:146-163 | clears the build and queues its jobs again |
| Scheduler.Scheduler.StartJob | server/scheduler/scheduler.go:268-357 | counts the slot, removes a second entry, saves the running row, registers the execution, signals |
| Scheduler.Scheduler.FinishJob | server/scheduler/scheduler.go:382-391 | saves the ended row, drops the pending key, signals, gives the slot back |
| Scheduler.Scheduler.Process | server/scheduler/scheduler.go:241-266 | dispatches the head to a most-free worker, or nothing when paused, empty or full |
| Scheduler.Scheduler.Iterate | server/scheduler/scheduler.go:588-599 | one iteration keeps the account of what was dispatched where, and stops only when there is nothing to do |
| Scheduler.Scheduler.Drain | server/scheduler/scheduler.go:588-599 | the loop by itself ends after exactly min(queued, free capacity) dispatches, which are the head of the queue in order, each on a most-free worker |
| Scheduler.DrainLevels | server/scheduler/scheduler.go:438-459 | after draining no worker that was within its maximum exceeds it, and no other placement levels better |
| Splitting.JoinSplit | server/scheduler/scheduler.go:332-333 | splitting a joined list gives it back exactly if it is not empty and no part holds the separator |
| Splitting.SplitJoin | worker/docker/docker.go:259 | joining what was split gives the text back |
| CommandRunner.DropEmpty | pkg/lib/collection.go:52-60 | the list without its empty strings, in order |
| Splitting.DeleteEmptyAppend | pkg/lib/collection.go:52-60 | list by list, the empty strings go and the order stays |
| Parser.AppendCommands | server/parser/parser.go:224-231 | every text as a command of the phase, in order |
| Parser.TaggedAt | server/parser/parser.go:224-231 | position by position what the tagged list holds |
| Parser.GenerateCommands | server/parser/parser.go:200-212 | the seven phases in order; `TestLayout` says it by position |
| Parser.GenerateDeployCommands | server/parser/parser.go:214-222 | the three deploy phases in order; `DeployLayout` says it by position |
| Parser.TestLayout | server/parser/parser.go:200-212 | position by position, the commands of a test job are the texts of its seven phases, one behind the other, and nothing else |
| Parser.DeployLayout | server/parser/parser.go:214-222 | the same for before_deploy, deploy and after_deploy |
| Parser.Parse | server/parser/parser.go:79-164 | exactly when parsing fails and why; otherwise one job per matrix entry, or one, then a deploy job, each with its image, environment, mounts and cache, and position by position the commands of its phases |
| Mounts.BindMounts | worker/docker/docker.go:254-267 | the build directory, then in order a mount for every entry that is two paths around its only colon with an existing host path, and none for any other |
| Mounts.AcceptedIff | worker/docker/docker.go:258-265 | an entry gives a mount exactly if it is its two paths with one colon between them, no other colon, and the host path exists |
| Mounts.EntryDecodes | worker/docker/docker.go:258-261 | an entry decodes to the mount it encodes exactly if neither path holds a colon and the host path exists |
| Mounts.MountsSurvive | server/parser/parser.go:133 | joining, storing and splitting any comma-free list, also the empty one, does not change what the container gets |
| Mounts.MountRoundTrip | server/store/build/build.go:175-207 | configured mounts without commas and colons arrive as themselves, those with a missing host path left out, in order |
| Mounts.CacheRoundTrip | worker/docker/docker.go:56 | the cache list arrives without its empty entries |
| CommandRunner.SortCommands | worker/docker/docker.go:80-92 | main commands in order, and of each kind of hook the one at the last position |
| CommandRunner.FindCacheIndex | worker/docker/docker.go:94-99 | the position of the last install or script command; behind it there is none |
| CommandRunner.RunCommand | worker/docker/docker.go:102-167 | what one iteration does and whether it ends the run |
| CommandRunner.RunContainer | worker/docker/docker.go:23-181 | the whole run, also when the container or the engine fails |
| CommandRunner.RunShape | worker/docker/docker.go:101-180 | on a working engine the loop is the prefix of commands up to the first failure, the save behind its command, and one closing hook |
| CommandRunner.AnyRun | worker/docker/docker.go:101-180 | with an engine that may fail anywhere: the run goes on while the container is up, the command exits 0 and the packed cache can be read; what happens at the first place where this fails, and a hook only after an exit code |
| CommandRunner.FirstFailure | worker/docker/docker.go:133-142 | the commands before the position exited 0 and the one at it, if any, did not |
| CommandRunner.SuccessIff | worker/docker/docker.go:170-180 | nil is returned exactly if every main command ran and exited 0 and a packed cache could be read back |
| CommandRunner.TestPlan | server/parser/parser.go:200-212 | sorting the generated commands gives the five phases that are not hooks, the last hooks, and the last script command as cache point |
| CommandRunner.TestJobTrace | worker/docker/docker.go:56-180 | the executed trace of a generated job: the phases up to and including the first failure, then only the last after_failure or after_success; the cache saved at most once, and that exactly if all through the last script command exit 0 |
| CommandRunner.DeployJobTrace | worker/docker/docker.go:94-180 | the executed trace of a deploy job: its commands up to and including the first failure, no hook, and the cache saved behind the first command if that exits 0 |
| Masking.MaskChunk | worker/app/server.go:183-197 | the loop computes the masks one after the other |
| Masking.MaskedInOrder | worker/app/server.go:187-191 | the values are masked in the order of the list, each on what the ones before left, and values that are not secret are left alone |
| Masking.NothingNew | worker/app/server.go:187-191 | masking one value spells no safe value that was not there |
| Masking.MaskingComplete | worker/app/server.go:187-191 | with safe values no secret occurs in any masked chunk, however the values overlap |
| Masking.MaskingCompleteIff | worker/app/server.go:188-189 | a single secret is removed from every chunk exactly if it is safe |
| Masking.EmptyValue | worker/app/server.go:188-189 | an empty secret puts ten stars in front of every character and at the end |
| Masking.MaskingIdempotent | worker/app/server.go:187-191 | masking again changes nothing |
| Masking.MaskingHarmless | worker/app/server.go:188 | a chunk without secrets passes unchanged |
| Masking.OnlyOccurrencesReplaced | worker/app/server.go:189 | the result is the text with exactly its leftmost, non-overlapping occurrences replaced |
| Masking.SplitSecretLeaks | worker/app/server.go:184-193 | every secret can be cut into two chunks that pass unmasked |
| MaskedLog.ReplaceBeside | worker/app/server.go:189 | ten stars keep what is before and behind them apart: no match of a safe value reaches across |
| MaskedLog.MaskIsGlue | worker/app/server.go:187-191 | a masked chunk is the pieces of the original with ten stars between them, for any number of safe secrets |
| MaskedLog.ConcatAppend | server/scheduler/scheduler.go:378-379 | joining a log appends its parts in order |
| MaskedLog.LogContainsIff | worker/app/server.go:183-197 | a safe text can be read in the joined masked chunks exactly if it can be read in a stretch of original text that no mask interrupts, however many chunks it runs through |
| MaskedLog.SplitSecretIff | worker/app/server.go:183-197 | two chunks: a secret can be read across the boundary exactly if, for some cut, its first part ends the last piece of the first and the rest begins the first piece of the second |
| WorkerJobs.NothingLeftBehind | worker/app/server.go:160-179 | under any overlap of starts and stops every listed job and container belongs to a live handler, so none is left when all have returned |
| WorkerJobs.TableIs | worker/app/server.go:160-179 | on any run, for every job: whether it is listed and which container it has, read off the steps; entering and leaving remove the container of a listed job, an ending run only its own |
| WorkerJobs.StopHeldIff | worker/app/server.go:267-286 | whatever comes between the two steps of a stop, no container of the job exists or starts afterwards until it is sent again, exactly if there is none, and no call on the way to one, when the job leaves the table |
| WorkerJobs.StopHoldsIff | worker/app/server.go:267-286 | when it begins, a whole stop is certain to hold exactly if no call for the job is past its look at the table without a container, and none is before it while the job is listed |
| WorkerJobs.StopMissesContainer | worker/app/server.go:278-285 | a run in which a stop finds no container and leaves one running |
| WorkerJobs.KeepsPlaceIff | worker/app/server.go:164-179 | a listed call that has not looked yet stays listed, as long as nobody stops its job or sends it again, exactly if no other call for the job is there |
| WorkerJobs.OverlapLosesJob | worker/app/server.go:172-179 | a run in which an old handler's cleanup takes a newer handler's job off the table |
| Verdict.HandleStartJob | worker/app/server.go:209-263 | one Done after the container ran, saying how, and none before |
| Verdict.Receive | server/core/worker.go:165-209 | the log holds the contents of the log messages of the stream at increasing positions, all of them; the status is that of the last Done; anything but an orderly end is an error |
| Verdict.Record | server/scheduler/scheduler.go:359-380 | the received log joined in order; an error means failing and adds a line |
| Verdict.PassingIsEarned | worker/docker/docker.go:170-180 | "passing" is recorded only if every non-hook command ran and exited 0, whatever was cancelled or lost |
| Verdict.VerdictIsExact | server/scheduler/scheduler.go:359-385 | over an intact stream: passing exactly if all is green, the empty status exactly if stopped before the container, failing otherwise |
| Verdict.TestJobVerdict | worker/app/server.go:253-263 | a generated test job is recorded as passing exactly if its before_install to after_script commands all exit 0 |
| Verdict.RecordedLog | server/core/worker.go:182-184 | if the k-th log message of the stream is the masked k-th chunk, so is the k-th entry of the recorded log, up to where the stream broke, and no entry holds a safe secret |
| Verdict.RecordedLogContainsIff | server/scheduler/scheduler.go:378-379 | exactly when a safe text can be read in what was recorded of the output as a whole |
| Slices.Slice.Append | server/ws/client.go:105 | appends, in place or in a larger array |
| Slices.Slice.Cut | server/ws/client.go:112 | moves the tail down in place and leaves a stale last cell |
| Slices.Slice.Sweep | server/ws/client.go:109-115 | the range loop over the old header: when it cuts out of range, and what it leaves otherwise |
| Slices.SweepMeaning | server/ws/client.go:109-115 | it cuts out of range exactly if the element is last and occurs before |
| Slices.SweepRemovesIff | server/ws/client.go:109-115 | it removes the element and keeps the rest exactly if the element never stands twice in a row nor last and elsewhere; without duplicates always |
| Websocket.Client.IsSubscribed | server/ws/client.go:117-125 | membership |
| Websocket.Client.Subscribe | server/ws/client.go:103-107 | appends unless subscribed |
| Websocket.Client.Unsubscribe | server/ws/client.go:109-115 | removes the subscription and keeps the others in order |
| Websocket.Client.Serve | server/ws/app.go:79-106 | a connection's messages are served without a cut out of range; afterwards a subscription is held exactly if it was subscribed to, or held before, and not unsubscribed from since, and none twice |
| Websocket.HeldIff | server/ws/app.go:79-106 | the same for any list of messages and distinct subscriptions on values |
| Websocket.RunRefinesSet | server/ws/client.go:103-115 | any run from no subscriptions is a run of set insertions and deletions |
| Websocket.App.Register | server/ws/app.go:27-45 | appends a new client with a subscription list of its own, which is empty |
| Websocket.App.Remove | server/ws/app.go:48-57 | removes the client and keeps the others in order |
| Websocket.App.Broadcast | server/ws/app.go:60-69 | selects each client once per matching subscription |
| Websocket.BroadcastReachesOnce | server/ws/app.go:60-69 | with distinct clients and subscriptions: exactly the subscribed clients, each once, in order of registration |
| Websocket.BroadcastInRun | server/ws/app.go:60-106 | at any point of any run of registrations, removals and messages: a broadcast goes to exactly the connected clients whose last word on the subscription was to subscribe, once each, in order, and nothing cuts out of range |
| Permissions.Database.Find | server/store/permission/permission.go:17-21 | the row for team and repository with the least id, or none |
| Permissions.Database.List | server/store/permission/permission.go:23-27 | all rows of the team, in any order |
| Permissions.Database.WriteEntries | server/api/team/update.go:89-105 | the last matching entry's rights go into the first row; other rows stay |
| Permissions.LastRightsAre | server/api/team/update.go:89-105 | of several entries for a repository the last one counts |
| Permissions.Database.Review | server/api/team/update.go:86-113 | requested rows are written, the others of the team deleted |
| Permissions.Database.CreateMissing | server/api/team/update.go:115-135 | one new row per entry whose repository had none |
| Permissions.MissingInOrder | server/api/team/update.go:115-135 | the new rows come in the order of the entries |
| Permissions.Database.UpdateUsers | server/store/team/team.go:57-67 | replaces the team's members, leaves other teams' members, and can stop half way |
| Permissions.Database.HandleUpdate | server/api/team/update.go:32-138 | every outcome leaves other teams' rows and members alone; success leaves exactly the settled table; for which callers the answer is the refusal, the crash or not found |
| Permissions.ExactRows | server/api/team/update.go:80-135 | with distinct requested repositories, none stored twice, the team's rows are exactly the requested ones, one each |
| Permissions.OneRowIff | server/api/team/update.go:80-135 | for any request: when a repository ends up with two rows |
| Permissions.Database.GetPermissions | server/store/repo/repo.go:129-178 | all rights for admins and owners, otherwise the disjunction over the rows of the user's teams |
| Permissions.EffectiveRights | server/store/repo/repo.go:151-177 | after such an update a right is granted exactly if the request gives it to a member or another team of the user does |
| ProviderSync.ProviderStore.CreateOrUpdate | server/store/repo/repo.go:108-114 | adds the key if it is new |
| ProviderSync.ProviderStore.StorePage | server/store/provider/provider.go:68-78 | the admin repositories of a page are stored in order up to the first error |
| ProviderSync.ProviderStore.Sync | server/store/provider/provider.go:54-89 | ends; without errors it visits every repository once in order in floor(n/30)+1 pages; a failing page keeps the pages before it and reports no error |
| ProviderSync.StoredKeys | server/store/provider/provider.go:73-77 | the keys become the old ones and the admin repositories', without duplicates if there were none, the old ones first |
| ProviderSync.SyncAgain | server/store/provider/provider.go:62-85 | a complete synchronisation after a partial or complete one leaves what a single one leaves |

## Left out

- Permissions.EffectiveRights: stated for requests with distinct repositories and at most one stored row each; what other requests leave is said by `OneRowIff` and the contract of `HandleUpdate`.
- FineSteps.TickDispatches: the comparison of workers is one step; `findWorker` holds each worker's own lock only while it reads it, so a counter may move between two reads.
- BuildSections.LastSaveDecides: the build and its jobs are read in one section, where the store makes two queries; one build is looked at, without queue and workers.
- BuildVerdict.SuccessMeansAllGreen: at coarse steps, so what `BuildSections` says about overlapping saves is not part of it.
- Granularity.CoarseRunsAreFineRuns: stored rows are not part of the fine machine, and coarse runs do not pause.
- WorkerJobs.StopHoldsIff: a removal of a container is taken to succeed when the container exists.
- Masking.MaskingCompleteIff: exact for one secret; with several, an unsafe value may still be removed by the mask of a later one, so `MaskingComplete` is sufficient there.
- ProviderSync.ProviderStore.CreateOrUpdate: only the key set; the update reloads the stored row before it writes it back, so which other columns change is not claimed.
- Permissions.Database.HandleUpdate: reading a row that exists is taken to succeed; decoding and validation of the form are not modelled.
- Scheduler.Scheduler.StopJobs: the concurrent stops of a build are atomic here, in any order; their interleavings are steps of `FineSteps`.
- Scheduler.Scheduler.RestartBuild: the build's stored update is taken to succeed, and the theorem about it excludes builds with live jobs and interleaved dispatch, where the aggregator can set both times early.
- Database errors of the job and build stores, and errors of the status call to the source-control provider: logged by the original, not modelled.
- Job deadlines, the one-minute interval and real time: a deadline is a broken stream, the interval a tick that may happen at any time.
- Data races such as the unlocked read of `pending` in `Stop`: treated as atomic reads.
- Reconnection of a worker under the same host id: slots are counted on worker objects; a delete by an old connection that removes the newer entry is a `Disconnect` step.
- Environment variables of a job, titles, log text of the phases and file sizes: not part of any property here.
- `ShouldBuild`: regular expressions are external, and what is left is a short case distinction.
- Statistics, badges, authentication, configuration, logging, cache archives, the Angular client and all other HTTP handlers.
- Masking works on characters here; the original replaces bytes.
- Growth of a slice's backing array is one fixed policy; slices that share a backing array do not occur in the modelled code.
