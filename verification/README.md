# wonka-factory orchestrator: verified model

wonka-factory drives a DAG of tasks to completion: a dispatcher drains agent outcomes, retries, hands
off, counts gaps, aborts, and assigns ready tasks to a bounded pool of workers, all on one shared ledger
of tasks, workers and dependency edges. After a crash the ledger, the live sessions and the event log are
all that is left, and `Reconcile` has to rebuild a run from them. This project models that core and
proves what it keeps.

The model has five parts.

1. **The tick machine.** `Machine.dfy` gives every operation of the dispatcher as a function on a state:
   the disk (tasks, workers, sessions, event log), the memory (abort flag and reason, gaps, attempts,
   handoffs), the launched agents whose outcome has not been processed, the disk after every single
   write, and the sessions started for each task. The result of every store, session and probe call is an
   input, so each theorem holds for every pattern of failed calls it does not exclude. `Effects.dfy`
   condenses one outcome and one dispatch into what they can leave behind; `Outcomes.dfy` and
   `Dispatches.dfy` say what they do in exit codes, labels and records; `Safety.dfy`, `Writes.dfy`,
   `Gates.dfy`, `Ticks.dfy` and `Progress.dfy` prove the run theorems. `Dispatcher.dfy`, `Recovery.dfy` and
   `Persistence.dfy` are the objects whose methods update fields step by step, each proved to do what the
   machine says.
2. **Crash and resume.** `Crash.dfy` proves what every cut of every run looks like, `Resume.dfy` what
   reconciliation makes of it, `Reconciler.dfy` is the imperative `Reconcile`, `Replay.dfy` the fold over
   the event log.
3. **Graphs.** `Graph.dfy` defines paths, cycles and reachability; `Search.dfy` has the depth-first,
   three-colour and breadth-first searches; `Deps.dfy` the two `AddDep` versions; `Validate.dfy` the
   post-planner validator.
4. **The watchdog.** `Supervision.dfy` has the check cycle and the dispatcher's answer to it,
   `Supervised.dfy` runs of both, `Sessions.dfy` the interleaving of their atomic calls, `Projection.dfy`
   the proof that machine and check cycle are made of those calls, `Orphans.dfy` what outcomes and orphan
   handling write to terminal records, `Breaker.dfy` the sliding-window circuit breaker.
5. **The ledgers' queries.** `Ordering.dfy` has the canonical order, `Readiness.dfy` the file-system
   `ReadyTasks`, `BdEncoding.dfy` the folding of statuses and labels into the bd tracker, `BdReadiness.dfy`
   readiness over decoded issues and its relation to the file-system answer.

A run is a sequence of states and actions. An action is an outcome of any launched agent with any exit
code, a dispatch of any ready task while not aborted, or the death of any session; `Ticks.TickIsRun`
shows that a tick is such a run. `Safety`, `Writes`, `Gates`, `Crash`, `Replay`, `Ticks` and `Progress` are
about the machine without a watchdog; `Sessions`, `Supervision`, `Supervised`, `Projection` and `Orphans`
bring it in.

## Where code and comments disagree

- orch/watchdog.go:128-132 promises terminal irreversibility with the watchdog attached. It is false in
  two ways. An orphan is failed while its agent may still report, and the late outcome overwrites the
  record with its own task copy (`Orphans.LateSuccessReverses`, `Orphans.LateRetryReopens`); the exact
  condition, over every exit code and I/O result, is `Orphans.OutcomeRespectsTerminalIff`. And the
  watchdog's restart writes the copy it read before the dispatcher recorded an end
  (`Sessions.WatchdogCanReverse`): the guard at orch/session.go:217 tests that same copy. The exact
  condition on any call of either writer is `Sessions.CallKeepsTerminalIff`.
- orch/dispatch.go:274-277 leaves a task whose terminal write failed to "a subsequent tick". No later
  tick of the dispatcher looks at it again; nor at a task handed off outside test mode, whose restarted
  session nobody monitors. `Safety.StrandedExactly` says exactly which outcomes strand their task,
  `Safety.UnattendedForEver` that the lifecycle then never finishes, and `Supervised.UnattendedOnlyFails`
  that with a watchdog such a task can only ever fail.
- orch/engine.go:556-561 speaks of an escalation task for a human. The one a rejected graph files is open
  only until the abort cleanup of the same call (`Gates.EscalationFate` has the exact condition).
- The bd round trip loses the label at orch/types.go:105, because its key holds a colon
  (`BdEncoding.WorkOrderHashIsLost`), and for the same reason bd's `ReadyTasks` is not contained in the
  file-system one, as orch/ledger_bdcli.go:706-708 suggests
  (`BdReadiness.WorkOrderHashIsReadyOnlyInBd`, `BdReadiness.NamelessAssignedIsReadyOnlyInBd`).

## Model

| member | source | states |
|---|---|---|
| `Safety.FlightsAlways` | orch/dispatch.go:245-377 | In every state of every run, whatever writes fail, each unprocessed outcome belongs to a task that is in progress in the store with exactly the record the outcome carries, held by the outcome's worker; no worker has two |
| `Writes.TerminalIrreversible` | orch/dispatch.go:267-345 | Over whole runs of the watchdog-free machine, whatever calls fail, every disk written after a state still has every record that was completed, failed or blocked in it: no single write inside any step replaces one |
| `Writes.StepKeeps` | orch/dispatch.go:409-424 | Each write of each step goes to a record that is not terminal at that moment |
| `Writes.EveryWriteIsACut` | orch/ledger_fs.go:236-257 | The recorded disks lead from any state of a run to any later one by one task record, worker record, session or event at a time, so a crash can fall between any two writes |
| `Safety.InflightBounded` | orch/dispatch.go:139-156 | Unprocessed outcomes never outnumber active workers |
| `Safety.OutcomesFitTheChannel` | orch/dispatch.go:139-156 | In every run unprocessed outcomes fit the outcomes channel, so no agent blocks on its send while the engine waits before the final drain |
| `Safety.SingleAssignmentAlways` | orch/ledger_fs.go:195-258 | Under every pattern of task-write failures (worker releases succeeding) each active worker's task is assigned or in progress and names it |
| `Safety.NoTwoWorkersHoldOneTask` | orch/ledger_fs.go:195-258 | Single assignment excludes two active workers on one task |
| `Safety.PoolBounded` | orch/session.go:57-85 | No step grows the pool beyond maxWorkers |
| `Safety.GapOvershootBound` | orch/dispatch.go:382-406 | From g0 recovered gaps the count never exceeds max(tolerance, g0 + 1) + maxWorkers - 1 in any run, for every tolerance including 0 and below |
| `Safety.AbortIsFinal` | orch/dispatch.go:198-210 | Once aborted: no dispatch, active workers never grow, a task becomes open only as the retry of an outcome in flight at the abort (never when MaxRetries is 0), and the first non-empty reason stays |
| `Safety.DepsClosedUntilAbort` | orch/ledger_fs.go:163-186 | If every task out of the queue has only terminal dependencies at the start, that holds in every state until abort |
| `Gates.DispatchedAfterAllDeps` | orch/ledger_fs.go:163-186 | A dispatched task has every direct and indirect dependency terminal, from its dispatch on |
| `Gates.GateAfterVerifiers` | orch/validate.go:196-217 | On a graph the validator accepts with a planner, the gate is dispatched only after every verifier is terminal, and they stay so |
| `Gates.GateBehindPlanner` | orch/engine.go:565-623 | End to end: once a planner has completed under a hook that accepts only what the validator accepts, its gate is dispatched only after every verifier of the planned graph is terminal |
| `Gates.EscalationFate` | orch/engine.go:592-623 | The escalation a rejected graph files is blocked by the abort of the same call exactly when it was filed, the branch could be listed, it belongs to the branch and its write worked; else it stays as filed |
| `Safety.StrandedExactly` | orch/dispatch.go:267-377 | An outcome leaves its task in progress with no outcome to come exactly when its terminal write failed (for a failure: and no retry was written), or it is a handoff within budget outside test mode that restarted the session |
| `Safety.UnattendedForEver` | orch/dispatch.go:685-707 | Without a watchdog such a task keeps its very record in every later state, and if it belongs to the branch the lifecycle never finishes |
| `Effects.OutcomeEffect` | orch/dispatch.go:245-377 | Every outcome, under every failure pattern, holds, relaunches, re-opens or ends its own task; nothing else changes but open tasks blocked by an abort and filed escalations; at most one gap, attempt or handoff is counted |
| `Effects.DispatchEffect` | orch/dispatch.go:517-636 | Every dispatch changes only its own task and one worker that was not active, plus a filed escalation; it launches exactly one agent or none |
| `Effects.CleanupEffect` | orch/dispatch.go:409-424 | Abort cleanup changes nothing but open records into blocked ones, and reaches every listed open task of the branch whose write succeeds |
| `Effects.SuccessEffect` | orch/dispatch.go:287-299 | A success ends its task as completed or, when the write fails, changes nothing at all |
| `Effects.FailureEffect` | orch/dispatch.go:301-335 | A failure re-opens its task exactly when an attempt is left and the retry write works; else it ends it as failed; else it changes nothing |
| `Outcomes.ExitCodesMean` | orch/agent.go:154-167 | In exit codes and records: 0 completes, 2 blocks for good whatever attempts are left, 3 hands off, every other code is a failure that is retried while attempts last; own record, worker, session, events, counters and flights are all fixed |
| `Outcomes.ExitCodesInRuns` | orch/dispatch.go:245-260 | That law holds at every outcome of every run |
| `Outcomes.FailureMeans` | orch/dispatch.go:301-335 | One attempt more and queued unassigned, or ended as failed and judged, or nothing |
| `Outcomes.ExitThreeHandsOff` | orch/dispatch.go:347-377 | One handoff more and relaunched or restarted; a spent budget or a failed restart is a failure |
| `Outcomes.BadEndIsJudged` | orch/dispatch.go:382-406 | A task labelled critical that ends badly aborts, is no gap, gives its reason if there was none and blocks every listed, writable open task of the branch; any other is one more gap, and the run is aborted exactly when it was or the gaps reach the tolerance |
| `Outcomes.TerminalFailureMeans` | orch/dispatch.go:382-406 | The same for the accounting alone, with its events |
| `Outcomes.AbortMeans` | orch/dispatch.go:198-210 | Aborted, the first non-empty reason kept, and exactly the listed, writable open tasks of the branch blocked |
| `Outcomes.OrphanIsJudged` | orch/dispatch.go:451-468 | A failed orphan is reported and judged like any other bad end |
| `Outcomes.ReleaseEnds` | orch/session.go:255-279 | After a successful release the session is gone and the worker idle |
| `Dispatches.ReadyIsTheQuery` | orch/ledger_fs.go:148-190 | The machine's ready set is the file-system query with the branch as filter |
| `Dispatches.AllocateMeans` | orch/session.go:57-85 | The idle worker with the smallest name, else a new idle one with the next number below the limit; none in exactly the other cases |
| `Dispatches.WorkerNames` | orch/session.go:77-80 | Names are `w-` and a number of at least two digits |
| `Dispatches.AssignMeans` | orch/ledger_fs.go:195-258 | Held exactly when the task is open and unassigned, the worker idle and both writes work; a rollback leaves no trace |
| `Dispatches.SpawnMeans` | orch/session.go:106-228 | Spawned: session, active worker, task in progress; not spawned with a working rollback: no session and both records as before |
| `Dispatches.DispatchRoutes` | orch/dispatch.go:526-560 | Escalations are skipped, unknown roles escalated, and only a missing worker stops the loop |
| `Dispatches.EscalateMeans` | orch/dispatch.go:640-667 | The task is blocked and an open, unassigned, critical escalation filed on its branch |
| `Dispatches.LaunchMeans` | orch/dispatch.go:565-632 | A launch leaves task, worker, session, event and one agent with exactly the stored record |
| `Ticks.TickIsRun` | orch/dispatch.go:718-759 | A tick is a run of the machine, so every run theorem holds across ticks |
| `Ticks.NextNameIsFresh` | orch/session.go:57-85 | In a pool filled only by Allocate the next two-digit worker name never collides, for pools of any size |
| `Ticks.WorkConservingDispatch` | orch/dispatch.go:517-636 | With successful calls a tick launches exactly the first min(dispatchable ready tasks, maxWorkers - active) tasks; lower priority numbers go first, then smaller IDs, and nothing that waits is more urgent than anything launched |
| `Ticks.TickResults` | orch/dispatch.go:685-759 | GapAbort exactly when aborted; LifecycleDone exactly when all reads work, a branch task exists, every branch task is completed, failed or blocked and no worker is active, and then nothing is in flight |
| `Progress.FreshIsOrderly` | orch/dispatch.go:517-636 | A new lifecycle with all tasks queued satisfies the progress theorems' starting condition |
| `Progress.OutcomeProgress` | orch/dispatch.go:301-377 | Every outcome aborts or lowers the measure over statuses, remaining attempts and remaining handoffs |
| `Progress.DispatchProgress` | orch/dispatch.go:517-636 | Dispatching a ready task lowers the measure, and stops only for want of a worker slot |
| `Progress.SomethingToDo` | orch/dispatch.go:685-707 | While a task is not terminal there is an outcome in flight, or a ready task and a free slot |
| `Progress.TickProgress` | orch/dispatch.go:718-759 | Every tick in which some agent reports (if any is out) ends in GapAbort or LifecycleDone, or lowers the measure |
| `Progress.EveryRunEnds` | orch/dispatch.go:718-759 | No run has more unfinished ticks than the measure of its first state: every run ends |
| `Crash.EveryCutIsRecoverable` | orch/session.go:187-224 | The disk after every single write of every run (also between the two writes of Assign) keeps the pairing of in-progress tasks and workers, and a task the log reports completed, failed or blocked is so in the store |
| `Resume.ReconcileRestores` | orch/resume.go:63-211 | From such a disk every active worker runs an in-progress task that names it and has a live session; every other task is terminal and untouched or open and unassigned; no unmatched session survives; running agents survive with task, session and worker |
| `Resume.ReconciledMeans` | orch/resume.go:77-208 | Field by field, on any disk: a branch task in progress whose assignee has a session keeps its record, session and workers; every other held branch task becomes open and unassigned; other active workers become idle; other sessions go, but for failed kills; nothing else changes |
| `Resume.ReconcileIdempotent` | orch/resume.go:63-211 | Reconciling a reconciled ledger changes nothing, from any ledger at all |
| `Resume.ReconcileRestartable` | orch/resume.go:63-211 | Reconciling any disk met half-way through a reconciliation gives the same result |
| `Resume.ResumedIsConsistent` | orch/resume.go:63-211 | The resumed state satisfies the invariants the run theorems start from |
| `Resume.CrashRecovery` | orch/resume.go:63-211 | Cut any run after any write, lose any sessions, reconcile: restored, idempotent, a valid start of a new run, and every record terminal in any state before the cut is still there unchanged |
| `Reconciler.Reconcile` | orch/resume.go:63-211 | The imperative steps compute that reconciliation, field by field, the exact log recovery, the exact re-opens, the failed kills, and the numbers of reset tasks and killed sessions; they succeed exactly when the reads and writes they depend on do; interrupted at any write, the disk still reconciles to the same result |
| `Reconciler.Steps` | orch/resume.go:63-211 | As Reconcile, with every intermediate disk between the old and the reconciled one |
| `Reconciler.ResetStale` | orch/resume.go:77-119 | Step one resets exactly the stale tasks, counts them, and collects the live ones |
| `Reconciler.SettleTask` | orch/resume.go:88-119 | One task is reset exactly when stale, reported live exactly when its session is, and an error exactly for a failed probe or write |
| `Reconciler.ExpectedSessions` | orch/resume.go:135-140 | The expected sessions are those of the assignees of in-progress tasks |
| `Reconciler.KillOrphans` | orch/resume.go:121-154 | Exactly the unexpected sessions are killed and counted, but for the failed kills it reports |
| `Reconciler.FindReopens` | orch/resume.go:169-184 | Exactly the tasks that the log reports ended and the store has open are returned |
| `Reconciler.ResetWorkers` | orch/resume.go:187-208 | Exactly the active workers without a live task become idle |
| `Replay.RecoverFromEventLog` | orch/resume.go:253-313 | Gaps, attempts, handoffs, last ends, standing graph verdicts and corrupt lines are exactly what the readable lines say |
| `Replay.RecoveryMeans` | orch/resume.go:270-304 | Counted on the lines of the file: attempts, handoffs, gap tasks in order, corrupt lines, and the end the last end line reports; events without a task count for nothing |
| `Replay.RecoveredEnds` | orch/resume.go:253-313 | Cut a run after any write: the end a recovery learns for a task is the task's status in the store |
| `Replay.ScanLine` | orch/resume.go:270-304 | One line extends the recovery by exactly what it says |
| `Replay.LogReplayRefinesMemory` | orch/dispatch.go:301-406 | In every state of every run the log holds exactly the gap list and attempts in memory, and the handoffs when no dispatcher restart fails |
| `Replay.RecoveredMemory` | orch/resume.go:253-313 | So a recovery from the log equals the counters that were in memory |
| `Replay.CrashLosesAtMostOne` | orch/dispatch.go:301-406 | Cut inside one step after any write, the log is at most one increment of one task behind |
| `Replay.NoPhantomReopens` | orch/resume.go:169-184 | With no outside writer, whatever write a run was cut at and whatever sessions died or survived their kill, the reconciled ledger shows no human re-open |
| `Search.DepthFirst.Visit` | orch/ledger_fs.go:428-447 | Found means a path exists; not found means everything newly visited is closed but for earlier visits |
| `Search.Reachable` | orch/ledger_fs.go:428-447 | True exactly when a dependency path exists |
| `Search.ThreeColour.Visit` | orch/validate.go:252-296 | Grey nodes are the path of the search, black ones are topologically ordered; a hit is an edge back onto the path |
| `Search.FirstCycle` | orch/validate.go:252-296 | Nothing is returned exactly for acyclic graphs, and a returned pair is an edge on a cycle |
| `Search.BfsReach` | orch/validate.go:300-315 | The result is exactly the set of reachable nodes |
| `Deps.DepStore.AddDep` | orch/ledger_fs.go:340-370 | The stored graph changes by exactly the accepted edge, keeps acyclicity, and reports invalid ids, repeats, cycles and failed saves |
| `Deps.BeadsAddDep` | orch/ledger_beads.go:548-598 | Adding the edge to a copy first and then searching makes the same decision |
| `Deps.CopyGraph` | orch/ledger_beads.go:569-582 | The copied adjacency has exactly the edges of the listed issues |
| `Deps.AddDepIdempotent` | orch/ledger_fs.go:340-370 | A second identical call changes nothing |
| `Deps.RejectsExactlyCycles` | orch/ledger_fs.go:340-370 | A new edge is rejected exactly when it would close a cycle |
| `Deps.EveryHistoryIsAcyclic` | orch/ledger_fs.go:340-370 | Any sequence of calls keeps the graph acyclic |
| `Deps.AcyclicPlanIsAccepted` | orch/ledger_fs.go:340-370 | The edges of an acyclic plan are all accepted, in any order |
| `Graph.AddEdgeAcyclic` | orch/ledger_fs.go:363-368 | An edge keeps an acyclic graph acyclic exactly when its tail is not reachable from its head |
| `Graph.SearchAfterAdding` | orch/ledger_beads.go:573-587 | Adding the edge first does not change the answer of the search |
| `Validate.ValidateLifecycleGraph` | orch/validate.go:82-247 | Accepts exactly the branches without a planner and the well-formed ones; every rejection names exactly the offenders of the first failing check |
| `Validate.AcceptedMeansWellFormed` | orch/validate.go:82-247 | The sequence of checks accepts exactly the graphs with one planner, recognised roles, no cycle, one gate reaching all verifiers and no orphan |
| `Validate.AcceptedInWords` | orch/validate.go:82-247 | The same in role labels and dependency paths, with the role words spelled out |
| `Validate.RejectedInWords` | orch/validate.go:104-247 | Each kind of rejection names exactly its offenders |
| `Validate.IntraMeans` | orch/validate.go:162-184 | The edges that count are those between listed tasks |
| `Validate.PlanIsRoot` | orch/validate.go:219-247 | In an accepted graph the planner depends on no non-escalation task of the branch |
| `Validate.PartitionByRole` | orch/validate.go:88-102 | Planners, gates and verifiers are collected in listing order |
| `Validate.CollectBadRoles` | orch/validate.go:139-153 | Exactly the unrecognised roles are reported |
| `Validate.BuildEdges` | orch/validate.go:162-184 | Forward edges are the intra-branch dependencies, reverse edges their mirror |
| `Validate.CollectUnreached` | orch/validate.go:195-217 | Exactly the verifiers the gate does not reach |
| `Validate.CollectOrphans` | orch/validate.go:219-247 | Exactly the non-escalation tasks not reachable from the planner by reverse edges |
| `Sessions.BudgetStep` | orch/recovery.go:209-217 | Every atomic call of either writer keeps each session, owed session and queue place paid for |
| `Sessions.SessionBound` | orch/watchdog.go:310-361 | Over every interleaving of dispatcher and watchdog calls with stale copies and late outcomes a task gets at most 1 + MaxRetries + MaxHandoffs sessions in a fresh run |
| `Sessions.CallKeepsTerminalIff` | orch/session.go:206-222 | A call of either writer respects terminal records exactly when the stored record of the id it writes is not terminal or equals what is written |
| `Sessions.WatchdogCanReverse` | orch/watchdog.go:244-256 | The race is real: a completion recorded between the watchdog's read and its restart is written back to in progress |
| `Projection.StepLeads` | orch/dispatch.go:245-377 | Every step of the dispatcher machine, under every I/O result, is a sequence of those calls |
| `Projection.CheckWorkerLeads` | orch/watchdog.go:264-361 | So is every check of one worker |
| `Projection.SessionsOfARun` | orch/recovery.go:209-217 | Hence over every run of dispatcher steps, watchdog checks and orphan handling from fresh counters, the sessions actually started for a task are at most 1 + MaxRetries + MaxHandoffs |
| `Supervision.WatchdogNeverSettles` | orch/watchdog.go:257-365 | Whatever fails, a check cycle with no dispatcher call between its reads and its writes leaves terminal records, attempts, gaps and abort alone, turns records at most into in-progress ones, and spends handoffs never beyond the limit |
| `Supervision.StuckMeansSpent` | orch/watchdog.go:310-332 | Only unsettled tasks with a spent handoff budget are listed as stuck |
| `Supervision.CheckWorkerMeans` | orch/watchdog.go:264-361 | In records: without a dead session nothing happens; with one and budget left a handoff is spent and reported, the session restarted, and exactly a session younger than the window reported to the breaker; with none left the limit is reported and the task listed |
| `Supervision.CycleReports` | orch/watchdog.go:257-365 | A cycle reports to the breaker exactly the roster's dead, within-budget workers with young sessions, in order, and lists as stuck exactly the dead ones with a spent budget |
| `Supervision.DeathsTrip` | orch/watchdog.go:346-350 | As many young deaths of one worker as the threshold, checked inside one window, leave the breaker tripped, whatever else is recorded between |
| `Supervision.FirstBusyIsFailed` | orch/dispatch.go:472-495 | A tripped breaker with working writes fails exactly the task of the first worker, by name, that is active on an unsettled task; with none, nothing |
| `Supervision.SupervisionRepairs` | orch/dispatch.go:497-513 | From any ledger an undisturbed check followed by failStuckTasks leaves no active worker with an unsettled task of a configured role and a dead session |
| `Supervision.OneOrphanPerTick` | orch/dispatch.go:470-495 | A tripped breaker fails at most one task per tick and touches no terminal record |
| `Supervised.UnattendedOnlyFails` | orch/dispatch.go:451-513 | With the watchdog attached, a task nobody waits for can only become failed: no turn of either writer completes, blocks or re-queues it, and once failed it stays failed |
| `Supervised.ResumedIsUnattended` | orch/resume.go:109-111 | Whatever is in progress after a resume is such a task |
| `Supervision.Watchdog.Check` | orch/watchdog.go:264-361 | One worker's check does what the law of checks says, in records, counters and breaker history |
| `Supervision.Watchdog.Revive` | orch/watchdog.go:308-361 | A restart only after a successful TryRecord, else a place on the stuck list; the breaker's history grows by exactly this worker's failure when the budget lasted and the session was young |
| `Supervision.Watchdog.CheckOnce` | orch/watchdog.go:257-365 | The cycle over all workers is the fold of the single checks, settles no task, and extends the breaker's history and the stuck list by exactly what the ledger at its start calls for |
| `Supervision.Watchdog.DrainStuckTasks` | orch/watchdog.go:393-402 | Returns the list and clears it |
| `Orphans.FailOrphanKeepsTerminal` | orch/dispatch.go:451-468 | Failing an orphan never touches a terminal record |
| `Orphans.OutcomeRespectsTerminalIff` | orch/dispatch.go:245-377 | For every exit code and every I/O result an outcome respects terminal records exactly when the stored record of its own task is not terminal, or nothing is written to it, or what is written is what is stored |
| `Orphans.OutcomeTouches` | orch/dispatch.go:245-377 | Any outcome of any task copy gives its own task the one record the exit code and I/O results determine, and other tasks nothing but a block of open ones |
| `Orphans.LateOutcomeReversesIff` | orch/dispatch.go:451-468 | Fail any task whose agent is still out: its late outcome respects that exactly when it writes nothing or the same failure |
| `Orphans.LateSuccessReverses` | orch/dispatch.go:287-299 | So a late success turns the failed record into a completed one |
| `Orphans.LateRetryReopens` | orch/dispatch.go:301-326 | And a late failure with a retry left puts the failed task back into the queue |
| `Breaker.CircuitBreaker.constructor` | orch/watchdog.go:36-42 | Starts untripped with an empty history |
| `Breaker.CircuitBreaker.RecordFailure` | orch/watchdog.go:49-85 | The pruned map stays the history since Reset cut to the latest window; tripped exactly when some worker reached the threshold within the window at a rapid failure of its own; it newly trips only for the worker recorded |
| `Breaker.CircuitBreaker.Prune` | orch/watchdog.go:63-77 | Keeps exactly the entries later than the cutoff and no empty entries |
| `Breaker.CircuitBreaker.Reset` | orch/watchdog.go:96-101 | Clears the flag and the history |
| `Breaker.BlamesOwnFailure` | orch/watchdog.go:79-85 | A worker over the threshold in the window was over it at a failure of its own |
| `Breaker.TripsForRecorded` | orch/watchdog.go:79-85 | The scan over all workers never trips for another worker than the one recorded |
| `Breaker.OverloadedMeans` | orch/watchdog.go:49-85 | The flag in plain counts: some failure was, with those of its worker in the open window that ends at it, at least the threshold |
| `Recovery.RetryState.ResetTask` | orch/recovery.go:72-74 | No attempts of this task, others untouched |
| `Recovery.GapTracker.IncrementAndCheck` | orch/recovery.go:119-123 | Appends the task and says whether the tolerance is reached; count and list agree |
| `Recovery.GapTracker.SetGaps` | orch/recovery.go:142-145 | Count and list agree after replay |
| `Recovery.HandoffState.TryRecord` | orch/recovery.go:209-217 | Increments exactly while below the limit, and never beyond it |
| `Recovery.HandoffState.Reset` | orch/recovery.go:230-234 | No handoffs of this task, others untouched |
| `Persistence.World.Assign` | orch/ledger_fs.go:195-258 | Both records or, when the worker write fails, the task restored unless the rollback fails too |
| `Persistence.World.ListTasks` | orch/ledger_fs.go:123-146 | The branch's tasks as the one strictly sorted listing |
| `Persistence.World.ReadyTasks` | orch/ledger_fs.go:148-190 | Exactly the ready tasks of the branch, in order |
| `Persistence.World.ListWorkers` | orch/ledger_fs.go:297-315 | All workers by name |
| `Persistence.World.SpawnSession` | orch/session.go:106-228 | Session, worker record, task record in that order, with the rollback of each failure |
| `Persistence.World.RestartSession` | orch/session.go:316-323 | Kill, then spawn for the same task |
| `Dispatcher.Dispatcher.constructor` | orch/dispatch.go:101-163 | Starts unaborted with nothing in flight on the given counters |
| `Dispatcher.Dispatcher.Allocate` | orch/session.go:57-85 | First idle worker by name, or a new one below the limit |
| `Dispatcher.Dispatcher.Release` | orch/session.go:255-279 | Session killed, then the worker idle |
| `Dispatcher.Dispatcher.SetAbortReason` | orch/dispatch.go:206-210 | First non-empty reason wins |
| `Dispatcher.Dispatcher.AbortCleanup` | orch/dispatch.go:409-424 | The loop blocks the branch's open tasks in order, skipping failed writes |
| `Dispatcher.Dispatcher.AbortLifecycle` | orch/dispatch.go:198-202 | Reason, flag, cleanup |
| `Dispatcher.Dispatcher.HandleTerminalFailure` | orch/dispatch.go:382-406 | A critical task aborts with its reason and a blocked queue and is no gap; any other is one more gap and aborts exactly at the tolerance |
| `Dispatcher.Dispatcher.TerminateAndRelease` | orch/dispatch.go:267-285 | Nothing happens on a failed write, else release and event |
| `Dispatcher.Dispatcher.HandleSuccess` | orch/dispatch.go:287-299 | The hook runs only after the completion is persisted |
| `Dispatcher.Dispatcher.PostSuccessHook` | orch/engine.go:565-623 | On a rejected graph an escalation is filed, the event emitted and the lifecycle aborted, in that order |
| `Dispatcher.Dispatcher.HandleFailure` | orch/dispatch.go:301-335 | Retry within budget and when the write works, else terminal failure |
| `Dispatcher.Dispatcher.HandleHandoff` | orch/dispatch.go:347-377 | Restart or relaunch within budget, else failure |
| `Dispatcher.Dispatcher.ProcessOutcome` | orch/dispatch.go:245-260 | Obeys the law of exit codes: 0, 2 and 3 as above, every other code a failure |
| `Dispatcher.Dispatcher.Drain` | orch/dispatch.go:437-446 | Processes the whole channel and keeps the flight invariant |
| `Dispatcher.Dispatcher.FailOrphanedTask` | orch/dispatch.go:451-468 | Terminal tasks are left, others failed with gap accounting |
| `Dispatcher.Dispatcher.FailStuckTasks` | orch/dispatch.go:500-513 | Drains the watchdog's list and fails each |
| `Dispatcher.Dispatcher.OrphanCk` | orch/dispatch.go:472-495 | While tripped fails the first unsettled task of an active worker and resets the breaker |
| `Dispatcher.Dispatcher.CreateEscalation` | orch/dispatch.go:640-667 | Files the escalation and blocks the task |
| `Dispatcher.Dispatcher.FailTaskAndRelease` | orch/dispatch.go:670-681 | Fails the task and releases the worker without gap accounting |
| `Dispatcher.Dispatcher.Launch` | orch/dispatch.go:565-632 | Writes in order, launches one agent, or fails the task at the first failing write |
| `Dispatcher.Dispatcher.DispatchOne` | orch/dispatch.go:526-632 | Skips escalations, escalates unknown roles, stops without a worker |
| `Dispatcher.Dispatcher.Dispatch` | orch/dispatch.go:517-636 | The loop over the ready tasks is the fold the work-conservation theorem is about |
| `Dispatcher.Dispatcher.CheckTermination` | orch/dispatch.go:685-707 | True exactly when the reads work, a branch task exists, all are completed, failed or blocked and no worker is active |
| `Dispatcher.Dispatcher.Tick` | orch/dispatch.go:718-759 | The imperative tick without a watchdog is the machine's tick, and keeps the flight invariant |
| `Ordering.SortedMeans` | orch/ledger.go:78-83 | Sorted means lower priority numbers first and, among equals, the smaller ID: a proper prefix, or smaller at the first character that differs |
| `Ordering.TaskLessTotal` | orch/ledger.go:78-83 | The canonical order is strict and total on distinct IDs |
| `Ordering.TaskLessTrans` | orch/ledger.go:78-83 | The canonical order is transitive |
| `Ordering.SortTasksSorted` | orch/ledger.go:86-93 | Sorting tasks with distinct IDs puts the most urgent first, by priority number and then ID |
| `Ordering.ListingUnique` | orch/ledger.go:86-93 | A set of tasks has one strictly sorted listing |
| `Readiness.LabelsMatch` | orch/ledger.go:115-123 | The early-exit loop decides that every filter is met |
| `Readiness.BranchFilter` | orch/ledger.go:115-123 | The branch filter selects exactly the branch |
| `Readiness.FsReadyTasks` | orch/ledger_fs.go:148-190 | Whatever the enumeration order, the sorted listing of exactly the ready set; an error exactly for malformed filters |
| `BdReadiness.BdReadyTasks` | orch/ledger_bdcli.go:709-772 | The sorted listing of exactly the ready set of the decoded listed issues; an error exactly for malformed filters, a panic exactly for an undefined status among the listed |
| `BdReadiness.DecodeIssues` | orch/ledger_bdcli.go:737-747 | Every fetched issue is decoded in order |
| `BdReadiness.DecodedView` | orch/ledger_bdcli.go:339-466 | What survives the encoding of any task: terminality, assignee, and openness up to nameless assignment; the whole task exactly when it is representable |
| `BdReadiness.StatusWords` | orch/ledger_bdcli.go:363-380 | What bd's status words mean: deferred, pinned, hooked and blocked are Blocked, closed is Failed or Completed by its label, open is Assigned or Open by its assignee; any other word panics |
| `BdReadiness.WrittenWords` | orch/ledger_bdcli.go:339-353 | What the store writes for each status, in bd's words |
| `BdReadiness.ParkedIsNeverReady` | orch/ledger_bdcli.go:374-376 | Only an issue bd calls open can be ready; parked issues end what waits for them |
| `BdReadiness.BdReadyExactly` | orch/ledger_bdcli.go:709-772 | On any ledger, bd returns a written task exactly when it is listed, open or assigned without assignee, its decoded labels match, and every dependency is filed, listed and terminal |
| `BdReadiness.BdReadyIsFsReadyIff` | orch/ledger_bdcli.go:709-772 | What bd returns is ready in the FS store exactly when the written record is open and its own labels match |
| `BdReadiness.FsReadyIsBdReadyIff` | orch/ledger_fs.go:148-190 | What is ready in the FS store is returned by bd exactly when it and its filed dependencies are listed and its decoded labels match |
| `BdReadiness.ColonKeyIsReadyOnlyInBd` | orch/ledger_bdcli.go:737-751 | Containment fails for every label key with a colon: bd returns the task for the flat filter, the FS store does not |
| `BdReadiness.WorkOrderHashIsReadyOnlyInBd` | orch/types.go:105 | The repository's own such key is an instance |
| `BdReadiness.NamelessAssignedIsReadyOnlyInBd` | orch/ledger_bdcli.go:339-345 | Containment fails for an assigned record without assignee |
| `BdReadiness.ReadinessAgreement` | orch/ledger_bdcli.go:709-772 | On a ledger of representable tasks bd's ready set is contained in the FS one, and equal when the first filter has a value and every dependency of a listed task is listed |
| `BdEncoding.TaskLabelsToBd` | orch/ledger_bdcli.go:391-404 | The encoded labels are the sorted joined pairs with the failure mark, or an error exactly for commas |
| `BdEncoding.ToTask` | orch/ledger_bdcli.go:442-466 | The loop computes the decoding the round trip is about |
| `BdEncoding.DecodedLabels` | orch/ledger_bdcli.go:391-466 | Decoding the encoded labels gives the labels back when keys hold no colon and are not `orch` |
| `BdEncoding.RoundTrip` | orch/ledger_bdcli.go:339-466 | Status, assignee and labels survive encoding and decoding exactly for representable tasks |
| `BdEncoding.WorkOrderHashIsLost` | orch/types.go:105 | The work-order hash label never survives |

## Left out

- tmux, `gh` and `bd` subprocesses, JSON, file atomics, stderr warnings: a session is membership of its worker's name in a set, a store call succeeds or fails without effect.
- Titles, bodies, timestamps, session process IDs, prompt sidecars: no decision of the modelled code reads them; the session start enters only as the breaker's input.
- `Supervision.CycleReports`: for a roster in which no two active workers share a task, as single assignment guarantees.
- Emitting an event always succeeds; the log holds the events that carry a task ID.
- orch/lock.go, orch/telemetry.go, the commands and signal handling: one dispatcher per ledger is taken as given, a lock refresh is an input of the tick.
- `runAgent` polling, timeouts, jitter: any exit code at any time.
- Several branches sharing one worker directory, and a planner that changes the graph while it runs: one branch, and the graph as the validator saw it.
- The validator's store-read errors: the validator takes the listing.
- `Dispatcher.Dispatcher.PostSuccessHook`: the validator's verdict is an input; `Gates.GateBehindPlanner` ties it to the validator, and allows any store-read error to reject.
- `Dispatcher.Dispatcher.constructor`: the nil-dependency errors and interval defaults are left out; the counters' limits are taken to be those of the configuration.
- `Supervision.WatchdogNeverSettles`: only for cycles with no dispatcher call between the watchdog's read and its write; between them it is false, as `Sessions.WatchdogCanReverse` shows.
- `Supervised.UnattendedOnlyFails`: turns of dispatcher and watchdog alternate whole; only the session bound and the condition on terminal records are proved for interleaved single calls.
- The engine around the dispatcher, the replay of planner validation on resume, and the resetting of counters for human re-opens: only which tasks are re-opened is modelled.
- `Persistence.World.ListTasks`: sorting builds a new sequence instead of swapping in place; the order of a directory listing is arbitrary.
- `Dispatcher.Dispatcher.Drain`: outcomes that arrive while the channel is drained are reports of a later drain.
- `Dispatcher.Dispatcher.Tick`: the form without a watchdog; `OrphanCk` and `FailStuckTasks` are specified beside it.
- `Search.FirstCycle`: takes the IDs in any order, so which cycle is reported first is not fixed.
- `Progress.EveryRunEnds`: for the form in which a handoff relaunches its monitor, all roles configured, no escalation tasks; the production form can stall, as proved above.
- `Safety.SingleAssignmentAlways`: worker releases must succeed, because a failed one leaves a worker active on an ended task.
- `Crash.EveryCutIsRecoverable`: worker releases and the failing write of a dispatch must succeed; any other write may fail and any session may die.
- `Projection.SessionsOfARun`: from empty counters; a resumed run inherits the counters of the log.
- `BdReadiness.BdReadyTasks`: which issues `bd list` returns is taken to be those that carry the first filter as a flat label; an update to no labels at all, which leaves the old ones in bd, is left out.
