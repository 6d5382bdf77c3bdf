// Outcomes that trust a task copy of their own, and failing an orphaned task on the watchdog's word
// (orch/dispatch.go processOutcome, failOrphanedTask): what both do to terminal irreversibility.
module Orphans {
  import opened Types
  import opened Machine
  import opened Effects
  import opened Safety
  import opened Writes

  // ----- the one record an outcome writes to its own task -----

  /** Task `id` was given the record `w`, if any; other tasks are kept, blocked by an abort, or new. */
  ghost predicate Touched(d: Disk, d': Disk, id: string, w: Option<Task>) {
    && Keyed(d') && d.tasks.Keys <= d'.tasks.Keys
    && (forall x :: x in d.tasks && x != id ==> d'.tasks[x] == d.tasks[x] || Blocks(d.tasks[x], d'.tasks[x]))
    && (id in d.tasks ==> d'.tasks[id] == if w.Some? then w.value else d.tasks[id])
  }

  /** The retry if one is left and its write works, else the failure if that write works. */
  function FailureWrite(cfg: Config, s: State, t: Task, io: OutcomeIo): Option<Task> {
    if Count(s.mem.retries, t.id) < cfg.maxRetries && io.retryWrite then Some(t.(status := Open, assignee := ""))
    else if io.finalWrite then Some(t.(status := Failed))
    else None
  }

  function FinalWrite(t: Task, status: Status, io: OutcomeIo): Option<Task> {
    if io.finalWrite then Some(t.(status := status)) else None
  }

  predicate Restarts(s: State, f: Flight, io: OutcomeIo) {
    io.restartKill && io.spawn.SpawnOk? && f.worker in s.disk.workers
  }

  /** What processing an outcome writes to the outcome's own task, whatever the store holds by then. */
  function OwnWrite(cfg: Config, s: State, f: Flight, code: int, io: OutcomeIo): Option<Task> {
    if f.task.id !in s.disk.tasks then None else
      match DetermineOutcome(code)
      case Success => FinalWrite(f.task, Completed, io)
      case Block => FinalWrite(f.task, Blocked, io)
      case Failure => FailureWrite(cfg, s, f.task, io)
      case Handoff =>
        if Count(s.mem.handoffs, f.task.id) >= cfg.maxHandoffs then FailureWrite(cfg, s, f.task, io)
        else if cfg.testMode then None
        else if Restarts(s, f, io) then Some(f.task.(status := InProgress))
        else FailureWrite(cfg, s, f.task, io)
  }

  lemma AbortFrame(cfg: Config, s: State, reason: string, io: OutcomeIo)
    requires Keyed(s.disk)
    ensures var s' := Abort(cfg, s, reason, io);
            && s'.disk.workers == s.disk.workers && s'.disk.sessions == s.disk.sessions
            && s'.inflight == s.inflight && s'.next == s.next
            && Keyed(s'.disk) && Cleaned(s.disk.tasks, s'.disk.tasks)
  {
    CleanupEffect(cfg, s.(mem := SetReason(s.mem, reason).(aborted := true)), io);
  }

  /** Gap accounting leaves workers, sessions and flights alone and only takes open tasks out of the queue. */
  ghost predicate Accounted(s: State, s': State) {
    && s'.disk.workers == s.disk.workers && s'.disk.sessions == s.disk.sessions && Keyed(s'.disk)
    && s'.inflight == s.inflight && s'.next == s.next
    && Cleaned(s.disk.tasks, s'.disk.tasks)
  }

  lemma AbortAccounted(cfg: Config, s: State, reason: string, id: string, io: OutcomeIo)
    requires Keyed(s.disk)
    ensures Accounted(s, Emit(Abort(cfg, s, reason, io), EscalationCreated, id))
  {
    AbortFrame(cfg, s, reason, io);
  }

  lemma TerminalFailureFrame(cfg: Config, s: State, t: Task, io: OutcomeIo)
    requires Keyed(s.disk)
    ensures Accounted(s, TerminalFailure(cfg, s, t, io))
  {
    if t.IsCritical() {
      AbortAccounted(cfg, s, "critical_task_failure:" + t.id, t.id, io);
    } else {
      var s1 := Emit(s.(mem := s.mem.(gaps := s.mem.gaps + [t.id])), GapRecorded, t.id);
      if |s1.mem.gaps| >= cfg.tolerance { AbortAccounted(cfg, s1, "gap_tolerance_exceeded", t.id, io); }
    }
  }

  lemma TerminateTouches(s: State, f: Flight, status: Status, kind: EventKind, io: OutcomeIo)
    requires Keyed(s.disk)
    ensures var (s', ok) := Terminate(s, f, status, kind, io);
            && Keyed(s'.disk) && s'.inflight == s.inflight && s'.next == s.next && s'.mem == s.mem
            && (ok <==> io.finalWrite && f.task.id in s.disk.tasks)
            && s'.disk.tasks == if ok then s.disk.tasks[f.task.id := f.task.(status := status)] else s.disk.tasks
  {
    ReleaseEffect(PutTask(s, f.task.(status := status)), f.worker, io.release);
  }

  lemma CleanedTouches(d: Disk, d1: Disk, d': Disk, t: Task)
    requires t.id in d.tasks && !t.status.Open? && d1.tasks == d.tasks[t.id := t]
    requires Keyed(d') && Cleaned(d1.tasks, d'.tasks)
    ensures Touched(d, d', t.id, Some(t))
  {
  }

  lemma FinalTouches(cfg: Config, s: State, f: Flight, status: Status, kind: EventKind, io: OutcomeIo)
    requires Keyed(s.disk) && status.Terminal()
    ensures var s' := Final(cfg, s, f, status, kind, io);
            && Touched(s.disk, s'.disk, f.task.id, FinalWrite(f.task, status, io))
            && s'.disk.tasks.Keys == s.disk.tasks.Keys && s'.inflight == s.inflight && s'.next == s.next
  {
    TerminateTouches(s, f, status, kind, io);
    var (s1, ok) := Terminate(s, f, status, kind, io);
    if ok {
      TerminalFailureFrame(cfg, s1, f.task, io);
      CleanedTouches(s.disk, s1.disk, TerminalFailure(cfg, s1, f.task, io).disk, f.task.(status := status));
    }
  }

  lemma FailureTouches(cfg: Config, s: State, f: Flight, io: OutcomeIo)
    requires Keyed(s.disk)
    ensures var s' := HandleFailure(cfg, s, f, io);
            && Touched(s.disk, s'.disk, f.task.id, FailureWrite(cfg, s, f.task, io))
            && s'.inflight == s.inflight && s'.next == s.next
  {
    if Count(s.mem.retries, f.task.id) < cfg.maxRetries && io.retryWrite && f.task.id in s.disk.tasks {
      var s1 := PutTask(s, f.task.(status := Open, assignee := ""));
      var s2 := s1.(mem := s1.mem.(retries := Bump(s1.mem.retries, f.task.id)));
      ReleaseEffect(s2, f.worker, io.release);
      assert HandleFailure(cfg, s, f, io) == Emit(Release(s2, f.worker, io.release), TaskRetried, f.task.id);
    } else {
      FinalTouches(cfg, s, f, Failed, TaskFailed, io);
    }
  }

  lemma TouchedThenCleaned(d: Disk, d1: Disk, d': Disk, t: Task)
    requires t.id in d.tasks && !t.status.Open? && Touched(d, d1, t.id, Some(t))
    requires Keyed(d') && Cleaned(d1.tasks, d'.tasks)
    ensures Touched(d, d', t.id, Some(t))
  {
    assert d1.tasks[t.id] == t;
  }

  lemma FiledTouches(d: Disk, s1: State, t: Task, esc: Task, created: bool)
    requires Keyed(s1.disk) && esc.id != "" && Touched(d, s1.disk, t.id, Some(t))
    ensures Touched(d, CreateTask(s1, esc, created).disk, t.id, Some(t))
  {
  }

  lemma AbortTouches(cfg: Config, d: Disk, s: State, t: Task, reason: string, io: OutcomeIo)
    requires t.id in d.tasks && !t.status.Open? && Touched(d, s.disk, t.id, Some(t))
    ensures var s' := Abort(cfg, s, reason, io);
            Touched(d, s'.disk, t.id, Some(t)) && s'.inflight == s.inflight && s'.next == s.next
  {
    AbortFrame(cfg, s, reason, io);
    TouchedThenCleaned(d, s.disk, Abort(cfg, s, reason, io).disk, t);
  }

  lemma HookTouches(cfg: Config, d: Disk, s: State, t: Task, io: OutcomeIo)
    requires t.id in d.tasks && Touched(d, s.disk, t.id, Some(t.(status := Completed)))
    ensures var s' := RunHook(cfg, s, t, io);
            && Touched(d, s'.disk, t.id, Some(t.(status := Completed)))
            && s'.inflight == s.inflight && s'.next == s.next
  {
    if io.hook.Rejects? {
      var esc := EscalationTask("escalation-graph-" + t.id, t.Branch());
      assert |esc.id| > 0;
      FiledTouches(d, s, t.(status := Completed), esc, io.hook.created);
      var s1 := Emit(CreateTask(s, esc, io.hook.created), GraphInvalid, t.id);
      AbortTouches(cfg, d, s1, t.(status := Completed), io.hook.reason, io);
    }
  }

  lemma SuccessTouches(cfg: Config, s: State, f: Flight, io: OutcomeIo)
    requires Keyed(s.disk)
    ensures var s' := HandleSuccess(cfg, s, f, io);
            && Touched(s.disk, s'.disk, f.task.id, FinalWrite(f.task, Completed, io))
            && s'.inflight == s.inflight && s'.next == s.next
  {
    TerminateTouches(s, f, Completed, TaskCompleted, io);
    var (s1, ok) := Terminate(s, f, Completed, TaskCompleted, io);
    if ok { HookTouches(cfg, s.disk, s1, f.task, io); }
  }

  /** A restart writes the task record last or not at all, and leaves the worker's record as it was or holding
      the task. */
  lemma RestartShape(s: State, w: string, t: Task, kill: bool, io: SpawnIo)
    ensures var (s', ok) := Restart(s, w, t, kill, io);
            && s'.mem == s.mem && s'.inflight == s.inflight && s'.next == s.next
            && (ok <==> kill && io.SpawnOk? && w in s.disk.workers && t.id in s.disk.tasks)
            && s'.disk.tasks == (if ok then s.disk.tasks[t.id := t.(status := InProgress)] else s.disk.tasks)
            && (s'.disk.workers == s.disk.workers ||
                (w in s.disk.workers &&
                 var held := s.disk.workers[w := Worker(w, true, t.id)];
                 s'.disk.workers == held || s'.disk.workers == held[s.disk.workers[w].name := s.disk.workers[w]]))
  {
  }

  lemma RestartTouches(s: State, f: Flight, io: OutcomeIo)
    requires Keyed(s.disk)
    ensures var (s', ok) := Restart(s, f.worker, f.task, io.restartKill, io.spawn);
            && Keyed(s'.disk) && s'.mem == s.mem && s'.inflight == s.inflight && s'.next == s.next
            && (ok <==> Restarts(s, f, io) && f.task.id in s.disk.tasks)
            && s'.disk.tasks == if ok then s.disk.tasks[f.task.id := f.task.(status := InProgress)] else s.disk.tasks
  {
    RestartShape(s, f.worker, f.task, io.restartKill, io.spawn);
  }

  lemma RestartedTouches(cfg: Config, s: State, f: Flight, io: OutcomeIo)
    requires Keyed(s.disk) && !cfg.testMode && Count(s.mem.handoffs, f.task.id) < cfg.maxHandoffs
    ensures var s' := HandleHandoff(cfg, s, f, io);
            && Touched(s.disk, s'.disk, f.task.id, OwnWrite(cfg, s, f, 3, io))
            && s'.inflight == s.inflight
  {
    var s1 := s.(mem := s.mem.(handoffs := Bump(s.mem.handoffs, f.task.id)));
    RestartTouches(s1, f, io);
    var (s2, ok) := Restart(s1, f.worker, f.task, io.restartKill, io.spawn);
    if !ok { FailureTouches(cfg, s2, f, io); }
  }

  lemma HandoffTouches(cfg: Config, s: State, f: Flight, io: OutcomeIo)
    requires Keyed(s.disk)
    ensures var s' := HandleHandoff(cfg, s, f, io);
            && Touched(s.disk, s'.disk, f.task.id, OwnWrite(cfg, s, f, 3, io))
            && Reflown(s, s', f)
  {
    if Count(s.mem.handoffs, f.task.id) >= cfg.maxHandoffs {
      FailureTouches(cfg, Emit(s, HandoffLimitReached, f.task.id), f, io);
    } else if !cfg.testMode {
      RestartedTouches(cfg, s, f, io);
    }
  }

  /** Nothing new flies, but for the outcome's own agent launched again. */
  ghost predicate Reflown(s: State, s': State, f: Flight) {
    s'.inflight == s.inflight || s'.inflight == s.inflight[s.next := f]
  }

  /** For any outcome whatsoever, of any task copy and under any I/O results. */
  lemma OutcomeTouches(cfg: Config, s: State, f: Flight, code: int, io: OutcomeIo)
    requires Keyed(s.disk)
    ensures var s' := ProcessOutcome(cfg, s, f, code, io);
            && Touched(s.disk, s'.disk, f.task.id, OwnWrite(cfg, s, f, code, io))
            && Reflown(s, s', f)
  {
    match DetermineOutcome(code)
    case Success => SuccessTouches(cfg, s, f, io);
    case Failure => FailureTouches(cfg, s, f, io);
    case Block => FinalTouches(cfg, s, f, Blocked, TaskBlocked, io);
    case Handoff => HandoffTouches(cfg, s, f, io);
  }

  lemma TouchedKeepsTerminalIff(d: Disk, d': Disk, id: string, w: Option<Task>)
    requires Touched(d, d', id, w) && (w.Some? ==> id in d.tasks)
    ensures TerminalKept(d, d') <==> NotEnded(d, id) || w.None? || w.value == d.tasks[id]
  {
  }

  /** An outcome trusts its own task copy. For every exit code and every I/O result it respects the terminal
      records exactly when the stored record of that very task is not terminal, or nothing is written to it, or
      what is written is what is stored. */
  lemma OutcomeRespectsTerminalIff(cfg: Config, s: State, f: Flight, code: int, io: OutcomeIo)
    requires Keyed(s.disk)
    ensures var w := OwnWrite(cfg, s, f, code, io);
            TerminalKept(s.disk, ProcessOutcome(cfg, s, f, code, io).disk) <==>
            NotEnded(s.disk, f.task.id) || w.None? || w.value == s.disk.tasks[f.task.id]
  {
    OutcomeTouches(cfg, s, f, code, io);
    TouchedKeepsTerminalIff(s.disk, ProcessOutcome(cfg, s, f, code, io).disk, f.task.id, OwnWrite(cfg, s, f, code, io));
  }

  // ----- orphans -----

  /** Fails a task that is not terminal yet, whether or not its agent may still report. */
  ghost function FailOrphan(cfg: Config, s: State, id: string, w: string, io: OutcomeIo): (State, bool) {
    if id !in s.disk.tasks || s.disk.tasks[id].status.Terminal() then (s, false) else
      var f := Flight(s.disk.tasks[id], w);
      var (s1, persisted) := Terminate(s, f, Failed, TaskFailed, io);
      if persisted then (TerminalFailure(cfg, s1, f.task, io), true) else (s1, false)
  }

  /** The orphan alone is failed. */
  lemma FailOrphanTouches(cfg: Config, s: State, id: string, w: string, io: OutcomeIo)
    requires Keyed(s.disk)
    ensures var (s', failed) := FailOrphan(cfg, s, id, w, io);
            && (failed <==> id in s.disk.tasks && !s.disk.tasks[id].status.Terminal() && io.finalWrite)
            && Touched(s.disk, s'.disk, id, if failed then Some(s.disk.tasks[id].(status := Failed)) else None)
            && s'.disk.tasks.Keys == s.disk.tasks.Keys && s'.inflight == s.inflight && s'.next == s.next
            && (!failed ==> s' == s)
  {
    if id in s.disk.tasks && !s.disk.tasks[id].status.Terminal() {
      var f := Flight(s.disk.tasks[id], w);
      FinalTouches(cfg, s, f, Failed, TaskFailed, io);
      TerminateTouches(s, f, Failed, TaskFailed, io);
      assert FailOrphan(cfg, s, id, w, io).0 == Final(cfg, s, f, Failed, TaskFailed, io);
    }
  }

  /** The orphan check itself never touches a terminal record. */
  lemma FailOrphanKeepsTerminal(cfg: Config, s: State, id: string, w: string, io: OutcomeIo)
    requires Keyed(s.disk)
    ensures TerminalKept(s.disk, FailOrphan(cfg, s, id, w, io).0.disk)
  {
    FailOrphanTouches(cfg, s, id, w, io);
  }

  // ----- late outcomes -----

  lemma FailedInFlight(cfg: Config, s: State, k: nat, io: OutcomeIo)
    requires Flights(s) && k in s.inflight && io.finalWrite
    ensures var f := s.inflight[k];
            var s1 := FailOrphan(cfg, s, f.task.id, f.worker, io).0;
            && Keyed(s1.disk) && k in s1.inflight && s1.inflight[k] == f
            && f.task.id in s1.disk.tasks && s1.disk.tasks[f.task.id] == f.task.(status := Failed)
  {
    assert FlightOk(s.disk, s.inflight[k]);
    FailOrphanTouches(cfg, s, s.inflight[k].task.id, s.inflight[k].worker, io);
  }

  /** An outcome writes its own copy with another status, so over a failed copy only a failure is harmless. */
  lemma OverFailedIff(cfg: Config, s: State, f: Flight, code: int, io: OutcomeIo)
    requires Keyed(s.disk) && f.task.id in s.disk.tasks && s.disk.tasks[f.task.id] == f.task.(status := Failed)
    ensures var w := OwnWrite(cfg, s, f, code, io);
            TerminalKept(s.disk, ProcessOutcome(cfg, s, f, code, io).disk) <==> w.None? || w.value.status.Failed?
  {
    OutcomeRespectsTerminalIff(cfg, s, f, code, io);
  }

  /** Fail any task whose agent is still out. The agent's late outcome respects that exactly when it writes
      nothing or the same failure. */
  lemma LateOutcomeReversesIff(cfg: Config, s: State, k: nat, io: OutcomeIo, code: int, lateIo: OutcomeIo)
    requires Flights(s) && k in s.inflight && io.finalWrite
    ensures var f := s.inflight[k];
            var s1 := FailOrphan(cfg, s, f.task.id, f.worker, io).0;
            && k in s1.inflight
            && var w := OwnWrite(cfg, Taken(s1, k), f, code, lateIo);
               TerminalKept(s1.disk, Step(cfg, s1, Outcome(k, code, lateIo)).disk) <==>
                   w.None? || w.value.status.Failed?
  {
    var f := s.inflight[k];
    FailedInFlight(cfg, s, k, io);
    OverFailedIff(cfg, Taken(FailOrphan(cfg, s, f.task.id, f.worker, io).0, k), f, code, lateIo);
  }

  /** So a late success turns the failed record into a completed one, */
  lemma LateSuccessReverses(cfg: Config, s: State, k: nat, io: OutcomeIo, lateIo: OutcomeIo)
    requires Flights(s) && k in s.inflight && io.finalWrite && lateIo.finalWrite
    ensures var id := s.inflight[k].task.id;
            var s1 := FailOrphan(cfg, s, id, s.inflight[k].worker, io).0;
            && id in s1.disk.tasks && s1.disk.tasks[id].status.Failed? && k in s1.inflight
            && var s2 := Step(cfg, s1, Outcome(k, 0, lateIo));
               id in s2.disk.tasks && s2.disk.tasks[id].status.Completed?
  {
    var f := s.inflight[k];
    FailedInFlight(cfg, s, k, io);
    var s1 := FailOrphan(cfg, s, f.task.id, f.worker, io).0;
    OutcomeTouches(cfg, Taken(s1, k), f, 0, lateIo);
  }

  /** and a late failure with a retry left puts the failed task back into the queue. */
  lemma LateRetryReopens(cfg: Config, s: State, k: nat, io: OutcomeIo, lateIo: OutcomeIo)
    requires Flights(s) && k in s.inflight && io.finalWrite && lateIo.retryWrite
    requires var f := s.inflight[k];
             Count(FailOrphan(cfg, s, f.task.id, f.worker, io).0.mem.retries, f.task.id) < cfg.maxRetries
    ensures var id := s.inflight[k].task.id;
            var s1 := FailOrphan(cfg, s, id, s.inflight[k].worker, io).0;
            && id in s1.disk.tasks && s1.disk.tasks[id].status.Failed? && k in s1.inflight
            && var s2 := Step(cfg, s1, Outcome(k, 1, lateIo));
               id in s2.disk.tasks && s2.disk.tasks[id].status.Open?
  {
    var f := s.inflight[k];
    FailedInFlight(cfg, s, k, io);
    var s1 := FailOrphan(cfg, s, f.task.id, f.worker, io).0;
    OutcomeTouches(cfg, Taken(s1, k), f, 1, lateIo);
  }
}
