// What one step of the dispatcher can do, whatever its I/O calls return.
module Effects {
  import opened Types
  import opened Graph
  import opened Ordering
  import opened Machine

  /** The flight's task is in progress in the store, held by the flight's worker. */
  ghost predicate FlightOk(d: Disk, f: Flight) {
    && f.task.id in d.tasks && d.tasks[f.task.id] == f.task
    && f.task.status.InProgress? && f.task.assignee == f.worker
    && f.worker in d.workers && d.workers[f.worker] == Worker(f.worker, true, f.task.id)
  }

  /** Every unprocessed outcome is held by its worker, and no worker has two. */
  ghost predicate Flights(s: State) {
    && Keyed(s.disk)
    && (forall k :: k in s.inflight ==> k < s.next && FlightOk(s.disk, s.inflight[k]))
    && (forall j, k :: j in s.inflight && k in s.inflight && s.inflight[j].worker == s.inflight[k].worker ==> j == k)
  }

  /** Abort cleanup took an open task out of the queue. */
  ghost predicate Blocks(t: Task, t': Task) { t.status.Open? && t' == t.(status := Blocked) }

  ghost predicate Cleaned(m: map<string, Task>, m': map<string, Task>) {
    m'.Keys == m.Keys && forall id :: id in m ==> m'[id] == m[id] || Blocks(m[id], m'[id])
  }

  /** A task the orchestrator files itself: unassigned, for a human. */
  ghost predicate Filed(t: Task) {
    t.id != "" && t.Role() == ESCALATION && t.assignee == "" && (t.status.Open? || t.status.Blocked?)
  }

  /** Nothing but task `id` and worker `w` changed, apart from blocked and filed tasks. */
  ghost predicate Frame(s: State, s': State, id: string, w: string) {
    && Keyed(s'.disk)
    && s.disk.tasks.Keys <= s'.disk.tasks.Keys && s.disk.workers.Keys <= s'.disk.workers.Keys
    && (forall x :: x in s.disk.tasks && x != id ==>
          || s'.disk.tasks[x] == s.disk.tasks[x]
          || (s'.mem.aborted && Blocks(s.disk.tasks[x], s'.disk.tasks[x])))
    && (forall x :: x in s'.disk.tasks && x !in s.disk.tasks ==>
          Filed(s'.disk.tasks[x]) && (s'.mem.aborted || s'.disk.tasks[x].status.Open?))
    && (forall n :: n in s.disk.workers && n != w ==> s'.disk.workers[n] == s.disk.workers[n])
  }

  /** The abort flag and the first reason are never withdrawn. */
  ghost predicate AbortKept(m: Memory, m': Memory) {
    && (m.aborted ==> m'.aborted)
    && (m.reason != "" ==> m'.reason == m.reason)
  }

  /** The flight's task was given a terminal status; memory saw at most one new gap. */
  ghost predicate EndedAs(cfg: Config, s: State, f: Flight, s': State, status: Status, released: bool) {
    var m, m' := s.mem, s'.mem;
    && status.Terminal()
    && s'.inflight == s.inflight && s'.next == s.next
    && Frame(s, s', f.task.id, f.worker)
    && s'.disk.workers.Keys == s.disk.workers.Keys
    && f.task.id in s'.disk.tasks && s'.disk.tasks[f.task.id] == f.task.(status := status)
    && f.worker in s'.disk.workers
    && (s'.disk.workers[f.worker] == Worker(f.worker, false, "") ||
        (!released && s'.disk.workers[f.worker] == Worker(f.worker, true, f.task.id)))
    && AbortKept(m, m')
    && m'.retries == m.retries && m'.handoffs == m.handoffs
    && GapStep(cfg, m, m', f.task)
    && (!m'.aborted ==> s'.disk.tasks == s.disk.tasks[f.task.id := f.task.(status := status)])
  }

  /** At most one gap is added, and reaching the tolerance aborts. */
  ghost predicate GapStep(cfg: Config, m: Memory, m': Memory, t: Task) {
    || m'.gaps == m.gaps
    || (!t.IsCritical() && m'.gaps == m.gaps + [t.id] && (|m'.gaps| >= cfg.tolerance ==> m'.aborted))
  }

  /** The flight's task went back to the queue, paid for by one recorded attempt. */
  ghost predicate ReopenedBy(cfg: Config, s: State, f: Flight, s': State, released: bool) {
    && s'.inflight == s.inflight && s'.next == s.next
    && s'.disk.tasks == s.disk.tasks[f.task.id := f.task.(status := Open, assignee := "")]
    && s'.disk.workers.Keys == s.disk.workers.Keys && Keyed(s'.disk)
    && (forall n :: n in s.disk.workers && n != f.worker ==> s'.disk.workers[n] == s.disk.workers[n])
    && f.worker in s'.disk.workers
    && (s'.disk.workers[f.worker] == Worker(f.worker, false, "") ||
        (!released && s'.disk.workers[f.worker] == Worker(f.worker, true, f.task.id)))
    && Count(s.mem.retries, f.task.id) < cfg.maxRetries
    && s'.mem == s.mem.(retries := Bump(s.mem.retries, f.task.id))
  }

  /** Task and worker records are as before. */
  ghost predicate SameRecords(s: State, s': State) {
    s'.disk.tasks == s.disk.tasks && s'.disk.workers == s.disk.workers
  }

  datatype Fate = Held | Relaunched | Reopened | Ended(status: Status)

  /** The state with flight `k` taken out and the handoff counters of `s'`. */
  function Base(s: State, k: nat, s': State): State {
    Taken(s, k).(mem := s.mem.(handoffs := s'.mem.handoffs))
  }

  ghost predicate OutcomeFate(cfg: Config, s: State, k: nat, s': State, fate: Fate, released: bool)
    requires k in s.inflight
  {
    var f, b := s.inflight[k], Base(s, k, s');
    && (s'.mem.handoffs == s.mem.handoffs ||
        (Count(s.mem.handoffs, f.task.id) < cfg.maxHandoffs && s'.mem.handoffs == Bump(s.mem.handoffs, f.task.id)))
    && match fate {
         case Held => SameRecords(s, s') && s'.mem == b.mem && s'.inflight == b.inflight && s'.next == b.next
         case Relaunched =>
           && SameRecords(s, s') && s'.mem == b.mem && s'.mem.handoffs != s.mem.handoffs
           && s'.inflight == b.inflight[s.next := f] && s'.next == s.next + 1
         case Reopened => ReopenedBy(cfg, b, f, s', released)
         case Ended(status) => EndedAs(cfg, b, f, s', status, released)
       }
  }

  lemma {:induction false} BlockOpenEffect(s: State, l: seq<Task>, unblocked: set<string>)
    requires Sorted(l)
    requires forall t :: t in l ==> t.id in s.disk.tasks && s.disk.tasks[t.id] == t
    ensures var s' := BlockOpen(s, l, unblocked);
            && s' == s.(disk := s.disk.(tasks := s'.disk.tasks), cuts := s'.cuts)
            && Cleaned(s.disk.tasks, s'.disk.tasks)
            && (forall t :: t in l && t.status.Open? && t.id !in unblocked ==> s'.disk.tasks[t.id].status.Blocked?)
    decreases |l|
  {
    if l != [] {
      var t := l[0];
      var s1 := if t.status.Open? && t.id !in unblocked then PutTask(s, t.(status := Blocked)) else s;
      forall u | u in l[1..] ensures u.id in s1.disk.tasks && s1.disk.tasks[u.id] == u && u.id != t.id {
        var i :| 0 <= i < |l[1..]| && l[1..][i] == u;
        assert TaskLess(l[0], l[i + 1]);
        TaskLessTotal(t, t);
      }
      BlockOpenEffect(s1, l[1..], unblocked);
      var s' := BlockOpen(s, l, unblocked);
      assert s' == BlockOpen(s1, l[1..], unblocked);
      assert s'.disk.tasks[t.id] == s1.disk.tasks[t.id] || Blocks(s1.disk.tasks[t.id], s'.disk.tasks[t.id]);
      assert forall u :: u in l ==> u == t || u in l[1..];
    }
  }

  lemma CleanupEffect(cfg: Config, s: State, io: OutcomeIo)
    requires Keyed(s.disk)
    ensures var s' := AbortCleanup(cfg, s, io);
            && s' == s.(disk := s.disk.(tasks := s'.disk.tasks), cuts := s'.cuts)
            && Cleaned(s.disk.tasks, s'.disk.tasks)
            && (io.listed ==> forall t :: t in BranchTasks(cfg, s.disk) && t.status.Open? && t.id !in io.unblocked ==>
                                s'.disk.tasks[t.id].status.Blocked?)
  {
    var ts := BranchTasks(cfg, s.disk);
    assert DistinctTasks(ts);
    if io.listed { BlockOpenEffect(s, Listing(ts), io.unblocked); }
  }

  lemma AbortEffect(cfg: Config, s: State, reason: string, io: OutcomeIo)
    requires Keyed(s.disk)
    ensures var s' := Abort(cfg, s, reason, io);
            && s'.inflight == s.inflight && s'.next == s.next
            && s'.mem == SetReason(s.mem, reason).(aborted := true)
            && s'.disk.workers == s.disk.workers && Cleaned(s.disk.tasks, s'.disk.tasks)
  {
    CleanupEffect(cfg, s.(mem := SetReason(s.mem, reason).(aborted := true)), io);
  }

  lemma ReleaseEffect(s: State, w: string, io: ReleaseIo)
    ensures var s' := Release(s, w, io);
            && s'.disk.tasks == s.disk.tasks && s'.disk.log == s.disk.log
            && s'.mem == s.mem && s'.inflight == s.inflight && s'.next == s.next
            && (s'.disk.workers == s.disk.workers ||
                (w in s.disk.workers && s'.disk.workers == s.disk.workers[w := Worker(w, false, "")]))
            && (io.Released? && w in s.disk.workers ==> s'.disk.workers == s.disk.workers[w := Worker(w, false, "")])
  {
  }

  /** One task record rewritten and one worker perhaps made idle. */
  lemma EndedFromWrite(cfg: Config, s: State, f: Flight, s': State, status: Status, released: bool)
    requires Keyed(s.disk) && FlightOk(s.disk, f) && status.Terminal()
    requires s'.disk.tasks == s.disk.tasks[f.task.id := f.task.(status := status)]
    requires (!released && s'.disk.workers == s.disk.workers) ||
             s'.disk.workers == s.disk.workers[f.worker := Worker(f.worker, false, "")]
    requires s'.mem == s.mem && s'.inflight == s.inflight && s'.next == s.next
    ensures EndedAs(cfg, s, f, s', status, released)
  {
  }

  lemma TerminateEffect(cfg: Config, s: State, f: Flight, status: Status, kind: EventKind, io: OutcomeIo)
    requires Keyed(s.disk) && FlightOk(s.disk, f) && status.Terminal()
    ensures var (s', ok) := Terminate(s, f, status, kind, io);
            if ok then EndedAs(cfg, s, f, s', status, io.release.Released?) && s'.mem == s.mem else s' == s
  {
    if io.finalWrite {
      var s1 := PutTask(s, f.task.(status := status));
      ReleaseEffect(s1, f.worker, io.release);
      var s' := Emit(Release(s1, f.worker, io.release), kind, f.task.id);
      assert Terminate(s, f, status, kind, io) == (s', true);
      EndedFromWrite(cfg, s, f, s', status, io.release.Released?);
    }
  }

  /** Aborting after the end of the flight's task only blocks other tasks. */
  lemma EndedThenAborted(cfg: Config, s0: State, f: Flight, s: State, s': State, status: Status, released: bool)
    requires EndedAs(cfg, s0, f, s, status, released) && FlightOk(s0.disk, f) && Keyed(s0.disk)
    requires Cleaned(s.disk.tasks, s'.disk.tasks) && s'.disk.workers == s.disk.workers
    requires s'.inflight == s.inflight && s'.next == s.next
    requires s'.mem.aborted && AbortKept(s.mem, s'.mem) && s'.mem.retries == s.mem.retries
    requires s'.mem.handoffs == s.mem.handoffs
    requires GapStep(cfg, s0.mem, s'.mem, f.task)
    ensures EndedAs(cfg, s0, f, s', status, released)
  {
    assert !s.disk.tasks[f.task.id].status.Open?;
    forall x | x in s0.disk.tasks && x != f.task.id
      ensures s'.disk.tasks[x] == s0.disk.tasks[x] || Blocks(s0.disk.tasks[x], s'.disk.tasks[x])
    {
      assert x in s.disk.tasks;
    }
  }

  lemma GapEffect(cfg: Config, s0: State, f: Flight, s: State, status: Status, released: bool)
    requires EndedAs(cfg, s0, f, s, status, released) && s.mem == s0.mem && !f.task.IsCritical()
    requires |s.mem.gaps| + 1 < cfg.tolerance
    ensures var s' := Emit(s.(mem := s.mem.(gaps := s.mem.gaps + [f.task.id])), GapRecorded, f.task.id);
            EndedAs(cfg, s0, f, s', status, released)
  {
  }

  /** Aborting after the end was recorded, with the gap (if any) already counted. */
  lemma AbortAfterEnd(cfg: Config, s0: State, f: Flight, s: State, s1: State, reason: string, status: Status,
                      io: OutcomeIo)
    requires EndedAs(cfg, s0, f, s, status, io.release.Released?) && s.mem == s0.mem && FlightOk(s0.disk, f)
    requires Keyed(s0.disk)
    requires SameRecords(s, s1) && s1.inflight == s.inflight && s1.next == s.next
    requires s1.mem == s.mem.(gaps := s1.mem.gaps)
    requires s1.mem.gaps == s.mem.gaps || (!f.task.IsCritical() && s1.mem.gaps == s.mem.gaps + [f.task.id])
    ensures var s' := Emit(Abort(cfg, s1, reason, io), EscalationCreated, f.task.id);
            EndedAs(cfg, s0, f, s', status, io.release.Released?)
  {
    AbortEffect(cfg, s1, reason, io);
    var s' := Emit(Abort(cfg, s1, reason, io), EscalationCreated, f.task.id);
    EndedThenAborted(cfg, s0, f, s, s', status, io.release.Released?);
  }

  lemma TerminalFailureEffect(cfg: Config, s0: State, f: Flight, s: State, status: Status, io: OutcomeIo)
    requires EndedAs(cfg, s0, f, s, status, io.release.Released?) && s.mem == s0.mem && FlightOk(s0.disk, f)
    requires Keyed(s0.disk)
    ensures EndedAs(cfg, s0, f, TerminalFailure(cfg, s, f.task, io), status, io.release.Released?)
  {
    var t := f.task;
    if t.IsCritical() {
      AbortAfterEnd(cfg, s0, f, s, s, "critical_task_failure:" + t.id, status, io);
    } else if |s.mem.gaps| + 1 >= cfg.tolerance {
      var s1 := Emit(s.(mem := s.mem.(gaps := s.mem.gaps + [t.id])), GapRecorded, t.id);
      AbortAfterEnd(cfg, s0, f, s, s1, "gap_tolerance_exceeded", status, io);
    } else {
      GapEffect(cfg, s0, f, s, status, io.release.Released?);
    }
  }

  lemma FinalEffect(cfg: Config, s: State, f: Flight, status: Status, kind: EventKind, io: OutcomeIo)
    requires Keyed(s.disk) && FlightOk(s.disk, f) && status.Terminal()
    ensures var s' := Final(cfg, s, f, status, kind, io);
            if io.finalWrite then EndedAs(cfg, s, f, s', status, io.release.Released?) else s' == s
  {
    TerminateEffect(cfg, s, f, status, kind, io);
    var (s1, ok) := Terminate(s, f, status, kind, io);
    if ok { TerminalFailureEffect(cfg, s, f, s1, status, io); }
  }

  lemma FailureEffect(cfg: Config, s: State, f: Flight, io: OutcomeIo)
    requires Keyed(s.disk) && FlightOk(s.disk, f)
    ensures var s' := HandleFailure(cfg, s, f, io);
            if Count(s.mem.retries, f.task.id) < cfg.maxRetries && io.retryWrite
            then ReopenedBy(cfg, s, f, s', io.release.Released?)
            else if io.finalWrite then EndedAs(cfg, s, f, s', Failed, io.release.Released?)
            else s' == s
  {
    if Count(s.mem.retries, f.task.id) < cfg.maxRetries && io.retryWrite {
      var s1 := PutTask(s, f.task.(status := Open, assignee := ""));
      var s2 := s1.(mem := s1.mem.(retries := Bump(s1.mem.retries, f.task.id)));
      ReleaseEffect(s2, f.worker, io.release);
      var s' := HandleFailure(cfg, s, f, io);
      assert s' == Emit(Release(s2, f.worker, io.release), TaskRetried, f.task.id);
      assert ReopenedBy(cfg, s, f, s', io.release.Released?);
    } else {
      FinalEffect(cfg, s, f, Failed, TaskFailed, io);
    }
  }

  /** Filing an escalation after the end of the flight's task. */
  lemma EndedThenFiled(cfg: Config, s0: State, f: Flight, s: State, t: Task, created: bool, released: bool)
    requires EndedAs(cfg, s0, f, s, Completed, released) && FlightOk(s0.disk, f) && Keyed(s0.disk) && Filed(t)
    requires t.status.Open? && t.Branch() == f.task.Branch()
    ensures var s' := CreateTask(s, t, created);
            && s'.mem == s.mem && s'.disk.workers == s.disk.workers && s'.inflight == s.inflight && s'.next == s.next
            && EndedAs(cfg, s0, f, s'.(mem := s'.mem.(aborted := true)), Completed, released)
  {
  }

  /** The flag is part of what abort sets, so marking it early changes nothing. */
  lemma RejectAbort(cfg: Config, s0: State, f: Flight, s1: State, io: OutcomeIo, reason: string)
    requires EndedAs(cfg, s0, f, s1.(mem := s1.mem.(aborted := true)), Completed, io.release.Released?)
    requires FlightOk(s0.disk, f) && Keyed(s0.disk) && s1.mem == s0.mem
    ensures var s' := Abort(cfg, Emit(s1, GraphInvalid, f.task.id), reason, io);
            EndedAs(cfg, s0, f, s', Completed, io.release.Released?)
  {
    var marked := s1.(mem := s1.mem.(aborted := true));
    var s2 := Emit(s1, GraphInvalid, f.task.id);
    var s' := Abort(cfg, s2, reason, io);
    AbortEffect(cfg, s2, reason, io);
    EndedThenAborted(cfg, s0, f, marked, s', Completed, io.release.Released?);
  }

  lemma RejectEffect(cfg: Config, s0: State, f: Flight, s: State, t: Task, io: OutcomeIo)
    requires EndedAs(cfg, s0, f, s, Completed, io.release.Released?) && FlightOk(s0.disk, f) && Keyed(s0.disk)
    requires s.mem == s0.mem
    requires io.hook.Rejects? && Filed(t) && t.status.Open? && t.Branch() == f.task.Branch()
    ensures var s2 := Emit(CreateTask(s, t, io.hook.created), GraphInvalid, f.task.id);
            EndedAs(cfg, s0, f, Abort(cfg, s2, io.hook.reason, io), Completed, io.release.Released?)
  {
    EndedThenFiled(cfg, s0, f, s, t, io.hook.created, io.release.Released?);
    RejectAbort(cfg, s0, f, CreateTask(s, t, io.hook.created), io, io.hook.reason);
  }

  lemma EmitEnded(cfg: Config, s0: State, f: Flight, s: State, kind: EventKind, status: Status, released: bool)
    requires EndedAs(cfg, s0, f, s, status, released)
    ensures EndedAs(cfg, s0, f, Emit(s, kind, f.task.id), status, released)
  {
  }

  lemma HookEffect(cfg: Config, s0: State, f: Flight, s: State, io: OutcomeIo)
    requires EndedAs(cfg, s0, f, s, Completed, io.release.Released?) && FlightOk(s0.disk, f) && Keyed(s0.disk)
    requires s.mem == s0.mem
    ensures EndedAs(cfg, s0, f, RunHook(cfg, s, f.task, io), Completed, io.release.Released?)
  {
    match io.hook
    case Silent =>
    case Accepts => EmitEnded(cfg, s0, f, s, GraphValidated, Completed, io.release.Released?);
    case Rejects(_, _) =>
      var esc := EscalationTask("escalation-graph-" + f.task.id, f.task.Branch());
      RejectEffect(cfg, s0, f, s, esc, io);
  }

  lemma SuccessEffect(cfg: Config, s: State, f: Flight, io: OutcomeIo)
    requires Keyed(s.disk) && FlightOk(s.disk, f)
    ensures var s' := HandleSuccess(cfg, s, f, io);
            if io.finalWrite then EndedAs(cfg, s, f, s', Completed, io.release.Released?) else s' == s
  {
    TerminateEffect(cfg, s, f, Completed, TaskCompleted, io);
    var (s1, ok) := Terminate(s, f, Completed, TaskCompleted, io);
    if ok { HookEffect(cfg, s, f, s1, io); }
  }

  /** Restarting writes the records the flight already has. */
  lemma RestartEffect(s: State, f: Flight, io: OutcomeIo)
    requires Keyed(s.disk) && FlightOk(s.disk, f)
    ensures var s' := Restart(s, f.worker, f.task, io.restartKill, io.spawn).0;
            && SameRecords(s, s') && s'.mem == s.mem && s'.inflight == s.inflight && s'.next == s.next
  {
    if io.restartKill {
      SpawnRecords(KillSession(s, f.worker), f.worker, f.task, io.spawn);
      assert s.disk.tasks[f.task.id := f.task] == s.disk.tasks;
    }
  }

  /** `b` is `s` with flight `k` taken out and perhaps one more recorded handoff. */
  ghost predicate IsBase(cfg: Config, s: State, k: nat, b: State)
    requires k in s.inflight
  {
    var id := s.inflight[k].task.id;
    && SameRecords(s, b) && b.inflight == s.inflight - {k} && b.next == s.next
    && b.mem == s.mem.(handoffs := b.mem.handoffs)
    && (b.mem.handoffs == s.mem.handoffs ||
        (Count(s.mem.handoffs, id) < cfg.maxHandoffs && b.mem.handoffs == Bump(s.mem.handoffs, id)))
  }

  lemma FateFromBase(cfg: Config, s: State, k: nat, b: State, s': State, fate: Fate, released: bool)
    requires Flights(s) && k in s.inflight && IsBase(cfg, s, k, b)
    requires match fate
             case Held => SameRecords(b, s') && s'.mem == b.mem && s'.inflight == b.inflight && s'.next == b.next
             case Reopened => ReopenedBy(cfg, b, s.inflight[k], s', released)
             case Ended(status) => EndedAs(cfg, b, s.inflight[k], s', status, released)
             case Relaunched => false
    ensures OutcomeFate(cfg, s, k, s', fate, released)
  {
  }

  lemma FailureFate(cfg: Config, s: State, k: nat, b: State, io: OutcomeIo) returns (fate: Fate)
    requires Flights(s) && k in s.inflight && IsBase(cfg, s, k, b) && Keyed(b.disk)
    ensures OutcomeFate(cfg, s, k, HandleFailure(cfg, b, s.inflight[k], io), fate, io.release.Released?)
    ensures fate.Held? && cfg.testMode ==> !io.finalWrite
  {
    var f := s.inflight[k];
    var s' := HandleFailure(cfg, b, f, io);
    FailureEffect(cfg, b, f, io);
    fate := if Count(b.mem.retries, f.task.id) < cfg.maxRetries && io.retryWrite then Reopened
            else if io.finalWrite then Ended(Failed) else Held;
    FateFromBase(cfg, s, k, b, s', fate, io.release.Released?);
  }

  lemma HandoffFate(cfg: Config, s: State, k: nat, io: OutcomeIo) returns (fate: Fate)
    requires Flights(s) && k in s.inflight
    ensures OutcomeFate(cfg, s, k, HandleHandoff(cfg, Taken(s, k), s.inflight[k], io), fate, io.release.Released?)
    ensures fate.Held? && cfg.testMode ==> !io.finalWrite
  {
    var f, s0 := s.inflight[k], Taken(s, k);
    if Count(s.mem.handoffs, f.task.id) >= cfg.maxHandoffs {
      fate := FailureFate(cfg, s, k, Emit(s0, HandoffLimitReached, f.task.id), io);
    } else {
      var s1 := s0.(mem := s.mem.(handoffs := Bump(s.mem.handoffs, f.task.id)));
      if cfg.testMode {
        fate := Relaunched;
        assert Count(s1.mem.handoffs, f.task.id) != Count(s.mem.handoffs, f.task.id);
      } else {
        RestartEffect(s1, f, io);
        var (s2, ok) := Restart(s1, f.worker, f.task, io.restartKill, io.spawn);
        if ok {
          fate := Held;
          FateFromBase(cfg, s, k, s2, Emit(s2, TaskHandoff, f.task.id), fate, io.release.Released?);
        } else {
          fate := FailureFate(cfg, s, k, s2, io);
        }
      }
    }
  }

  /** Whatever the exit code and the I/O results, one of four fates befalls the outcome. */
  lemma OutcomeEffect(cfg: Config, s: State, k: nat, code: int, io: OutcomeIo) returns (fate: Fate)
    requires Flights(s) && k in s.inflight
    ensures OutcomeFate(cfg, s, k, Step(cfg, s, Outcome(k, code, io)), fate, io.release.Released?)
    ensures fate.Held? && cfg.testMode ==> !io.finalWrite
  {
    var f, s0 := s.inflight[k], Taken(s, k);
    var s' := ProcessOutcome(cfg, s0, f, code, io);
    match DetermineOutcome(code)
    case Success =>
      SuccessEffect(cfg, s0, f, io);
      fate := if io.finalWrite then Ended(Completed) else Held;
      FateFromBase(cfg, s, k, s0, s', fate, io.release.Released?);
    case Block =>
      FinalEffect(cfg, s0, f, Blocked, TaskBlocked, io);
      fate := if io.finalWrite then Ended(Blocked) else Held;
      FateFromBase(cfg, s, k, s0, s', fate, io.release.Released?);
    case Failure =>
      fate := FailureFate(cfg, s, k, s0, io);
    case Handoff =>
      fate := HandoffFate(cfg, s, k, io);
  }

  // ----- one dispatch -----

  /** What dispatching the ready task `id` to worker `w` can leave behind. */
  ghost predicate DispatchFate(cfg: Config, s: State, id: string, s': State, w: string, launched: bool, released: bool)
    requires id in s.disk.tasks
  {
    var t := s.disk.tasks[id];
    var t1 := t.(status := InProgress, assignee := w);
    && Frame(s, s', id, w) && w !in Active(s.disk) && s'.mem == s.mem
    && PoolStep(cfg, s, s', w)
    && if launched then
         && t.Role() in cfg.roles && t.Role() != ESCALATION
         && s'.inflight == s.inflight[s.next := Flight(t1, w)] && s'.next == s.next + 1
         && s'.disk.tasks == s.disk.tasks[id := t1]
         && s'.disk.workers == s.disk.workers[w := Worker(w, true, id)]
       else
         && s'.inflight == s.inflight && s'.next == s.next
         && (released && w in s'.disk.workers ==> !s'.disk.workers[w].active)
  }

  /** At most one worker was created, and only below the limit. */
  ghost predicate PoolStep(cfg: Config, s: State, s': State, w: string) {
    && s'.disk.workers.Keys <= s.disk.workers.Keys + {w}
    && (s'.disk.workers.Keys != s.disk.workers.Keys ==> |s.disk.workers| < cfg.maxWorkers && w !in s.disk.workers)
  }

  /** Only task `id` and worker `w` may differ. */
  ghost predicate Local(s: State, s': State, id: string, w: string) {
    && Keyed(s'.disk) && s'.mem == s.mem && s'.inflight == s.inflight && s'.next == s.next
    && s'.disk.tasks.Keys == s.disk.tasks.Keys && s'.disk.workers.Keys == s.disk.workers.Keys
    && (forall x :: x in s.disk.tasks && x != id ==> s'.disk.tasks[x] == s.disk.tasks[x])
    && (forall n :: n in s.disk.workers && n != w ==> s'.disk.workers[n] == s.disk.workers[n])
  }

  lemma LocalTrans(s: State, s1: State, s2: State, id: string, w: string)
    requires Local(s, s1, id, w) && Local(s1, s2, id, w)
    ensures Local(s, s2, id, w)
  {
  }

  lemma AllocateEffect(cfg: Config, s: State, io: DispatchIo)
    requires Keyed(s.disk)
    ensures var (s1, w) := Allocate(cfg, s, io);
            && (w.None? ==> s1 == s)
            && (w.Some? ==>
                  && Keyed(s1.disk) && w.value in s1.disk.workers && !s1.disk.workers[w.value].active
                  && w.value !in Active(s.disk)
                  && s1 == s.(disk := s.disk.(workers := s1.disk.workers), cuts := s1.cuts)
                  && (w.value in s.disk.workers ==> s1 == s)
                  && (w.value !in s.disk.workers ==>
                        && |s.disk.workers| < cfg.maxWorkers
                        && s1.disk.workers == s.disk.workers[w.value := Worker(w.value, false, "")]))
  {
    assert WorkerName(|s.disk.workers| + 1) != "";
  }

  lemma AssignEffect(s: State, id: string, w: string, io: AssignIo)
    requires Keyed(s.disk) && id in s.disk.tasks && w in s.disk.workers
    ensures var (s1, ok) := Assign(s, id, w, io);
            && Local(s, s1, id, w)
            && (ok ==> s1.disk.tasks == s.disk.tasks[id := s.disk.tasks[id].(status := Assigned, assignee := w)]
                       && s1.disk.workers == s.disk.workers[w := Worker(w, true, id)])
            && (!ok ==> s1.disk.workers == s.disk.workers)
  {
    var t := s.disk.tasks[id];
    var t1 := t.(status := Assigned, assignee := w);
    var s1 := PutTask(s, t1);
    PutTaskLocal(s, t1, w);
    PutTaskLocal(s1, t, w);
    PutWorkerLocal(s1, id, Worker(w, true, id));
  }

  lemma PutTaskLocal(s: State, t: Task, w: string)
    requires Keyed(s.disk) && t.id in s.disk.tasks
    ensures Local(s, PutTask(s, t), t.id, w)
  {
  }

  lemma PutWorkerLocal(s: State, id: string, w: Worker)
    requires Keyed(s.disk) && w.name in s.disk.workers
    ensures Local(s, PutWorker(s, w), id, w.name)
  {
  }

  lemma ReleaseLocal(s: State, id: string, w: string, io: ReleaseIo)
    requires Keyed(s.disk) && w in s.disk.workers
    ensures Local(s, Release(s, w, io), id, w)
    ensures io.Released? ==> Release(s, w, io).disk.workers[w] == Worker(w, false, "")
    ensures Release(s, w, io).disk.workers[w] == s.disk.workers[w] ||
              Release(s, w, io).disk.workers[w] == Worker(w, false, "")
    ensures Release(s, w, io).disk.tasks == s.disk.tasks
  {
    ReleaseEffect(s, w, io);
  }

  lemma FailTaskEffect(s: State, t: Task, w: string, io: DispatchIo)
    requires Keyed(s.disk) && t.id in s.disk.tasks && w in s.disk.workers
    ensures Local(s, FailTask(s, t, w, io), t.id, w)
    ensures io.release.Released? ==> FailTask(s, t, w, io).disk.workers[w] == Worker(w, false, "")
    ensures var t' := if io.failWrite then t.(status := Failed) else s.disk.tasks[t.id];
            FailTask(s, t, w, io).disk.tasks[t.id] == t'
  {
    var s1 := if io.failWrite then PutTask(s, t.(status := Failed)) else s;
    assert Local(s, s1, t.id, w);
    ReleaseLocal(s1, t.id, w, io.release);
  }

  lemma SpawnEffect(s: State, w: string, t: Task, io: SpawnIo)
    requires Keyed(s.disk) && t.id in s.disk.tasks && w in s.disk.workers && s.disk.workers[w] == Worker(w, true, t.id)
    ensures var (s1, ok) := Spawn(s, w, t, io);
            && Local(s, s1, t.id, w) && s1.disk.workers == s.disk.workers
            && s1.disk.tasks == (if ok then s.disk.tasks[t.id := t.(status := InProgress)] else s.disk.tasks)
  {
    SpawnRecords(s, w, t, io);
  }

  lemma SpawnRecords(s: State, w: string, t: Task, io: SpawnIo)
    requires t.id in s.disk.tasks && w in s.disk.workers && s.disk.workers[w] == Worker(w, true, t.id)
    ensures var (s1, ok) := Spawn(s, w, t, io);
            && s1.disk.workers == s.disk.workers
            && s1.mem == s.mem && s1.inflight == s.inflight && s1.next == s.next
            && s1.disk.tasks == (if ok then s.disk.tasks[t.id := t.(status := InProgress)] else s.disk.tasks)
  {
  }

  /** Start the assigned task: either it is launched, or it is failed and its worker released. */
  lemma BeginEffect(cfg: Config, s: State, t: Task, w: string, io: DispatchIo)
    requires Keyed(s.disk) && t.id in s.disk.tasks && w in s.disk.workers && s.disk.workers[w] == Worker(w, true, t.id)
    ensures Begun(s, Begin(cfg, s, t, w, io).0, Begin(cfg, s, t, w, io).1, t, w, io)
  {
    if cfg.testMode { TestBegun(cfg, s, t, w, io); } else { SpawnBegun(cfg, s, t, w, io); }
  }

  ghost predicate Begun(s: State, s': State, v: Verdict, t: Task, w: string, io: DispatchIo) {
    var t1 := t.(status := InProgress);
    && v != Stop
    && if v == Launched then
         && s'.inflight == s.inflight[s.next := Flight(t1, w)] && s'.next == s.next + 1 && s'.mem == s.mem
         && s'.disk.tasks == s.disk.tasks[t.id := t1] && s'.disk.workers == s.disk.workers
       else
         && Local(s, s', t.id, w)
         && (io.release.Released? ==> w in s'.disk.workers && s'.disk.workers[w] == Worker(w, false, ""))
         && (io.failWrite ==> t.id in s'.disk.tasks && s'.disk.tasks[t.id].status.Failed?)
  }

  lemma TestBegun(cfg: Config, s: State, t: Task, w: string, io: DispatchIo)
    requires Keyed(s.disk) && t.id in s.disk.tasks && w in s.disk.workers && s.disk.workers[w] == Worker(w, true, t.id)
    requires cfg.testMode
    ensures Begun(s, Begin(cfg, s, t, w, io).0, Begin(cfg, s, t, w, io).1, t, w, io)
  {
    var t1 := t.(status := InProgress);
    if !io.startWrite {
      FailTaskEffect(s, t1, w, io);
    } else if !io.activeWrite {
      var s1 := PutTask(s, t1);
      PutTaskLocal(s, t1, w);
      FailTaskEffect(s1, t1, w, io);
      LocalTrans(s, s1, FailTask(s1, t1, w, io), t.id, w);
    }
  }

  lemma SpawnBegun(cfg: Config, s: State, t: Task, w: string, io: DispatchIo)
    requires Keyed(s.disk) && t.id in s.disk.tasks && w in s.disk.workers && s.disk.workers[w] == Worker(w, true, t.id)
    requires !cfg.testMode
    ensures Begun(s, Begin(cfg, s, t, w, io).0, Begin(cfg, s, t, w, io).1, t, w, io)
  {
    SpawnEffect(s, w, t, io.spawn);
    var (s1, ok) := Spawn(s, w, t, io.spawn);
    var t' := if ok then t.(status := InProgress) else t;
    FailTaskEffect(s1, t', w, io);
    LocalTrans(s, s1, FailTask(s1, t', w, io), t.id, w);
  }

  lemma EscalateEffect(cfg: Config, s: State, t: Task, io: DispatchIo)
    requires Keyed(s.disk) && t.id in s.disk.tasks && s.disk.tasks[t.id] == t
    ensures var s' := Escalate(s, t, io);
            && Frame(s, s', t.id, "") && s'.mem == s.mem && s'.inflight == s.inflight && s'.next == s.next
            && s'.disk.workers == s.disk.workers
            && t.id in s'.disk.tasks && s'.disk.tasks[t.id] == (if io.blockWrite then t.(status := Blocked) else t)
  {
    var esc := EscalationTask("escalation-" + t.id, t.Branch());
    assert Filed(esc) by { assert |esc.id| > 0; }
    FileEffect(s, esc, t, io.escalationCreated);
    var s1 := CreateTask(s, esc, io.escalationCreated);
    BlockEffect(s, s1, t, io.blockWrite);
  }

  lemma FileEffect(s: State, esc: Task, t: Task, created: bool)
    requires Keyed(s.disk) && t.id in s.disk.tasks && s.disk.tasks[t.id] == t && Filed(esc) && esc.status.Open?
    ensures var s1 := CreateTask(s, esc, created);
            && Frame(s, s1, t.id, "") && s1.mem == s.mem && s1.inflight == s.inflight && s1.next == s.next
            && s1.disk.workers == s.disk.workers && t.id in s1.disk.tasks && s1.disk.tasks[t.id] == t
  {
  }

  lemma BlockEffect(s: State, s1: State, t: Task, written: bool)
    requires Keyed(s.disk) && Frame(s, s1, t.id, "") && t.id in s1.disk.tasks && s1.disk.tasks[t.id] == t
    requires t.id in s.disk.tasks
    requires s1.mem == s.mem && s1.inflight == s.inflight && s1.next == s.next
    ensures var s2 := if written then PutTask(s1, t.(status := Blocked)) else s1;
            && Frame(s, s2, t.id, "") && s2.mem == s.mem && s2.inflight == s.inflight && s2.next == s.next
            && s2.disk.workers == s1.disk.workers
            && s2.disk.tasks[t.id] == (if written then t.(status := Blocked) else t)
  {
  }

  /** Allocating and then working on one task and one worker stays within the dispatch frame. */
  lemma FrameFromLocal(cfg: Config, s: State, s1: State, s': State, id: string, w: string, released: bool)
    requires Keyed(s.disk) && id in s.disk.tasks && Allocated(cfg, s, s1, w)
    requires Local(s1, s', id, w) && (released ==> !s'.disk.workers[w].active)
    ensures DispatchFate(cfg, s, id, s', w, false, released)
  {
  }

  /** A worker was found or created for the task. */
  ghost predicate Allocated(cfg: Config, s: State, s1: State, w: string) {
    && w in s1.disk.workers && w !in Active(s.disk)
    && (s1 == s || (|s.disk.workers| < cfg.maxWorkers && w !in s.disk.workers &&
                    s1 == s.(disk := s.disk.(workers := s.disk.workers[w := Worker(w, false, "")]), cuts := s1.cuts)))
  }

  lemma DispatchEffect(cfg: Config, s: State, id: string, io: DispatchIo) returns (w: string, launched: bool)
    requires Keyed(s.disk) && Enabled(cfg, s, Dispatch(id, io))
    ensures DispatchFate(cfg, s, id, Step(cfg, s, Dispatch(id, io)), w, launched, io.release.Released?)
    ensures launched <==> DispatchTask(cfg, s, s.disk.tasks[id], io).1 == Launched
  {
    var t := s.disk.tasks[id];
    w, launched := "", false;
    if t.Role() == ESCALATION {
    } else if t.Role() !in cfg.roles {
      EscalateEffect(cfg, s, t, io);
    } else {
      AllocateEffect(cfg, s, io);
      var (s1, slot) := Allocate(cfg, s, io);
      if slot.Some? {
        w := slot.value;
        launched := AllocatedEffect(cfg, s, s1, t, w, io);
      }
    }
  }

  lemma AllocatedEffect(cfg: Config, s: State, s1: State, t: Task, w: string, io: DispatchIo) returns (launched: bool)
    requires Keyed(s.disk) && t.id in s.disk.tasks && s.disk.tasks[t.id] == t
    requires t.Role() in cfg.roles && t.Role() != ESCALATION && Keyed(s1.disk) && Allocated(cfg, s, s1, w)
    ensures var (s', v) := DispatchTo(cfg, s1, t, w, io);
            && (launched <==> v == Launched) && v != Stop
            && DispatchFate(cfg, s, t.id, s', w, launched, io.release.Released?)
  {
    launched := DispatchTo(cfg, s1, t, w, io).1 == Launched;
    AssignEffect(s1, t.id, w, io.assign);
    var (s2, held) := Assign(s1, t.id, w, io.assign);
    if held && io.reread {
      BeginFate(cfg, s, s1, s2, t, w, io);
    } else {
      HaltedFate(cfg, s, s1, s2, t, w, held, io);
    }
  }

  lemma BeginFate(cfg: Config, s: State, s1: State, s2: State, t: Task, w: string, io: DispatchIo)
    requires Keyed(s.disk) && t.id in s.disk.tasks && s.disk.tasks[t.id] == t && Allocated(cfg, s, s1, w)
    requires t.Role() in cfg.roles && t.Role() != ESCALATION && Keyed(s1.disk) && Local(s1, s2, t.id, w)
    requires s2.disk.tasks == s1.disk.tasks[t.id := t.(status := Assigned, assignee := w)]
    requires s2.disk.workers == s1.disk.workers[w := Worker(w, true, t.id)]
    ensures var (s', v) := Begin(cfg, s2, s2.disk.tasks[t.id], w, io);
            v != Stop && DispatchFate(cfg, s, t.id, s', w, v == Launched, io.release.Released?)
  {
    var t2 := s2.disk.tasks[t.id];
    BeginEffect(cfg, s2, t2, w, io);
    BegunFate(cfg, s, s1, s2, Begin(cfg, s2, t2, w, io).0, Begin(cfg, s2, t2, w, io).1, t, w, io);
  }

  /** The assignment failed, or the task could not be read back. */
  lemma HaltedFate(cfg: Config, s: State, s1: State, s2: State, t: Task, w: string, held: bool, io: DispatchIo)
    requires Keyed(s.disk) && t.id in s.disk.tasks && Allocated(cfg, s, s1, w) && Local(s1, s2, t.id, w)
    ensures var s' := if held then FailTask(s2, Stub(cfg, t), w, io) else Release(s2, w, io.release);
            DispatchFate(cfg, s, t.id, s', w, false, io.release.Released?)
  {
    if held { FailTaskEffect(s2, Stub(cfg, t), w, io); } else { ReleaseLocal(s2, t.id, w, io.release); }
    var s' := if held then FailTask(s2, Stub(cfg, t), w, io) else Release(s2, w, io.release);
    SkippedFate(cfg, s, s1, s2, s', t.id, w, io.release.Released?);
  }

  lemma LaunchedFate(cfg: Config, s: State, s1: State, s': State, t: Task, w: string, released: bool)
    requires Keyed(s.disk) && t.id in s.disk.tasks && s.disk.tasks[t.id] == t && w != "" && Allocated(cfg, s, s1, w)
    requires t.Role() in cfg.roles && t.Role() != ESCALATION
    requires LaunchedFrom(s1, s', t, w)
    ensures DispatchFate(cfg, s, t.id, s', w, true, released)
  {
    assert s1.disk.tasks == s.disk.tasks && s1.inflight == s.inflight && s1.next == s.next && s1.mem == s.mem;
    assert s'.disk.workers == s.disk.workers[w := Worker(w, true, t.id)];
    OneRecordEach(s, s', t.id, t.(status := InProgress, assignee := w), w);
  }

  lemma SkippedFate(cfg: Config, s: State, s1: State, s2: State, s': State, id: string, w: string, released: bool)
    requires Keyed(s.disk) && id in s.disk.tasks && Allocated(cfg, s, s1, w)
    requires Local(s1, s2, id, w) && Local(s2, s', id, w) && (released ==> !s'.disk.workers[w].active)
    ensures DispatchFate(cfg, s, id, s', w, false, released)
  {
    LocalTrans(s1, s2, s', id, w);
    FrameFromLocal(cfg, s, s1, s', id, w, released);
  }

  lemma BegunFate(cfg: Config, s: State, s1: State, s2: State, s': State, v: Verdict, t: Task, w: string,
                  io: DispatchIo)
    requires Keyed(s.disk) && t.id in s.disk.tasks && s.disk.tasks[t.id] == t && Allocated(cfg, s, s1, w)
    requires t.Role() in cfg.roles && t.Role() != ESCALATION && Keyed(s1.disk) && Local(s1, s2, t.id, w)
    requires s2.disk.tasks == s1.disk.tasks[t.id := t.(status := Assigned, assignee := w)]
    requires s2.disk.workers == s1.disk.workers[w := Worker(w, true, t.id)]
    requires Begun(s2, s', v, t.(status := Assigned, assignee := w), w, io)
    ensures DispatchFate(cfg, s, t.id, s', w, v == Launched, io.release.Released?)
  {
    if v == Launched {
      assert LaunchedFrom(s1, s', t, w) by { LaunchedThrough(s1, s2, s', t, w, io); }
      LaunchedFate(cfg, s, s1, s', t, w, io.release.Released?);
    } else {
      SkippedFate(cfg, s, s1, s2, s', t.id, w, io.release.Released?);
    }
  }

  /** One agent more, its task in progress and its worker active; nothing else differs. */
  ghost predicate LaunchedFrom(s: State, s': State, t: Task, w: string) {
    var t1 := t.(status := InProgress, assignee := w);
    && s'.inflight == s.inflight[s.next := Flight(t1, w)] && s'.next == s.next + 1 && s'.mem == s.mem
    && s'.disk.tasks == s.disk.tasks[t.id := t1] && s'.disk.workers == s.disk.workers[w := Worker(w, true, t.id)]
  }

  lemma LaunchedThrough(s1: State, s2: State, s': State, t: Task, w: string, io: DispatchIo)
    requires s2.inflight == s1.inflight && s2.next == s1.next && s2.mem == s1.mem
    requires s2.disk.tasks == s1.disk.tasks[t.id := t.(status := Assigned, assignee := w)]
    requires s2.disk.workers == s1.disk.workers[w := Worker(w, true, t.id)]
    requires Begun(s2, s', Launched, t.(status := Assigned, assignee := w), w, io)
    ensures LaunchedFrom(s1, s', t, w)
  {
  }

  lemma OneRecordEach(s: State, s': State, id: string, t1: Task, w: string)
    requires Keyed(s.disk) && id in s.disk.tasks && t1.id == id && w != ""
    requires s'.disk.tasks == s.disk.tasks[id := t1]
    requires s'.disk.workers == s.disk.workers[w := Worker(w, true, id)]
    ensures Frame(s, s', id, w)
    ensures s'.disk.workers.Keys == s.disk.workers.Keys + {w}
  {
  }
}
