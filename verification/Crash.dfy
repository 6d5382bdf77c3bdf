// Every disk a crash can leave behind is recoverable.
module Crash {
  import opened Types
  import opened Ordering
  import opened Machine
  import opened Effects
  import opened Safety
  import opened Writes

  /** What Reconcile relies on, on the ledger of one branch: queued tasks are unassigned, held tasks name someone,
      a task in progress is the current task of exactly the worker it names, and the log is faithful. */
  ghost predicate Recoverable(b: string, d: Disk) {
    && Keyed(d) && Faithful(d)
    && (forall id :: id in d.tasks ==> Labelled(b, d.tasks[id]))
    && (forall id :: id in d.tasks && d.tasks[id].status.InProgress? ==> HeldBy(d, id, d.tasks[id].assignee))
    && (forall n :: n in d.workers && d.workers[n].active ==> NamedBack(d, n, d.workers[n].current))
  }

  predicate EndKind(k: EventKind) { k.TaskCompleted? || k.TaskFailed? || k.TaskBlocked? }

  function EndStatus(k: EventKind): Status
    requires EndKind(k)
  {
    if k == TaskCompleted then Completed else if k == TaskFailed then Failed else Blocked
  }

  /** Whatever the log reports as completed, failed or blocked is so in the store. */
  ghost predicate Faithful(d: Disk) {
    forall e :: e in d.log && EndKind(e.kind) ==> e.task in d.tasks && d.tasks[e.task].status == EndStatus(e.kind)
  }

  predicate NamedBack(d: Disk, n: string, id: string) {
    id in d.tasks && d.tasks[id].status.InProgress? ==> d.tasks[id].assignee == n
  }

  predicate Labelled(b: string, t: Task) {
    && t.id != "" && t.Branch() == b
    && (t.status.Open? ==> t.assignee == "")
    && (t.status.Assigned? || t.status.InProgress? ==> t.assignee != "")
  }

  predicate HeldBy(d: Disk, id: string, n: string) {
    n in d.workers && d.workers[n] == Worker(n, true, id)
  }

  /** The current disk and every earlier cut are recoverable. */
  ghost predicate Sound(b: string, s: State) {
    Recoverable(b, s.disk) && forall i :: 0 <= i < |s.cuts| ==> Recoverable(b, s.cuts[i])
  }

  lemma SoundWrite(b: string, s: State, d: Disk)
    requires Sound(b, s) && Recoverable(b, d)
    ensures Sound(b, Write(s, d))
  {
  }

  /** Sessions do not matter. */
  lemma SameRecordsSound(b: string, s: State, d: Disk)
    requires Sound(b, s) && d.tasks == s.disk.tasks && d.workers == s.disk.workers && d.log == s.disk.log
    ensures Sound(b, Write(s, d))
  {
    SoundWrite(b, s, d);
  }

  /** A queued or finished record may be written over anything that is not finished. */
  lemma PutResting(b: string, s: State, t: Task)
    requires Sound(b, s) && Labelled(b, t) && !t.status.InProgress? && NotEnded(s.disk, t.id)
    ensures Sound(b, PutTask(s, t))
  {
    SoundWrite(b, s, PutTask(s, t).disk);
  }

  ghost predicate HoldsNothing(d: Disk, w: string) {
    forall id :: id in d.tasks && d.tasks[id].status.InProgress? ==> d.tasks[id].assignee != w
  }

  lemma PutIdle(b: string, s: State, w: string)
    requires Sound(b, s) && HoldsNothing(s.disk, w) && w != ""
    ensures Sound(b, PutWorker(s, Worker(w, false, "")))
  {
    SoundWrite(b, s, PutWorker(s, Worker(w, false, "")).disk);
  }

  lemma PutHolding(b: string, s: State, w: string, id: string)
    requires Sound(b, s) && HoldsNothing(s.disk, w) && w != "" && id in s.disk.tasks
    requires !s.disk.tasks[id].status.InProgress?
    ensures Sound(b, PutWorker(s, Worker(w, true, id)))
  {
    SoundWrite(b, s, PutWorker(s, Worker(w, true, id)).disk);
  }

  lemma PutRunning(b: string, s: State, t: Task, w: string)
    requires Sound(b, s) && t.id != "" && t.Branch() == b && t.status.InProgress? && t.assignee == w && w != ""
    requires HeldBy(s.disk, t.id, w)
    requires forall n :: n in s.disk.workers && s.disk.workers[n].active && s.disk.workers[n].current == t.id ==> n == w
    requires HoldsNothing(s.disk, w) && NotEnded(s.disk, t.id)
    ensures Sound(b, PutTask(s, t))
  {
    SoundWrite(b, s, PutTask(s, t).disk);
  }

  lemma ReleaseSound(b: string, s: State, w: string, io: ReleaseIo)
    requires Sound(b, s) && HoldsNothing(s.disk, w)
    ensures Sound(b, Release(s, w, io))
  {
    if w in s.disk.workers && !io.NotReached? {
      SameRecordsSound(b, s, KillSession(s, w).disk);
      PutIdle(b, KillSession(s, w), w);
    }
  }

  lemma EmitSound(b: string, s: State, kind: EventKind, id: string)
    requires Sound(b, s) && (EndKind(kind) ==> id in s.disk.tasks && s.disk.tasks[id].status == EndStatus(kind))
    ensures Sound(b, Emit(s, kind, id))
  {
    SoundWrite(b, s, Emit(s, kind, id).disk);
  }

  /** Once the flight's task is no longer in progress, its worker holds nothing. */
  lemma FreedWorker(b: string, s: State, f: Flight, t: Task)
    requires Recoverable(b, s.disk) && FlightOk(s.disk, f) && t.id == f.task.id && !t.status.InProgress?
    ensures HoldsNothing(PutTask(s, t).disk, f.worker)
  {
  }

  lemma {:induction false} BlockOpenSound(b: string, s: State, l: seq<Task>, unblocked: set<string>)
    requires Sound(b, s) && Sorted(l)
    requires forall t :: t in l ==> t.id in s.disk.tasks && s.disk.tasks[t.id] == t
    ensures Sound(b, BlockOpen(s, l, unblocked))
    decreases |l|
  {
    if l != [] {
      var t := l[0];
      assert t in l;
      var s1 := if t.status.Open? && t.id !in unblocked then PutTask(s, t.(status := Blocked)) else s;
      if t.status.Open? { PutResting(b, s, t.(status := Blocked)); }
      forall u | u in l[1..] ensures u.id in s1.disk.tasks && s1.disk.tasks[u.id] == u {
        var i :| 0 <= i < |l[1..]| && l[1..][i] == u;
        assert TaskLess(l[0], l[i + 1]) && l[i + 1] in l;
        TaskLessTotal(t, t);
      }
      BlockOpenSound(b, s1, l[1..], unblocked);
    }
  }

  lemma AbortSound(b: string, cfg: Config, s: State, reason: string, io: OutcomeIo)
    requires Sound(b, s)
    ensures Sound(b, Abort(cfg, s, reason, io))
  {
    var ts := BranchTasks(cfg, s.disk);
    assert DistinctTasks(ts);
    BlockOpenSound(b, s.(mem := SetReason(s.mem, reason).(aborted := true)), Listing(ts), io.unblocked);
  }

  lemma TerminalFailureSound(b: string, cfg: Config, s: State, t: Task, io: OutcomeIo)
    requires Sound(b, s)
    ensures Sound(b, TerminalFailure(cfg, s, t, io))
  {
    if t.IsCritical() {
      AbortSound(b, cfg, s, "critical_task_failure:" + t.id, io);
      EmitSound(b, Abort(cfg, s, "critical_task_failure:" + t.id, io), EscalationCreated, t.id);
    } else {
      var s0 := s.(mem := s.mem.(gaps := s.mem.gaps + [t.id]));
      EmitSound(b, s0, GapRecorded, t.id);
      var s1 := Emit(s0, GapRecorded, t.id);
      AbortSound(b, cfg, s1, "gap_tolerance_exceeded", io);
      EmitSound(b, Abort(cfg, s1, "gap_tolerance_exceeded", io), EscalationCreated, t.id);
    }
  }

  lemma TerminateSound(b: string, s: State, f: Flight, status: Status, kind: EventKind, io: OutcomeIo)
    requires Sound(b, s) && FlightOk(s.disk, f) && EndKind(kind) && status == EndStatus(kind)
    ensures Sound(b, Terminate(s, f, status, kind, io).0)
  {
    var t := f.task.(status := status);
    PutResting(b, s, t);
    FreedWorker(b, s, f, t);
    var s1 := PutTask(s, t);
    ReleaseSound(b, s1, f.worker, io.release);
    EmitSound(b, Release(s1, f.worker, io.release), kind, f.task.id);
  }

  lemma FinalSound(b: string, cfg: Config, s: State, f: Flight, status: Status, kind: EventKind, io: OutcomeIo)
    requires Sound(b, s) && FlightOk(s.disk, f) && EndKind(kind) && status == EndStatus(kind)
    ensures Sound(b, Final(cfg, s, f, status, kind, io))
  {
    TerminateSound(b, s, f, status, kind, io);
    TerminalFailureSound(b, cfg, Terminate(s, f, status, kind, io).0, f.task, io);
  }

  lemma FailureSound(b: string, cfg: Config, s: State, f: Flight, io: OutcomeIo)
    requires Sound(b, s) && FlightOk(s.disk, f)
    ensures Sound(b, HandleFailure(cfg, s, f, io))
  {
    var t := f.task.(status := Open, assignee := "");
    PutResting(b, s, t);
    FreedWorker(b, s, f, t);
    var s1 := PutTask(s, t);
    var s2 := s1.(mem := s1.mem.(retries := Bump(s1.mem.retries, f.task.id)));
    ReleaseSound(b, s2, f.worker, io.release);
    EmitSound(b, Release(s2, f.worker, io.release), TaskRetried, f.task.id);
    FinalSound(b, cfg, s, f, Failed, TaskFailed, io);
  }

  lemma FileSound(b: string, s: State, t: Task, created: bool)
    requires Sound(b, s) && Labelled(b, t) && t.status.Open?
    ensures Sound(b, CreateTask(s, t, created))
  {
    if created && t.id !in s.disk.tasks { PutResting(b, s, t); }
  }

  lemma HookSound(b: string, cfg: Config, s: State, t: Task, io: OutcomeIo)
    requires Sound(b, s) && t.Branch() == b
    ensures Sound(b, RunHook(cfg, s, t, io))
  {
    match io.hook
    case Silent =>
    case Accepts => EmitSound(b, s, GraphValidated, t.id);
    case Rejects(reason, created) =>
      var esc := EscalationTask("escalation-graph-" + t.id, t.Branch());
      FileSound(b, s, esc, created);
      var s1 := CreateTask(s, esc, created);
      EmitSound(b, s1, GraphInvalid, t.id);
      AbortSound(b, cfg, Emit(s1, GraphInvalid, t.id), reason, io);
  }

  lemma SuccessSound(b: string, cfg: Config, s: State, f: Flight, io: OutcomeIo)
    requires Sound(b, s) && FlightOk(s.disk, f)
    ensures Sound(b, HandleSuccess(cfg, s, f, io))
  {
    TerminateSound(b, s, f, Completed, TaskCompleted, io);
    var (s1, persisted) := Terminate(s, f, Completed, TaskCompleted, io);
    if persisted { HookSound(b, cfg, s1, f.task, io); }
  }

  /** Spawning for a task its worker already holds passes only through known records. */
  lemma RollbackSound(b: string, s: State, w: string, old_: Worker, killed: bool, restored: bool)
    requires Sound(b, s) && w in s.disk.workers && s.disk.workers[w] == old_ && old_.name == w
    ensures var s1 := KillIf(s, w, killed); Sound(b, if restored then PutWorker(s1, old_) else s1)
  {
    var s1 := KillIf(s, w, killed);
    SameRecordsSound(b, s, KillSession(s, w).disk);
    assert s1.disk.workers[w := old_] == s1.disk.workers;
    SameRecordsSound(b, s1, PutWorker(s1, old_).disk);
  }

  lemma SpawnSound(b: string, s: State, w: string, t: Task, io: SpawnIo)
    requires Sound(b, s) && t.id in s.disk.tasks && HeldBy(s.disk, t.id, w)
    requires Sound(b, PutTask(s, t.(status := InProgress)))
    ensures Sound(b, Spawn(s, w, t, io).0)
  {
    var s1 := StartSession(s, w, t.id);
    SameRecordsSound(b, s, s1.disk);
    SameRecordsSound(b, s, KillSession(s, w).disk);
    SameRecordsSound(b, s1, KillSession(s1, w).disk);
    var s2 := PutWorker(s1, Worker(w, true, t.id));
    assert s2.disk.workers == s.disk.workers;
    SameRecordsSound(b, s1, s2.disk);
    if io.TaskUnwritten? {
      RollbackSound(b, s2, w, s.disk.workers[w], io.killed, io.restored);
    } else if io.SpawnOk? {
      RunningAfterSpawn(b, s, s2, t);
    }
  }

  lemma RunningAfterSpawn(b: string, s: State, s2: State, t: Task)
    requires Sound(b, s2) && Sound(b, PutTask(s, t.(status := InProgress)))
    requires s2.disk.tasks == s.disk.tasks && s2.disk.workers == s.disk.workers && s2.disk.log == s.disk.log
    ensures Sound(b, PutTask(s2, t.(status := InProgress)))
  {
    var d := PutTask(s2, t.(status := InProgress)).disk;
    assert Recoverable(b, d) by {
      SameRecordsSound(b, PutTask(s, t.(status := InProgress)), d);
    }
    SoundWrite(b, s2, d);
  }

  lemma HandoffSound(b: string, cfg: Config, s: State, f: Flight, io: OutcomeIo)
    requires Sound(b, s) && FlightOk(s.disk, f)
    ensures Sound(b, HandleHandoff(cfg, s, f, io))
  {
    EmitSound(b, s, HandoffLimitReached, f.task.id);
    if Count(s.mem.handoffs, f.task.id) >= cfg.maxHandoffs {
      FailureSound(b, cfg, Emit(s, HandoffLimitReached, f.task.id), f, io);
    } else {
      var s1 := s.(mem := s.mem.(handoffs := Bump(s.mem.handoffs, f.task.id)));
      EmitSound(b, s1, TaskHandoff, f.task.id);
      if !cfg.testMode {
        RestartSound(b, s1, f, io);
        RestartEffect(s1, f, io);
        var (s2, ok) := Restart(s1, f.worker, f.task, io.restartKill, io.spawn);
        EmitSound(b, s2, TaskHandoff, f.task.id);
        FailureSound(b, cfg, s2, f, io);
      }
    }
  }

  lemma RestartSound(b: string, s: State, f: Flight, io: OutcomeIo)
    requires Sound(b, s) && FlightOk(s.disk, f)
    ensures Sound(b, Restart(s, f.worker, f.task, io.restartKill, io.spawn).0)
  {
    var s1 := KillSession(s, f.worker);
    SameRecordsSound(b, s, s1.disk);
    SameRecordsSound(b, s1, PutTask(s1, f.task).disk);
    SpawnSound(b, s1, f.worker, f.task, io.spawn);
  }

  // ----- dispatch -----

  lemma FailTaskSound(b: string, s: State, t: Task, w: string, io: DispatchIo)
    requires Sound(b, s) && t.Branch() == b && t.id in s.disk.tasks && NotEnded(s.disk, t.id)
    requires forall id | id in s.disk.tasks && s.disk.tasks[id].status.InProgress? ::
               s.disk.tasks[id].assignee == w ==> id == t.id
    requires io.failWrite
    ensures Sound(b, FailTask(s, t, w, io))
  {
    PutResting(b, s, t.(status := Failed));
    var s1 := PutTask(s, t.(status := Failed));
    ReleaseSound(b, s1, w, io.release);
    EmitSound(b, Release(s1, w, io.release), TaskFailed, t.id);
  }

  /** The assigned task is held by `w` alone and is not running yet. */
  ghost predicate JustAssigned(s: State, t: Task, w: string) {
    && t.id in s.disk.tasks && s.disk.tasks[t.id] == t && t.status.Assigned? && t.assignee == w && w != ""
    && HeldBy(s.disk, t.id, w) && HoldsNothing(s.disk, w)
    && forall n :: n in s.disk.workers && s.disk.workers[n].active && s.disk.workers[n].current == t.id ==> n == w
  }

  lemma TestBeginSound(b: string, cfg: Config, s: State, t: Task, w: string, io: DispatchIo)
    requires Sound(b, s) && JustAssigned(s, t, w) && io.failWrite && cfg.testMode
    ensures Sound(b, Begin(cfg, s, t, w, io).0)
  {
    var t1 := t.(status := InProgress);
    PutRunning(b, s, t1, w);
    var s1 := PutTask(s, t1);
    FailTaskSound(b, s, t1, w, io);
    FailTaskSound(b, s1, t1, w, io);
    var s2 := PutWorker(s1, Worker(w, true, t.id));
    SameRecordsSound(b, s1, s2.disk);
    EmitSound(b, s2, TaskDispatched, t.id);
  }

  lemma SpawnBeginSound(b: string, cfg: Config, s: State, t: Task, w: string, io: DispatchIo)
    requires Sound(b, s) && JustAssigned(s, t, w) && io.failWrite && !cfg.testMode
    ensures Sound(b, Begin(cfg, s, t, w, io).0)
  {
    var t1 := t.(status := InProgress);
    PutRunning(b, s, t1, w);
    SpawnSound(b, s, w, t, io.spawn);
    SpawnRecords(s, w, t, io.spawn);
    var (s1, ok) := Spawn(s, w, t, io.spawn);
    FailTaskSound(b, s1, if ok then t1 else t, w, io);
    EmitSound(b, s1, TaskDispatched, t.id);
  }

  lemma BeginSound(b: string, cfg: Config, s: State, t: Task, w: string, io: DispatchIo)
    requires Sound(b, s) && JustAssigned(s, t, w) && io.failWrite
    ensures Sound(b, Begin(cfg, s, t, w, io).0)
  {
    if cfg.testMode { TestBeginSound(b, cfg, s, t, w, io); } else { SpawnBeginSound(b, cfg, s, t, w, io); }
  }

  lemma AssignSound(b: string, s: State, id: string, w: string, io: AssignIo)
    requires Sound(b, s) && SingleAssignment(s.disk) && id in s.disk.tasks && s.disk.tasks[id].status.Open?
    requires w in s.disk.workers && !s.disk.workers[w].active
    ensures var (s1, held) := Assign(s, id, w, io);
            Sound(b, s1) && HoldsNothing(s1.disk, w) && (held ==> JustAssigned(s1, s1.disk.tasks[id], w))
  {
    var t := s.disk.tasks[id];
    assert HoldsNothing(s.disk, w);
    var t1 := t.(status := Assigned, assignee := w);
    PutResting(b, s, t1);
    var s1 := PutTask(s, t1);
    assert HoldsNothing(s1.disk, w);
    PutHolding(b, s1, w, id);
    PutResting(b, s1, t);
  }

  lemma EscalateSound(b: string, s: State, t: Task, io: DispatchIo)
    requires Sound(b, s) && t.id != "" && t.Branch() == b && NotEnded(s.disk, t.id)
    ensures Sound(b, Escalate(s, t, io))
  {
    var esc := EscalationTask("escalation-" + t.id, t.Branch());
    if esc.id !in s.disk.tasks { PutResting(b, s, esc); }
    var s1 := CreateTask(s, esc, io.escalationCreated);
    PutResting(b, s1, t.(status := Blocked));
    var s2 := if io.blockWrite && t.id in s1.disk.tasks then PutTask(s1, t.(status := Blocked)) else s1;
    EmitSound(b, s2, EscalationCreated, t.id);
  }

  lemma AllocateSound(b: string, cfg: Config, s: State, io: DispatchIo)
    requires Sound(b, s) && SingleAssignment(s.disk)
    ensures Sound(b, Allocate(cfg, s, io).0) && SingleAssignment(Allocate(cfg, s, io).0.disk)
  {
    AllocateEffect(cfg, s, io);
    var name := WorkerName(|s.disk.workers| + 1);
    if name !in s.disk.workers {
      assert HoldsNothing(s.disk, name);
      PutIdle(b, s, name);
    }
  }

  lemma DispatchSound(b: string, cfg: Config, s: State, t: Task, io: DispatchIo)
    requires Sound(b, s) && SingleAssignment(s.disk) && t.id in s.disk.tasks && s.disk.tasks[t.id] == t
    requires t.status.Open?
    requires io.failWrite && cfg.branch == b
    ensures Sound(b, DispatchTask(cfg, s, t, io).0)
  {
    if t.Role() == ESCALATION {
    } else if t.Role() !in cfg.roles {
      EscalateSound(b, s, t, io);
    } else {
      AllocateSound(b, cfg, s, io);
      AllocateEffect(cfg, s, io);
      var (s1, slot) := Allocate(cfg, s, io);
      if slot.Some? { AllocatedSound(b, cfg, s1, t, slot.value, io); }
    }
  }

  lemma AllocatedSound(b: string, cfg: Config, s: State, t: Task, w: string, io: DispatchIo)
    requires Sound(b, s) && SingleAssignment(s.disk) && t.id in s.disk.tasks && s.disk.tasks[t.id] == t
    requires t.status.Open?
    requires w in s.disk.workers && !s.disk.workers[w].active && io.failWrite && cfg.branch == b
    ensures var (s1, held) := Assign(s, t.id, w, io.assign);
            && (!held ==> Sound(b, Release(s1, w, io.release)))
            && (held ==> Sound(b, FailTask(s1, Stub(cfg, t), w, io)))
            && (held ==> Sound(b, Begin(cfg, s1, s1.disk.tasks[t.id], w, io).0))
  {
    AssignSound(b, s, t.id, w, io.assign);
    var (s1, held) := Assign(s, t.id, w, io.assign);
    ReleaseSound(b, s1, w, io.release);
    if held {
      FailTaskSound(b, s1, Stub(cfg, t), w, io);
      BeginSound(b, cfg, s1, s1.disk.tasks[t.id], w, io);
    }
  }

  // ----- runs -----

  /** Releases succeed, and when a dispatch goes wrong its failure is recorded. Everything else,
      task writes of outcomes included, may fail. */
  predicate Recorded(a: Action) {
    match a
    case Outcome(_, _, io) => io.release.Released?
    case Dispatch(_, io) => io.release.Released? && io.failWrite
    case SessionEnds(_) => true
  }

  ghost predicate Consistent(cfg: Config, s: State) {
    Flights(s) && SingleAssignment(s.disk) && Sound(cfg.branch, s)
  }

  lemma ConsistentStep(cfg: Config, s: State, a: Action)
    requires Consistent(cfg, s) && Enabled(cfg, s, a) && Recorded(a)
    ensures Consistent(cfg, Step(cfg, s, a))
  {
    FlightsStep(cfg, s, a);
    SingleAssignmentStep(cfg, s, a);
    match a
    case SessionEnds(n) => SameRecordsSound(cfg.branch, s, KillSession(s, n).disk);
    case Dispatch(id, io) => DispatchSound(cfg.branch, cfg, s, s.disk.tasks[id], io);
    case Outcome(k, code, io) =>
      var f, s0 := s.inflight[k], Taken(s, k);
      match DetermineOutcome(code) {
        case Success => SuccessSound(cfg.branch, cfg, s0, f, io);
        case Failure => FailureSound(cfg.branch, cfg, s0, f, io);
        case Block => FinalSound(cfg.branch, cfg, s0, f, Blocked, TaskBlocked, io);
        case Handoff => HandoffSound(cfg.branch, cfg, s0, f, io);
      }
  }

  /** Whatever prefix of its writes a run got through, the disk it leaves is recoverable. */
  lemma {:induction false} EveryCutIsRecoverable(cfg: Config, ss: seq<State>, acts: seq<Action>, i: nat)
    requires IsRun(cfg, ss, acts) && Consistent(cfg, ss[0]) && i < |ss|
    requires forall j :: 0 <= j < |acts| ==> Recorded(acts[j])
    ensures Consistent(cfg, ss[i])
    ensures forall c :: c in ss[i].cuts ==> Recoverable(cfg.branch, c)
  {
    if i > 0 {
      EveryCutIsRecoverable(cfg, ss, acts, i - 1);
      ConsistentStep(cfg, ss[i - 1], acts[i - 1]);
    }
  }
}
