// What single writes do to terminal records: inside every step, not only between steps.
module Writes {
  import opened Types
  import opened Ordering
  import opened Machine
  import opened Effects
  import opened Safety

  /** Not filed yet, or not terminal. */
  predicate NotEnded(d: Disk, id: string) { id in d.tasks ==> !d.tasks[id].status.Terminal() }

  /** One record, one session or one event. */
  datatype Change =
    | TaskPut(t: Task) | WorkerPut(w: Worker) | SessionUp(name: string) | SessionDown(name: string) | Logs(e: Event)

  function Apply(d: Disk, c: Change): Disk {
    match c
    case TaskPut(t) => d.(tasks := d.tasks[t.id := t])
    case WorkerPut(w) => d.(workers := d.workers[w.name := w])
    case SessionUp(n) => d.(sessions := d.sessions + {n})
    case SessionDown(n) => d.(sessions := d.sessions - {n})
    case Logs(e) => d.(log := d.log + [e])
  }

  ghost predicate OneWrite(d: Disk, d': Disk) { exists c :: d' == Apply(d, c) }

  /** From `d0`, the disks recorded after the first `n` each add one write, and the last one is `d`. */
  ghost predicate Traced(d0: Disk, n: nat, cuts: seq<Disk>, d: Disk)
    decreases |cuts|
  {
    && n <= |cuts|
    && if |cuts| == n then d == d0 else
         var prev := if |cuts| - 1 == n then d0 else cuts[|cuts| - 2];
         cuts[|cuts| - 1] == d && OneWrite(prev, d) && Traced(d0, n, cuts[..|cuts| - 1], prev)
  }

  lemma TracedSnoc(d0: Disk, n: nat, cuts: seq<Disk>, d: Disk, d': Disk)
    requires Traced(d0, n, cuts, d) && OneWrite(d, d')
    ensures Traced(d0, n, cuts + [d'], d')
  {
    assert (cuts + [d'])[..|cuts|] == cuts;
  }

  lemma {:induction false} TracedTrans(d0: Disk, n: nat, cuts: seq<Disk>, d: Disk, cuts': seq<Disk>, d': Disk)
    requires Traced(d0, n, cuts, d) && Traced(d, |cuts|, cuts', d') && cuts <= cuts'
    ensures Traced(d0, n, cuts', d')
    decreases |cuts'|
  {
    if |cuts'| == |cuts| {
      assert cuts' == cuts;
    } else {
      var init, prev := TracedInit(d, |cuts|, cuts', d');
      TracedTrans(d0, n, cuts, d, init, prev);
      TracedSnoc(d0, n, init, prev, d');
    }
  }

  lemma TracedInit(d0: Disk, n: nat, cuts: seq<Disk>, d: Disk) returns (init: seq<Disk>, prev: Disk)
    requires Traced(d0, n, cuts, d) && n < |cuts|
    ensures cuts == init + [d] && Traced(d0, n, init, prev) && OneWrite(prev, d)
  {
    init := cuts[..|cuts| - 1];
    prev := if |init| == n then d0 else cuts[|cuts| - 2];
  }

  /** No disk since `s0`, the present one included, lost or changed a record that was terminal in `s0`; and every write
      since then is recorded, one at a time. */
  ghost predicate Kept(s0: State, s: State) {
    && Keyed(s.disk) && s0.cuts <= s.cuts && TerminalKept(s0.disk, s.disk)
    && Traced(s0.disk, |s0.cuts|, s.cuts, s.disk)
    && forall i :: |s0.cuts| <= i < |s.cuts| ==> TerminalKept(s0.disk, s.cuts[i])
  }

  lemma KeptWrite(s0: State, s: State, c: Change)
    requires Kept(s0, s) && Keyed(Apply(s.disk, c)) && TerminalKept(s0.disk, Apply(s.disk, c))
    ensures Kept(s0, Write(s, Apply(s.disk, c)))
  {
    TracedSnoc(s0.disk, |s0.cuts|, s.cuts, s.disk, Apply(s.disk, c));
  }

  /** The one kind of task write that is safe: over a record that is not terminal. */
  lemma KeptPut(s0: State, s: State, t: Task)
    requires Kept(s0, s) && NotEnded(s.disk, t.id) && t.id != ""
    ensures Kept(s0, PutTask(s, t))
  {
    KeptWrite(s0, s, TaskPut(t));
  }

  lemma KeptWorker(s0: State, s: State, w: Worker)
    requires Kept(s0, s) && w.name != ""
    ensures Kept(s0, PutWorker(s, w))
  {
    KeptWrite(s0, s, WorkerPut(w));
  }

  lemma KeptEmit(s0: State, s: State, kind: EventKind, id: string)
    requires Kept(s0, s)
    ensures Kept(s0, Emit(s, kind, id))
  {
    KeptWrite(s0, s, Logs(Event(kind, id)));
  }

  lemma KeptKill(s0: State, s: State, w: string)
    requires Kept(s0, s)
    ensures Kept(s0, KillSession(s, w))
  {
    KeptWrite(s0, s, SessionDown(w));
  }

  lemma KeptTrans(s0: State, s1: State, s2: State)
    requires Kept(s0, s1) && Kept(s1, s2)
    ensures Kept(s0, s2)
  {
    TerminalKeptTrans(s0.disk, s1.disk, s2.disk);
    TracedTrans(s0.disk, |s0.cuts|, s1.cuts, s1.disk, s2.cuts, s2.disk);
    forall i | |s0.cuts| <= i < |s2.cuts| ensures TerminalKept(s0.disk, s2.cuts[i]) {
      if i < |s1.cuts| {
        assert s2.cuts[i] == s1.cuts[i];
      } else {
        TerminalKeptTrans(s0.disk, s1.disk, s2.cuts[i]);
      }
    }
  }

  lemma ReleaseKept(s0: State, s: State, w: string, io: ReleaseIo)
    requires Kept(s0, s)
    ensures Kept(s0, Release(s, w, io)) && Release(s, w, io).disk.tasks == s.disk.tasks
  {
    if w in s.disk.workers && !io.NotReached? {
      KeptKill(s0, s, w);
      KeptWorker(s0, KillSession(s, w), Worker(w, false, ""));
    }
  }

  lemma {:induction false} BlockOpenKept(s0: State, s: State, l: seq<Task>, unblocked: set<string>)
    requires Kept(s0, s) && Sorted(l)
    requires forall t :: t in l ==> t.id in s.disk.tasks && s.disk.tasks[t.id] == t
    ensures Kept(s0, BlockOpen(s, l, unblocked))
    decreases |l|
  {
    if l != [] {
      var t := l[0];
      assert t in l;
      var s1 := if t.status.Open? && t.id !in unblocked then PutTask(s, t.(status := Blocked)) else s;
      if t.status.Open? { KeptPut(s0, s, t.(status := Blocked)); }
      forall u | u in l[1..] ensures u.id in s1.disk.tasks && s1.disk.tasks[u.id] == u {
        var i :| 0 <= i < |l[1..]| && l[1..][i] == u;
        assert TaskLess(l[0], l[i + 1]) && l[i + 1] in l;
        TaskLessTotal(t, t);
      }
      BlockOpenKept(s0, s1, l[1..], unblocked);
    }
  }

  lemma AbortKeeps(cfg: Config, s0: State, s: State, reason: string, io: OutcomeIo)
    requires Kept(s0, s)
    ensures Kept(s0, Abort(cfg, s, reason, io))
  {
    var s1 := s.(mem := SetReason(s.mem, reason).(aborted := true));
    var ts := BranchTasks(cfg, s1.disk);
    assert DistinctTasks(ts);
    if io.listed { BlockOpenKept(s0, s1, Listing(ts), io.unblocked); }
  }

  lemma TerminalFailureKeeps(cfg: Config, s0: State, s: State, t: Task, io: OutcomeIo)
    requires Kept(s0, s)
    ensures Kept(s0, TerminalFailure(cfg, s, t, io))
  {
    if t.IsCritical() {
      AbortKeeps(cfg, s0, s, "critical_task_failure:" + t.id, io);
      KeptEmit(s0, Abort(cfg, s, "critical_task_failure:" + t.id, io), EscalationCreated, t.id);
    } else {
      var s1 := s.(mem := s.mem.(gaps := s.mem.gaps + [t.id]));
      KeptEmit(s0, s1, GapRecorded, t.id);
      var s2 := Emit(s1, GapRecorded, t.id);
      AbortKeeps(cfg, s0, s2, "gap_tolerance_exceeded", io);
      KeptEmit(s0, Abort(cfg, s2, "gap_tolerance_exceeded", io), EscalationCreated, t.id);
    }
  }

  lemma TerminateKeeps(s0: State, s: State, f: Flight, status: Status, kind: EventKind, io: OutcomeIo)
    requires Kept(s0, s) && NotEnded(s.disk, f.task.id)
    ensures Kept(s0, Terminate(s, f, status, kind, io).0)
  {
    if io.finalWrite && f.task.id in s.disk.tasks {
      var s1 := PutTask(s, f.task.(status := status));
      KeptPut(s0, s, f.task.(status := status));
      ReleaseKept(s0, s1, f.worker, io.release);
      KeptEmit(s0, Release(s1, f.worker, io.release), kind, f.task.id);
    }
  }

  lemma FinalKeeps(cfg: Config, s0: State, s: State, f: Flight, status: Status, kind: EventKind, io: OutcomeIo)
    requires Kept(s0, s) && NotEnded(s.disk, f.task.id)
    ensures Kept(s0, Final(cfg, s, f, status, kind, io))
  {
    TerminateKeeps(s0, s, f, status, kind, io);
    TerminalFailureKeeps(cfg, s0, Terminate(s, f, status, kind, io).0, f.task, io);
  }

  lemma FailureKeeps(cfg: Config, s0: State, s: State, f: Flight, io: OutcomeIo)
    requires Kept(s0, s) && NotEnded(s.disk, f.task.id)
    ensures Kept(s0, HandleFailure(cfg, s, f, io))
  {
    if Count(s.mem.retries, f.task.id) < cfg.maxRetries && io.retryWrite && f.task.id in s.disk.tasks {
      var s1 := PutTask(s, f.task.(status := Open, assignee := ""));
      KeptPut(s0, s, f.task.(status := Open, assignee := ""));
      var s2 := s1.(mem := s1.mem.(retries := Bump(s1.mem.retries, f.task.id)));
      ReleaseKept(s0, s2, f.worker, io.release);
      KeptEmit(s0, Release(s2, f.worker, io.release), TaskRetried, f.task.id);
    } else {
      FinalKeeps(cfg, s0, s, f, Failed, TaskFailed, io);
    }
  }

  lemma FileKeeps(s0: State, s: State, t: Task, created: bool)
    requires Kept(s0, s) && t.id != ""
    ensures Kept(s0, CreateTask(s, t, created))
  {
    if created && t.id !in s.disk.tasks { KeptPut(s0, s, t); }
  }

  lemma HookKeeps(cfg: Config, s0: State, s: State, t: Task, io: OutcomeIo)
    requires Kept(s0, s)
    ensures Kept(s0, RunHook(cfg, s, t, io))
  {
    match io.hook
    case Silent =>
    case Accepts => KeptEmit(s0, s, GraphValidated, t.id);
    case Rejects(reason, created) =>
      var esc := EscalationTask("escalation-graph-" + t.id, t.Branch());
      assert |esc.id| > 0;
      FileKeeps(s0, s, esc, created);
      var s1 := CreateTask(s, esc, created);
      KeptEmit(s0, s1, GraphInvalid, t.id);
      AbortKeeps(cfg, s0, Emit(s1, GraphInvalid, t.id), reason, io);
  }

  lemma SuccessKeeps(cfg: Config, s0: State, s: State, f: Flight, io: OutcomeIo)
    requires Kept(s0, s) && NotEnded(s.disk, f.task.id)
    ensures Kept(s0, HandleSuccess(cfg, s, f, io))
  {
    TerminateKeeps(s0, s, f, Completed, TaskCompleted, io);
    HookKeeps(cfg, s0, Terminate(s, f, Completed, TaskCompleted, io).0, f.task, io);
  }

  lemma KillIfKeeps(s0: State, s: State, w: string, killed: bool)
    requires Kept(s0, s)
    ensures Kept(s0, KillIf(s, w, killed))
  {
    KeptKill(s0, s, w);
  }

  lemma SpawnKeeps(s0: State, s: State, w: string, t: Task, io: SpawnIo)
    requires Kept(s0, s) && NotEnded(s.disk, t.id)
    ensures Kept(s0, Spawn(s, w, t, io).0)
    ensures NotEnded(Spawn(s, w, t, io).0.disk, t.id)
  {
    if io.NotCreated? {
      KillIfKeeps(s0, s, w, io.killed);
    } else {
      var s1 := StartSession(s, w, t.id);
      assert Kept(s0, s1) by { StartKeeps(s0, s, w, t.id); }
      if io.WorkerUnwritten? || w !in s.disk.workers {
        KillIfKeeps(s0, s1, w, io.SpawnOk? || io.killed);
      } else {
        SpawnWritesKeep(s0, s1, w, t, s.disk.workers[w], io);
      }
    }
  }

  /** The two record writes of a spawn, or the rollback of the first. */
  lemma SpawnWritesKeep(s0: State, s: State, w: string, t: Task, old_: Worker, io: SpawnIo)
    requires Kept(s0, s) && NotEnded(s.disk, t.id) && w != "" && old_.name != "" && (io.SpawnOk? || io.TaskUnwritten?)
    ensures var s1 := PutWorker(s, Worker(w, true, t.id));
            var s2 := KillIf(s1, w, io.SpawnOk? || io.killed);
            && Kept(s0, if io.SpawnOk? || io.restored then PutWorker(s2, old_) else s2)
            && s2.disk.tasks == s.disk.tasks
            && (t.id in s.disk.tasks ==> Kept(s0, PutTask(s1, t.(status := InProgress))))
  {
    var s1 := PutWorker(s, Worker(w, true, t.id));
    KeptWorker(s0, s, Worker(w, true, t.id));
    RollbackKeeps(s0, s1, w, old_, io.SpawnOk? || io.killed, io.SpawnOk? || io.restored);
    if t.id in s.disk.tasks { KeptPut(s0, s1, t.(status := InProgress)); }
  }

  lemma StartKeeps(s0: State, s: State, w: string, id: string)
    requires Kept(s0, s)
    ensures Kept(s0, StartSession(s, w, id))
  {
    KeptWrite(s0, s, SessionUp(w));
  }

  lemma RollbackKeeps(s0: State, s: State, w: string, old_: Worker, killed: bool, restored: bool)
    requires Kept(s0, s) && old_.name != ""
    ensures var s1 := KillIf(s, w, killed);
            Kept(s0, if restored then PutWorker(s1, old_) else s1) && s1.disk.tasks == s.disk.tasks
  {
    KillIfKeeps(s0, s, w, killed);
    KeptWorker(s0, KillIf(s, w, killed), old_);
  }

  lemma RestartKeeps(s0: State, s: State, w: string, t: Task, kill: bool, io: SpawnIo)
    requires Kept(s0, s) && NotEnded(s.disk, t.id)
    ensures Kept(s0, Restart(s, w, t, kill, io).0)
    ensures NotEnded(Restart(s, w, t, kill, io).0.disk, t.id)
  {
    KeptKill(s0, s, w);
    if kill { SpawnKeeps(s0, KillSession(s, w), w, t, io); }
  }

  lemma HandoffKeeps(cfg: Config, s0: State, s: State, f: Flight, io: OutcomeIo)
    requires Kept(s0, s) && NotEnded(s.disk, f.task.id)
    ensures Kept(s0, HandleHandoff(cfg, s, f, io))
  {
    var id := f.task.id;
    if Count(s.mem.handoffs, id) >= cfg.maxHandoffs {
      KeptEmit(s0, s, HandoffLimitReached, id);
      FailureKeeps(cfg, s0, Emit(s, HandoffLimitReached, id), f, io);
    } else {
      var s1 := s.(mem := s.mem.(handoffs := Bump(s.mem.handoffs, id)));
      KeptEmit(s0, s1, TaskHandoff, id);
      RestartKeeps(s0, s1, f.worker, f.task, io.restartKill, io.spawn);
      var s2 := Restart(s1, f.worker, f.task, io.restartKill, io.spawn).0;
      KeptEmit(s0, s2, TaskHandoff, id);
      FailureKeeps(cfg, s0, s2, f, io);
    }
  }

  lemma OutcomeKeeps(cfg: Config, s0: State, s: State, f: Flight, code: int, io: OutcomeIo)
    requires Kept(s0, s) && NotEnded(s.disk, f.task.id)
    ensures Kept(s0, ProcessOutcome(cfg, s, f, code, io))
  {
    match DetermineOutcome(code)
    case Success => SuccessKeeps(cfg, s0, s, f, io);
    case Failure => FailureKeeps(cfg, s0, s, f, io);
    case Block => FinalKeeps(cfg, s0, s, f, Blocked, TaskBlocked, io);
    case Handoff => HandoffKeeps(cfg, s0, s, f, io);
  }

  // ----- dispatch -----

  lemma FailTaskKeeps(s0: State, s: State, t: Task, w: string, io: DispatchIo)
    requires Kept(s0, s) && NotEnded(s.disk, t.id)
    ensures Kept(s0, FailTask(s, t, w, io))
  {
    var s1 := if io.failWrite && t.id in s.disk.tasks then PutTask(s, t.(status := Failed)) else s;
    if t.id in s.disk.tasks { KeptPut(s0, s, t.(status := Failed)); }
    ReleaseKept(s0, s1, w, io.release);
    KeptEmit(s0, Release(s1, w, io.release), TaskFailed, t.id);
  }

  lemma BeginKeeps(cfg: Config, s0: State, s: State, t: Task, w: string, io: DispatchIo)
    requires Kept(s0, s) && NotEnded(s.disk, t.id) && t.id in s.disk.tasks && w != ""
    ensures Kept(s0, Begin(cfg, s, t, w, io).0)
  {
    var t1 := t.(status := InProgress);
    if cfg.testMode {
      FailTaskKeeps(s0, s, t1, w, io);
      var s1 := PutTask(s, t1);
      KeptPut(s0, s, t1);
      FailTaskKeeps(s0, s1, t1, w, io);
      KeptWorker(s0, s1, Worker(w, true, t.id));
      KeptEmit(s0, PutWorker(s1, Worker(w, true, t.id)), TaskDispatched, t.id);
    } else {
      SpawnKeeps(s0, s, w, t, io.spawn);
      var (s1, ok) := Spawn(s, w, t, io.spawn);
      FailTaskKeeps(s0, s1, if ok then t1 else t, w, io);
      KeptEmit(s0, s1, TaskDispatched, t.id);
    }
  }

  lemma AssignKeeps(s0: State, s: State, id: string, w: string, io: AssignIo)
    requires Kept(s0, s) && NotEnded(s.disk, id)
    ensures var (s1, held) := Assign(s, id, w, io);
            Kept(s0, s1) && NotEnded(s1.disk, id) && (held ==> w in s.disk.workers && id in s1.disk.tasks)
  {
    if id in s.disk.tasks && w in s.disk.workers {
      var t := s.disk.tasks[id];
      var t1 := t.(status := Assigned, assignee := w);
      KeptPut(s0, s, t1);
      var s1 := PutTask(s, t1);
      KeptWorker(s0, s1, Worker(w, true, id));
      KeptPut(s0, s1, t);
    }
  }

  lemma EscalateKeeps(s0: State, s: State, t: Task, io: DispatchIo)
    requires Kept(s0, s) && NotEnded(s.disk, t.id) && t.id in s.disk.tasks
    ensures Kept(s0, Escalate(s, t, io))
  {
    var esc := EscalationTask("escalation-" + t.id, t.Branch());
    assert |esc.id| > 0;
    FileKeeps(s0, s, esc, io.escalationCreated);
    var s1 := CreateTask(s, esc, io.escalationCreated);
    KeptPut(s0, s1, t.(status := Blocked));
    var s2 := if io.blockWrite && t.id in s1.disk.tasks then PutTask(s1, t.(status := Blocked)) else s1;
    KeptEmit(s0, s2, EscalationCreated, t.id);
  }

  lemma DispatchKeeps(cfg: Config, s0: State, s: State, t: Task, io: DispatchIo)
    requires Kept(s0, s) && NotEnded(s.disk, t.id) && t.id in s.disk.tasks && s.disk.tasks[t.id] == t
    ensures Kept(s0, DispatchTask(cfg, s, t, io).0)
  {
    if t.Role() == ESCALATION {
    } else if t.Role() !in cfg.roles {
      EscalateKeeps(s0, s, t, io);
    } else {
      AllocateEffect(cfg, s, io);
      var (s1, slot) := Allocate(cfg, s, io);
      if slot.Some? {
        if s1 != s { KeptWorker(s0, s, Worker(slot.value, false, "")); }
        AllocatedKeeps(cfg, s0, s1, t, slot.value, io);
      }
    }
  }

  lemma AllocatedKeeps(cfg: Config, s0: State, s: State, t: Task, w: string, io: DispatchIo)
    requires Kept(s0, s) && NotEnded(s.disk, t.id) && t.id in s.disk.tasks && s.disk.tasks[t.id] == t
    ensures var (s1, held) := Assign(s, t.id, w, io.assign);
            && Kept(s0, Release(s1, w, io.release))
            && Kept(s0, FailTask(s1, Stub(cfg, t), w, io))
            && (held ==> Kept(s0, Begin(cfg, s1, s1.disk.tasks[t.id], w, io).0))
  {
    AssignKeeps(s0, s, t.id, w, io.assign);
    var (s1, held) := Assign(s, t.id, w, io.assign);
    ReleaseKept(s0, s1, w, io.release);
    FailTaskKeeps(s0, s1, Stub(cfg, t), w, io);
    if held { BeginKeeps(cfg, s0, s1, s1.disk.tasks[t.id], w, io); }
  }

  // ----- runs -----

  lemma StepKeeps(cfg: Config, s: State, a: Action)
    requires Flights(s) && Enabled(cfg, s, a)
    ensures Kept(s, Step(cfg, s, a))
  {
    match a
    case SessionEnds(n) => KeptKill(s, s, n);
    case Dispatch(id, io) => DispatchKeeps(cfg, s, s, s.disk.tasks[id], io);
    case Outcome(k, code, io) =>
      assert FlightOk(s.disk, s.inflight[k]);
      OutcomeKeeps(cfg, s, Taken(s, k), s.inflight[k], code, io);
  }

  lemma NextKeeps(cfg: Config, ss: seq<State>, acts: seq<Action>, i: nat)
    requires IsRun(cfg, ss, acts) && Flights(ss[0]) && i < |acts|
    ensures Kept(ss[i], ss[i + 1])
  {
    FlightsAlways(cfg, ss, acts, i);
    StepKeeps(cfg, ss[i], acts[i]);
  }

  /** Each state keeps what was terminal in the one before it. */
  ghost predicate KeptChain(ss: seq<State>) {
    forall i :: 0 <= i < |ss| - 1 ==> Kept(ss[i], ss[i + 1])
  }

  lemma {:induction false} KeptAcross(ss: seq<State>, i: nat, j: nat)
    requires KeptChain(ss) && i <= j < |ss| && Keyed(ss[i].disk)
    ensures Kept(ss[i], ss[j])
    decreases j
  {
    if i < j {
      KeptAcross(ss, i, j - 1);
      assert Kept(ss[j - 1], ss[j - 1 + 1]);
      KeptTrans(ss[i], ss[j - 1], ss[j]);
    }
  }

  /** No single write of any run ever replaces a completed, failed or blocked record, whatever calls fail: each
      disk written after `ss[i]` still has every record that was terminal then. */
  lemma TerminalIrreversible(cfg: Config, ss: seq<State>, acts: seq<Action>, i: nat, j: nat)
    requires IsRun(cfg, ss, acts) && Flights(ss[0]) && i <= j < |ss|
    ensures Kept(ss[i], ss[j])
  {
    forall k | 0 <= k < |ss| - 1 ensures Kept(ss[k], ss[k + 1]) { NextKeeps(cfg, ss, acts, k); }
    FlightsAlways(cfg, ss, acts, i);
    KeptAcross(ss, i, j);
  }

  lemma {:induction false} TracedMeans(d0: Disk, n: nat, cuts: seq<Disk>, d: Disk, i: nat)
    requires Traced(d0, n, cuts, d) && n <= i < |cuts|
    ensures OneWrite(if i == n then d0 else cuts[i - 1], cuts[i])
    decreases |cuts|
  {
    if i < |cuts| - 1 {
      TracedMeans(d0, n, cuts[..|cuts| - 1], if |cuts| - 1 == n then d0 else cuts[|cuts| - 2], i);
    }
  }

  /** A crash can fall between any two writes of a run: the recorded disks go from one state's disk to a later one's by
      one task record, worker record, session or event at a time. */
  lemma EveryWriteIsACut(cfg: Config, ss: seq<State>, acts: seq<Action>, i: nat, j: nat)
    requires IsRun(cfg, ss, acts) && Flights(ss[0]) && i <= j < |ss|
    ensures |ss[i].cuts| <= |ss[j].cuts| && ss[i].cuts == ss[j].cuts[..|ss[i].cuts|]
    ensures ss[j].disk == if |ss[j].cuts| == |ss[i].cuts| then ss[i].disk else ss[j].cuts[|ss[j].cuts| - 1]
    ensures forall c :: |ss[i].cuts| <= c < |ss[j].cuts| ==>
              OneWrite(if c == |ss[i].cuts| then ss[i].disk else ss[j].cuts[c - 1], ss[j].cuts[c])
  {
    TerminalIrreversible(cfg, ss, acts, i, j);
    forall c | |ss[i].cuts| <= c < |ss[j].cuts|
      ensures OneWrite(if c == |ss[i].cuts| then ss[i].disk else ss[j].cuts[c - 1], ss[j].cuts[c])
    {
      TracedMeans(ss[i].disk, |ss[i].cuts|, ss[j].cuts, ss[j].disk, c);
    }
  }
}
