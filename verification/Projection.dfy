// The dispatcher machine and the watchdog's checks are sequences of the atomic calls that `Sessions` interleaves,
// so its session bound holds of them.
module Projection {
  import opened Types
  import opened Machine
  import opened Effects
  import opened Orphans
  import opened Supervision
  import opened Supervised
  import opened Sessions

  function Limit(cfg: Config): Limits { Limits(cfg.maxRetries, cfg.maxHandoffs) }

  /** What the two writers share, with the dispatcher and the watchdog at these points. */
  function ViewAt(s: State, d: DispatcherAt, w: WatchdogAt): Shared {
    Shared(s.disk.tasks, s.mem.retries, s.mem.handoffs, s.started, d, w)
  }

  function View(s: State): Shared { ViewAt(s, Resting, Watching) }

  /** Some sequence of possible calls goes from `a` to `b`. */
  ghost predicate Leads(lim: Limits, a: Shared, b: Shared) {
    exists ss, calls :: Interleaving(lim, ss, calls) && ss[0] == a && ss[|ss| - 1] == b
  }

  lemma LeadsSelf(lim: Limits, a: Shared)
    ensures Leads(lim, a, a)
  {
    assert Interleaving(lim, [a], []);
  }

  lemma LeadsCall(lim: Limits, a: Shared, c: Call)
    requires Possible(lim, a, c)
    ensures Leads(lim, a, Perform(lim, a, c))
  {
    assert Interleaving(lim, [a, Perform(lim, a, c)], [c]);
  }

  lemma LeadsTrans(lim: Limits, a: Shared, b: Shared, c: Shared)
    requires Leads(lim, a, b) && Leads(lim, b, c)
    ensures Leads(lim, a, c)
  {
    var ss, calls :| Interleaving(lim, ss, calls) && ss[0] == a && ss[|ss| - 1] == b;
    var tt, more :| Interleaving(lim, tt, more) && tt[0] == b && tt[|tt| - 1] == c;
    var all, both := ss + tt[1..], calls + more;
    forall i | 0 <= i < |both| ensures Possible(lim, all[i], both[i]) && all[i + 1] == Perform(lim, all[i], both[i]) {
      if i >= |calls| { assert all[i] == tt[i - |calls|] && all[i + 1] == tt[i - |calls| + 1]; }
    }
    assert Interleaving(lim, all, both) && all[0] == a && all[|all| - 1] == c;
  }

  // ----- outcomes -----

  lemma SettleLeads(lim: Limits, s: State, t: Task)
    requires t.id in s.disk.tasks && !t.status.Open?
    ensures Leads(lim, View(s), View(PutTask(s, t)))
  {
    LeadsCall(lim, View(s), Settle(t));
  }

  lemma FileLeads(lim: Limits, s: State, t: Task, created: bool)
    requires t.status.Open?
    ensures Leads(lim, View(s), View(CreateTask(s, t, created)))
  {
    LeadsSelf(lim, View(s));
    if created && t.id !in s.disk.tasks {
      assert t.(status := Open) == t;
      LeadsCall(lim, View(s), File(t));
    }
  }

  lemma ReleaseView(s: State, w: string, io: ReleaseIo)
    ensures View(Release(s, w, io)) == View(s)
  {
  }

  lemma {:induction false} BlockOpenLeads(lim: Limits, s: State, l: seq<Task>, unblocked: set<string>)
    ensures Leads(lim, View(s), View(BlockOpen(s, l, unblocked)))
    decreases |l|
  {
    LeadsSelf(lim, View(s));
    if l != [] {
      var t := l[0];
      var s1 := if t.status.Open? && t.id !in unblocked && t.id in s.disk.tasks
                then PutTask(s, t.(status := Blocked)) else s;
      if t.id in s.disk.tasks { SettleLeads(lim, s, t.(status := Blocked)); }
      BlockOpenLeads(lim, s1, l[1..], unblocked);
      LeadsTrans(lim, View(s), View(s1), View(BlockOpen(s, l, unblocked)));
    }
  }

  lemma AbortLeads(cfg: Config, s: State, reason: string, io: OutcomeIo)
    ensures Leads(Limit(cfg), View(s), View(Abort(cfg, s, reason, io)))
  {
    var s1 := s.(mem := SetReason(s.mem, reason).(aborted := true));
    LeadsSelf(Limit(cfg), View(s1));
    BlockOpenLeads(Limit(cfg), s1, Sort(BranchTasks(cfg, s1.disk)), io.unblocked);
  }

  lemma TerminalFailureLeads(cfg: Config, s: State, t: Task, io: OutcomeIo)
    ensures Leads(Limit(cfg), View(s), View(TerminalFailure(cfg, s, t, io)))
  {
    LeadsSelf(Limit(cfg), View(s));
    AbortLeads(cfg, s, "critical_task_failure:" + t.id, io);
    var s1 := Emit(s.(mem := s.mem.(gaps := s.mem.gaps + [t.id])), GapRecorded, t.id);
    AbortLeads(cfg, s1, "gap_tolerance_exceeded", io);
  }

  lemma TerminateLeads(lim: Limits, s: State, f: Flight, status: Status, kind: EventKind, io: OutcomeIo)
    requires status.Terminal()
    ensures Leads(lim, View(s), View(Terminate(s, f, status, kind, io).0))
  {
    LeadsSelf(lim, View(s));
    if f.task.id in s.disk.tasks {
      SettleLeads(lim, s, f.task.(status := status));
      ReleaseView(PutTask(s, f.task.(status := status)), f.worker, io.release);
    }
  }

  lemma FinalLeads(cfg: Config, s: State, f: Flight, status: Status, kind: EventKind, io: OutcomeIo)
    requires status.Terminal()
    ensures Leads(Limit(cfg), View(s), View(Final(cfg, s, f, status, kind, io)))
  {
    var s1 := Terminate(s, f, status, kind, io).0;
    TerminateLeads(Limit(cfg), s, f, status, kind, io);
    TerminalFailureLeads(cfg, s1, f.task, io);
    LeadsTrans(Limit(cfg), View(s), View(s1), View(TerminalFailure(cfg, s1, f.task, io)));
  }

  /** The retry write, then the recorded attempt. */
  lemma RetryLeads(cfg: Config, s: State, f: Flight, io: OutcomeIo)
    requires Count(s.mem.retries, f.task.id) < cfg.maxRetries && io.retryWrite && f.task.id in s.disk.tasks
    ensures Leads(Limit(cfg), View(s), View(HandleFailure(cfg, s, f, io)))
  {
    var lim, a := Limit(cfg), View(s);
    var b := Perform(lim, a, Reopen(f.task));
    LeadsCall(lim, a, Reopen(f.task));
    LeadsCall(lim, b, RecordAttempt);
    LeadsTrans(lim, a, b, Perform(lim, b, RecordAttempt));
    var s1 := PutTask(s, f.task.(status := Open, assignee := ""));
    ReleaseView(s1.(mem := s1.mem.(retries := Bump(s1.mem.retries, f.task.id))), f.worker, io.release);
  }

  lemma FailureLeads(cfg: Config, s: State, f: Flight, io: OutcomeIo)
    ensures Leads(Limit(cfg), View(s), View(HandleFailure(cfg, s, f, io)))
  {
    if Count(s.mem.retries, f.task.id) < cfg.maxRetries && io.retryWrite && f.task.id in s.disk.tasks {
      RetryLeads(cfg, s, f, io);
    } else {
      FinalLeads(cfg, s, f, Failed, TaskFailed, io);
    }
  }

  lemma HookLeads(cfg: Config, s: State, t: Task, io: OutcomeIo)
    ensures Leads(Limit(cfg), View(s), View(RunHook(cfg, s, t, io)))
  {
    LeadsSelf(Limit(cfg), View(s));
    if io.hook.Rejects? {
      var esc := EscalationTask("escalation-graph-" + t.id, t.Branch());
      var s1 := CreateTask(s, esc, io.hook.created);
      FileLeads(Limit(cfg), s, esc, io.hook.created);
      AbortLeads(cfg, Emit(s1, GraphInvalid, t.id), io.hook.reason, io);
      LeadsTrans(Limit(cfg), View(s), View(s1), View(RunHook(cfg, s, t, io)));
    }
  }

  lemma SuccessLeads(cfg: Config, s: State, f: Flight, io: OutcomeIo)
    ensures Leads(Limit(cfg), View(s), View(HandleSuccess(cfg, s, f, io)))
  {
    var s1 := Terminate(s, f, Completed, TaskCompleted, io).0;
    TerminateLeads(Limit(cfg), s, f, Completed, TaskCompleted, io);
    HookLeads(cfg, s1, f.task, io);
    LeadsTrans(Limit(cfg), View(s), View(s1), View(RunHook(cfg, s1, f.task, io)));
  }

  /** The dispatcher owes a session for `t`. */
  predicate Owes(d: DispatcherAt, t: Task) { d == Spawning(t) || d == Restarting(t) }

  lemma NoSessionLeads(lim: Limits, s: State, d: DispatcherAt, t: Task)
    requires Owes(d, t)
    ensures Leads(lim, ViewAt(s, d, Watching), View(s))
  {
    LeadsCall(lim, ViewAt(s, d, Watching), DispatcherSession(false));
  }

  /** A session is created; then the task record is written, or not. */
  lemma SessionLeads(lim: Limits, s: State, s1: State, d: DispatcherAt, t: Task, written: bool)
    requires Owes(d, t) && (written ==> t.id in s.disk.tasks)
    requires ViewAt(s1, Resting, Watching) == View(s).(started := Bump(s.started, t.id), tasks := s1.disk.tasks)
    requires s1.disk.tasks == if written then s.disk.tasks[t.id := t.(status := InProgress)] else s.disk.tasks
    ensures Leads(lim, ViewAt(s, d, Watching), View(s1))
  {
    var a := ViewAt(s, d, Watching);
    var b := Perform(lim, a, DispatcherSession(true));
    LeadsCall(lim, a, DispatcherSession(true));
    LeadsCall(lim, b, DispatcherInProgress(written));
    LeadsTrans(lim, a, b, View(s1));
  }

  /** What Spawn does to the shared state: one session at most, and the task record last. */
  lemma SpawnView(s: State, w: string, t: Task, io: SpawnIo)
    ensures var (s1, ok) := Spawn(s, w, t, io);
            && s1.mem == s.mem && (ok ==> t.id in s.disk.tasks)
            && s1.disk.tasks == (if ok then s.disk.tasks[t.id := t.(status := InProgress)] else s.disk.tasks)
            && s1.started == (if io.NotCreated? then s.started else Bump(s.started, t.id))
            && (io.NotCreated? ==> !ok)
  {
  }

  lemma SpawnLeads(lim: Limits, s: State, d: DispatcherAt, w: string, t: Task, io: SpawnIo)
    requires Owes(d, t)
    ensures Leads(lim, ViewAt(s, d, Watching), View(Spawn(s, w, t, io).0))
  {
    SpawnView(s, w, t, io);
    var (s1, ok) := Spawn(s, w, t, io);
    if io.NotCreated? {
      NoSessionLeads(lim, s, d, t);
      assert View(s1) == View(s);
    } else {
      SessionLeads(lim, s, s1, d, t, ok);
    }
  }

  lemma RestartLeads(lim: Limits, s: State, d: DispatcherAt, w: string, t: Task, kill: bool, io: SpawnIo)
    requires Owes(d, t)
    ensures Leads(lim, ViewAt(s, d, Watching), View(Restart(s, w, t, kill, io).0))
  {
    if kill {
      assert ViewAt(KillSession(s, w), d, Watching) == ViewAt(s, d, Watching);
      SpawnLeads(lim, KillSession(s, w), d, w, t, io);
    } else {
      NoSessionLeads(lim, s, d, t);
    }
  }

  lemma HandoffLeads(cfg: Config, s: State, f: Flight, io: OutcomeIo)
    ensures Leads(Limit(cfg), View(s), View(HandleHandoff(cfg, s, f, io)))
  {
    var lim, id := Limit(cfg), f.task.id;
    if Count(s.mem.handoffs, id) >= cfg.maxHandoffs {
      FailureLeads(cfg, Emit(s, HandoffLimitReached, id), f, io);
    } else {
      var s1 := s.(mem := s.mem.(handoffs := Bump(s.mem.handoffs, id)));
      var a := ViewAt(s1, Restarting(f.task), Watching);
      LeadsCall(lim, View(s), DispatcherTryRecord(f.task));
      if cfg.testMode {
        NoSessionLeads(lim, s1, Restarting(f.task), f.task);
        LeadsTrans(lim, View(s), a, View(s1));
      } else {
        var (s2, ok) := Restart(s1, f.worker, f.task, io.restartKill, io.spawn);
        RestartLeads(lim, s1, Restarting(f.task), f.worker, f.task, io.restartKill, io.spawn);
        LeadsTrans(lim, View(s), a, View(s2));
        if !ok {
          FailureLeads(cfg, s2, f, io);
          LeadsTrans(lim, View(s), View(s2), View(HandleFailure(cfg, s2, f, io)));
        }
      }
    }
  }

  lemma OutcomeLeads(cfg: Config, s: State, f: Flight, code: int, io: OutcomeIo)
    ensures Leads(Limit(cfg), View(s), View(ProcessOutcome(cfg, s, f, code, io)))
  {
    match DetermineOutcome(code)
    case Success => SuccessLeads(cfg, s, f, io);
    case Failure => FailureLeads(cfg, s, f, io);
    case Block => FinalLeads(cfg, s, f, Blocked, TaskBlocked, io);
    case Handoff => HandoffLeads(cfg, s, f, io);
  }

  // ----- dispatch -----

  lemma FailTaskLeads(lim: Limits, s: State, t: Task, w: string, io: DispatchIo)
    ensures Leads(lim, View(s), View(FailTask(s, t, w, io)))
  {
    var s1 := if io.failWrite && t.id in s.disk.tasks then PutTask(s, t.(status := Failed)) else s;
    LeadsSelf(lim, View(s));
    if t.id in s.disk.tasks { SettleLeads(lim, s, t.(status := Failed)); }
    ReleaseView(s1, w, io.release);
  }

  lemma EscalateLeads(lim: Limits, s: State, t: Task, io: DispatchIo)
    ensures Leads(lim, View(s), View(Escalate(s, t, io)))
  {
    var esc := EscalationTask("escalation-" + t.id, t.Branch());
    var s1 := CreateTask(s, esc, io.escalationCreated);
    FileLeads(lim, s, esc, io.escalationCreated);
    if io.blockWrite && t.id in s1.disk.tasks {
      SettleLeads(lim, s1, t.(status := Blocked));
      LeadsTrans(lim, View(s), View(s1), View(PutTask(s1, t.(status := Blocked))));
    }
  }

  /** An assignment that holds leaves the dispatcher owing a session; a rolled back one leaves nothing. */
  lemma AssignLeads(lim: Limits, s: State, id: string, w: string, io: AssignIo)
    requires Keyed(s.disk)
    ensures var (s1, held) := Assign(s, id, w, io);
            if held then id in s1.disk.tasks && Leads(lim, View(s), ViewAt(s1, Spawning(s1.disk.tasks[id]), Watching))
            else Leads(lim, View(s), View(s1))
  {
    LeadsSelf(lim, View(s));
    var (s1, held) := Assign(s, id, w, io);
    if held {
      LeadsCall(lim, View(s), AssignTo(id, w));
    } else if s1 != s {
      if io.rolledBack {
        assert s1.disk.tasks == s.disk.tasks;
      } else {
        LeadsCall(lim, View(s), AssignLost(id, w));
      }
    }
  }

  lemma BeginLeads(cfg: Config, s: State, t: Task, w: string, io: DispatchIo)
    requires t.id in s.disk.tasks
    ensures Leads(Limit(cfg), ViewAt(s, Spawning(t), Watching), View(Begin(cfg, s, t, w, io).0))
  {
    var lim, a, t1 := Limit(cfg), ViewAt(s, Spawning(t), Watching), t.(status := InProgress);
    if cfg.testMode {
      NoSessionLeads(lim, s, Spawning(t), t);
      var s1 := if io.startWrite then PutTask(s, t1) else s;
      SettleLeads(lim, s, t1);
      LeadsSelf(lim, View(s));
      LeadsTrans(lim, a, View(s), View(s1));
      FailTaskLeads(lim, s1, t1, w, io);
      LeadsTrans(lim, a, View(s1), View(FailTask(s1, t1, w, io)));
    } else {
      SpawnLeads(lim, s, Spawning(t), w, t, io.spawn);
      var (s1, ok) := Spawn(s, w, t, io.spawn);
      var t' := if ok then t1 else t;
      FailTaskLeads(lim, s1, t', w, io);
      LeadsTrans(lim, a, View(s1), View(FailTask(s1, t', w, io)));
    }
  }

  lemma AllocatedLeads(cfg: Config, s: State, t: Task, w: string, io: DispatchIo)
    requires Keyed(s.disk)
    ensures var (s1, held) := Assign(s, t.id, w, io.assign);
            && (!held ==> Leads(Limit(cfg), View(s), View(Release(s1, w, io.release))))
            && (held ==>
                  && Leads(Limit(cfg), View(s), View(FailTask(s1, Stub(cfg, t), w, io)))
                  && t.id in s1.disk.tasks
                  && Leads(Limit(cfg), View(s), View(Begin(cfg, s1, s1.disk.tasks[t.id], w, io).0)))
  {
    var lim := Limit(cfg);
    AssignLeads(lim, s, t.id, w, io.assign);
    var (s1, held) := Assign(s, t.id, w, io.assign);
    ReleaseView(s1, w, io.release);
    if held {
      var t1 := s1.disk.tasks[t.id];
      var a := ViewAt(s1, Spawning(t1), Watching);
      NoSessionLeads(lim, s1, Spawning(t1), t1);
      LeadsTrans(lim, View(s), a, View(s1));
      FailTaskLeads(lim, s1, Stub(cfg, t), w, io);
      LeadsTrans(lim, View(s), View(s1), View(FailTask(s1, Stub(cfg, t), w, io)));
      BeginLeads(cfg, s1, t1, w, io);
      LeadsTrans(lim, View(s), a, View(Begin(cfg, s1, t1, w, io).0));
    }
  }

  lemma DispatchLeads(cfg: Config, s: State, t: Task, io: DispatchIo)
    requires Keyed(s.disk)
    ensures Leads(Limit(cfg), View(s), View(DispatchTask(cfg, s, t, io).0))
  {
    LeadsSelf(Limit(cfg), View(s));
    if t.Role() == ESCALATION {
    } else if t.Role() !in cfg.roles {
      EscalateLeads(Limit(cfg), s, t, io);
    } else {
      AllocateEffect(cfg, s, io);
      var (s1, slot) := Allocate(cfg, s, io);
      if slot.Some? {
        assert View(s1) == View(s);
        AllocatedLeads(cfg, s1, t, slot.value, io);
      }
    }
  }

  /** Every step of the dispatcher is a sequence of its calls. */
  lemma StepLeads(cfg: Config, s: State, a: Action)
    requires Keyed(s.disk) && Enabled(cfg, s, a)
    ensures Leads(Limit(cfg), View(s), View(Step(cfg, s, a)))
  {
    match a
    case SessionEnds(n) => LeadsSelf(Limit(cfg), View(s));
    case Dispatch(id, io) => DispatchLeads(cfg, s, s.disk.tasks[id], io);
    case Outcome(k, code, io) => OutcomeLeads(cfg, Taken(s, k), s.inflight[k], code, io);
  }

  // ----- the watchdog -----

  lemma WatchdogSessionLeads(lim: Limits, s: State, s1: State, t: Task, created: bool, written: bool)
    requires (written ==> created && t.id in s.disk.tasks) && s1.mem == s.mem
    requires s1.started == if created then Bump(s.started, t.id) else s.started
    requires s1.disk.tasks == if written then s.disk.tasks[t.id := t.(status := InProgress)] else s.disk.tasks
    ensures Leads(lim, ViewAt(s, Resting, Reviving(t)), View(s1))
  {
    var a := ViewAt(s, Resting, Reviving(t));
    var b := Perform(lim, a, WatchdogSession(created));
    LeadsCall(lim, a, WatchdogSession(created));
    if created {
      LeadsCall(lim, b, WatchdogInProgress(written));
      LeadsTrans(lim, a, b, View(s1));
    }
  }

  lemma RestartView(s: State, w: string, t: Task, kill: bool, io: SpawnIo)
    ensures var (s1, ok) := Restart(s, w, t, kill, io);
            && s1.mem == s.mem && (ok ==> kill && !io.NotCreated? && t.id in s.disk.tasks)
            && s1.disk.tasks == (if ok then s.disk.tasks[t.id := t.(status := InProgress)] else s.disk.tasks)
            && s1.started == if kill && !io.NotCreated? then Bump(s.started, t.id) else s.started
  {
    if kill { SpawnView(KillSession(s, w), w, t, io); }
  }

  /** Every check of one worker is a sequence of the watchdog's calls. */
  lemma CheckWorkerLeads(cfg: Config, window: int, v: Watch, w: Worker, io: WatchIo)
    requires Keyed(v.s.disk)
    ensures Leads(Limit(cfg), View(v.s), View(CheckWorker(cfg, window, v, w, io).s))
  {
    var lim, s := Limit(cfg), v.s;
    LeadsSelf(lim, View(s));
    if io.probed && io.read && SessionLost(cfg, s.disk, w) {
      var t := s.disk.tasks[w.current];
      var a := ViewAt(s, Resting, Seen(t));
      LeadsCall(lim, View(s), WatchdogRead(w.current));
      LeadsCall(lim, a, WatchdogTryRecord);
      if Count(s.mem.handoffs, t.id) >= cfg.maxHandoffs {
        LeadsTrans(lim, View(s), a, View(s));
      } else {
        var s1 := Emit(s.(mem := s.mem.(handoffs := Bump(s.mem.handoffs, t.id))), TaskHandoff, t.id);
        var b := ViewAt(s1, Resting, Reviving(t));
        LeadsTrans(lim, View(s), a, b);
        RestartView(s1, w.name, t, io.kill, io.spawn);
        var (s2, ok) := Restart(s1, w.name, t, io.kill, io.spawn);
        WatchdogSessionLeads(lim, s1, s2, t, io.kill && !io.spawn.NotCreated?, ok);
        LeadsTrans(lim, View(s), b, View(s2));
      }
    }
  }

  lemma {:induction false} CheckAllLeads(cfg: Config, window: int, v: Watch, l: seq<Worker>, io: string -> WatchIo)
    requires Keyed(v.s.disk)
    ensures Leads(Limit(cfg), View(v.s), View(CheckAll(cfg, window, v, l, io).s))
    decreases |l|
  {
    LeadsSelf(Limit(cfg), View(v.s));
    if l != [] {
      var v1 := CheckWorker(cfg, window, v, l[0], io(l[0].name));
      CheckWorkerUnsettled(cfg, window, v, l[0], io(l[0].name));
      CheckWorkerLeads(cfg, window, v, l[0], io(l[0].name));
      CheckAllLeads(cfg, window, v1, l[1..], io);
      LeadsTrans(Limit(cfg), View(v.s), View(v1.s), View(CheckAll(cfg, window, v1, l[1..], io).s));
    }
  }

  lemma FailOrphanLeads(cfg: Config, s: State, id: string, w: string, io: OutcomeIo)
    ensures Leads(Limit(cfg), View(s), View(FailOrphan(cfg, s, id, w, io).0))
  {
    LeadsSelf(Limit(cfg), View(s));
    if id in s.disk.tasks && !s.disk.tasks[id].status.Terminal() {
      FinalLeads(cfg, s, Flight(s.disk.tasks[id], w), Failed, TaskFailed, io);
    }
  }

  lemma {:induction false} FailStuckLeads(cfg: Config, s: State, stuck: seq<Stuck>, io: string -> OutcomeIo)
    ensures Leads(Limit(cfg), View(s), View(FailStuck(cfg, s, stuck, io).0))
    decreases |stuck|
  {
    LeadsSelf(Limit(cfg), View(s));
    if stuck != [] {
      var s1 := FailOrphan(cfg, s, stuck[0].task, stuck[0].worker, io(stuck[0].task)).0;
      FailOrphanLeads(cfg, s, stuck[0].task, stuck[0].worker, io(stuck[0].task));
      FailStuckLeads(cfg, s1, stuck[1..], io);
      LeadsTrans(Limit(cfg), View(s), View(s1), View(FailStuck(cfg, s1, stuck[1..], io).0));
    }
  }

  lemma {:induction false} OrphanCheckLeads(cfg: Config, s: State, l: seq<Worker>, io: string -> OutcomeIo)
    ensures Leads(Limit(cfg), View(s), View(OrphanCheck(cfg, s, l, io).0))
    decreases |l|
  {
    LeadsSelf(Limit(cfg), View(s));
    if l != [] {
      if !l[0].active || l[0].current == "" {
        OrphanCheckLeads(cfg, s, l[1..], io);
      } else {
        var s1 := FailOrphan(cfg, s, l[0].current, l[0].name, io(l[0].current)).0;
        FailOrphanLeads(cfg, s, l[0].current, l[0].name, io(l[0].current));
        OrphanCheckLeads(cfg, s1, l[1..], io);
        LeadsTrans(Limit(cfg), View(s), View(s1), View(OrphanCheck(cfg, s1, l[1..], io).0));
      }
    }
  }

  // ----- supervised runs -----

  lemma TurnLeads(cfg: Config, v: Watch, turn: Turn)
    requires Keyed(v.s.disk) && CanTake(cfg, v, turn)
    ensures Leads(Limit(cfg), View(v.s), View(Take(cfg, v, turn).s))
  {
    match turn
    case Acts(a) => StepLeads(cfg, v.s, a);
    case Checks(window, io) => CheckAllLeads(cfg, window, v, Roster(v.s.disk), io);
    case FailsStuck(io) => FailStuckLeads(cfg, v.s, v.stuck, io);
    case ChecksOrphans(io) => OrphanCheckLeads(cfg, v.s, Roster(v.s.disk), io);
  }

  lemma LeadsKeepsBudget(lim: Limits, a: Shared, b: Shared, id: string)
    requires Leads(lim, a, b) && WithinBudget(lim, a, id)
    ensures WithinBudget(lim, b, id)
  {
    var ss, calls :| Interleaving(lim, ss, calls) && ss[0] == a && ss[|ss| - 1] == b;
    BudgetAlways(lim, ss, calls, |ss| - 1, id);
  }

  lemma NextWithinBudget(cfg: Config, vs: seq<Watch>, turns: seq<Turn>, i: nat, id: string)
    requires IsSupervisedRun(cfg, vs, turns) && i < |turns|
    requires Keyed(vs[i].s.disk) && WithinBudget(Limit(cfg), View(vs[i].s), id)
    ensures Keyed(vs[i + 1].s.disk) && WithinBudget(Limit(cfg), View(vs[i + 1].s), id)
  {
    TurnLeads(cfg, vs[i], turns[i]);
    LeadsKeepsBudget(Limit(cfg), View(vs[i].s), View(vs[i + 1].s), id);
    TurnKeyed(cfg, vs[i], turns[i]);
  }

  lemma {:induction false} BudgetOverTurns(cfg: Config, vs: seq<Watch>, turns: seq<Turn>, i: nat, id: string)
    requires IsSupervisedRun(cfg, vs, turns) && i < |vs| && Keyed(vs[0].s.disk)
    requires WithinBudget(Limit(cfg), View(vs[0].s), id)
    ensures Keyed(vs[i].s.disk) && WithinBudget(Limit(cfg), View(vs[i].s), id)
  {
    if i > 0 {
      BudgetOverTurns(cfg, vs, turns, i - 1, id);
      NextWithinBudget(cfg, vs, turns, i - 1, id);
    }
  }

  /** Over every run of dispatcher steps, watchdog checks and orphan handling that starts with fresh counters, late
      outcomes and failed calls included, a task gets at most 1 + MaxRetries + MaxHandoffs sessions. */
  lemma SessionsOfARun(cfg: Config, vs: seq<Watch>, turns: seq<Turn>, i: nat, id: string)
    requires IsSupervisedRun(cfg, vs, turns) && i < |vs| && Keyed(vs[0].s.disk) && FreshRun(View(vs[0].s))
    ensures Count(vs[i].s.started, id) <= 1 + Cap(cfg.maxRetries) + Cap(cfg.maxHandoffs)
  {
    BudgetOverTurns(cfg, vs, turns, i, id);
  }
}
