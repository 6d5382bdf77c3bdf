// The dispatcher object (orch/dispatch.go, orch/session.go): step by step it does what the machine says.
module Dispatcher {
  import opened Types
  import opened Ordering
  import opened Machine
  import opened Effects
  import opened Safety
  import opened Ticks
  import opened Recovery
  import opened Persistence
  import opened Orphans
  import Outcomes
  import opened Supervision
  import Breaker

  class Dispatcher {
    const cfg: Config
    const store: World
    const gaps: GapTracker
    const retries: RetryState
    const handoffs: HandoffState
    var aborted: bool
    var abortReason: string
    /** Launched agents whose outcome has not been processed, by launch number. */
    var inflight: map<nat, Flight>
    var next: nat
    /** The outcomes channel. */
    var outcomes: seq<Report>

    constructor (cfg: Config, store: World, gaps: GapTracker, retries: RetryState, handoffs: HandoffState)
      requires gaps.Valid() && gaps.tolerance == cfg.tolerance && handoffs.maxLimit == cfg.maxHandoffs
      ensures this.cfg == cfg && this.store == store && this.gaps == gaps && this.retries == retries
      ensures this.handoffs == handoffs
      ensures Valid()
      ensures S() == State(store.D(), Memory(false, "", gaps.taskIds, retries.attempts, handoffs.counts), map[], 0,
                                       store.cuts, store.started)
    {
      this.cfg, this.store, this.gaps, this.retries, this.handoffs := cfg, store, gaps, retries, handoffs;
      aborted, abortReason, inflight, next, outcomes := false, "", map[], 0, [];
    }

    ghost predicate Valid() reads this, gaps {
      gaps.Valid() && gaps.tolerance == cfg.tolerance && handoffs.maxLimit == cfg.maxHandoffs
    }

    /** The machine state this object stands for. */
    ghost function S(): State reads this, store, gaps, retries, handoffs {
      State(store.D(), Memory(aborted, abortReason, gaps.taskIds, retries.attempts, handoffs.counts), inflight, next,
            store.cuts, store.started)
    }

    method Emit(kind: EventKind, id: string)
      modifies store
      ensures S() == Machine.Emit(old(S()), kind, id)
    {
      store.Emit(kind, id);
    }

    // ----- worker pool -----

    method Allocate(io: DispatchIo) returns (w: Option<string>)
      modifies store
      ensures (S(), w) == Machine.Allocate(cfg, old(S()), io)
    {
      if !io.workersListed { return None; }
      w := store.FirstIdle();
      if w.Some? { return; }
      if |store.workers| >= cfg.maxWorkers { return None; }
      var name := WorkerName(|store.workers| + 1);
      var ok := store.CreateWorker(Worker(name, false, ""), io.workerCreated);
      return if ok then Some(name) else None;
    }

    method Release(w: string, io: ReleaseIo)
      modifies store
      ensures S() == Machine.Release(old(S()), w, io)
    {
      if w !in store.workers || io.NotReached? { return; }
      store.KillSession(w);
      if io.KilledOnly? { return; }
      var ok := store.UpdateWorker(Worker(w, false, ""), true);
    }

    // ----- abort -----

    method SetAbortReason(reason: string)
      modifies this`abortReason
      ensures S() == old(S()).(mem := SetReason(old(S()).mem, reason))
    {
      if reason != "" && abortReason == "" { abortReason := reason; }
    }

    method AbortCleanup(io: OutcomeIo)
      requires Keyed(store.D())
      modifies store
      ensures S() == Machine.AbortCleanup(cfg, old(S()), io)
    {
      if !io.listed { return; }
      var l := store.ListTasks(cfg.branch);
      ghost var ts := BranchTasks(cfg, store.D());
      assert DistinctTasks(ts);
      ListingUnique(l, Listing(ts), ts);
      for i := 0 to |l|
        invariant BlockOpen(S(), l[i..], io.unblocked) == BlockOpen(old(S()), l, io.unblocked)
      {
        assert l[i..][0] == l[i] && l[i..][1..] == l[i + 1..];
        if l[i].status == Open {
          var ok := store.UpdateTask(l[i].(status := Blocked), l[i].id !in io.unblocked);
        }
      }
    }

    method AbortLifecycle(reason: string, io: OutcomeIo)
      requires Keyed(store.D())
      modifies this`abortReason, this`aborted, store
      ensures S() == Machine.Abort(cfg, old(S()), reason, io)
    {
      SetAbortReason(reason);
      aborted := true;
      AbortCleanup(io);
    }

    // ----- outcomes -----

    method HandleTerminalFailure(t: Task, io: OutcomeIo)
      requires Valid() && Keyed(store.D())
      modifies this`abortReason, this`aborted, store, gaps
      ensures Valid() && S() == Machine.TerminalFailure(cfg, old(S()), t, io)
      ensures Outcomes.Judged(cfg, old(S()), S(), t, io)
    {
      Outcomes.TerminalFailureMeans(cfg, S(), t, io);
      if t.IsCritical() {
        AbortLifecycle("critical_task_failure:" + t.id, io);
        Emit(EscalationCreated, t.id);
        return;
      }
      var abort := gaps.IncrementAndCheck(t.id);
      Emit(GapRecorded, t.id);
      if abort {
        AbortLifecycle("gap_tolerance_exceeded", io);
        Emit(EscalationCreated, t.id);
      }
    }

    method TerminateAndRelease(f: Flight, status: Status, kind: EventKind, io: OutcomeIo) returns (persisted: bool)
      modifies store
      ensures (S(), persisted) == Machine.Terminate(old(S()), f, status, kind, io)
    {
      persisted := store.UpdateTask(f.task.(status := status), io.finalWrite);
      if !persisted { return; }
      Release(f.worker, io.release);
      Emit(kind, f.task.id);
    }

    method Fail(f: Flight, status: Status, kind: EventKind, io: OutcomeIo)
      requires Valid() && Keyed(store.D()) && FlightOk(store.D(), f) && status.Terminal()
      modifies this`abortReason, this`aborted, store, gaps
      ensures Valid() && S() == Machine.Final(cfg, old(S()), f, status, kind, io)
    {
      TerminateEffect(cfg, S(), f, status, kind, io);
      var persisted := TerminateAndRelease(f, status, kind, io);
      if persisted { HandleTerminalFailure(f.task, io); }
    }

    method HandleSuccess(f: Flight, io: OutcomeIo)
      requires Valid() && Keyed(store.D()) && FlightOk(store.D(), f)
      modifies this`abortReason, this`aborted, store
      ensures Valid() && S() == Machine.HandleSuccess(cfg, old(S()), f, io)
    {
      TerminateEffect(cfg, S(), f, Completed, TaskCompleted, io);
      var persisted := TerminateAndRelease(f, Completed, TaskCompleted, io);
      if persisted { PostSuccessHook(f.task, io); }
    }

    /** The engine's hook: validate the planned graph, and on rejection file an escalation and abort. */
    method PostSuccessHook(t: Task, io: OutcomeIo)
      requires Keyed(store.D())
      modifies this`abortReason, this`aborted, store
      ensures S() == Machine.RunHook(cfg, old(S()), t, io)
    {
      match io.hook
      case Silent =>
      case Accepts => Emit(GraphValidated, t.id);
      case Rejects(reason, created) =>
        var esc := EscalationTask("escalation-graph-" + t.id, t.Branch());
        assert |esc.id| > 0;
        var ok := store.CreateTask(esc, created);
        Emit(GraphInvalid, t.id);
        AbortLifecycle(reason, io);
    }

    method HandleFailure(f: Flight, io: OutcomeIo)
      requires Valid() && Keyed(store.D()) && FlightOk(store.D(), f)
      modifies this`abortReason, this`aborted, store, gaps, retries
      ensures Valid() && S() == Machine.HandleFailure(cfg, old(S()), f, io)
    {
      var retry := retries.CanRetry(f.task.id, cfg.maxRetries);
      if retry {
        var ok := store.UpdateTask(f.task.(status := Open, assignee := ""), io.retryWrite);
        if ok {
          retries.RecordAttempt(f.task.id);
          Release(f.worker, io.release);
          Emit(TaskRetried, f.task.id);
          return;
        }
      }
      Fail(f, Failed, TaskFailed, io);
    }

    method HandleHandoff(f: Flight, io: OutcomeIo)
      requires Valid() && Keyed(store.D()) && FlightOk(store.D(), f)
      modifies this, store, gaps, retries, handoffs
      ensures Valid() && S() == Machine.HandleHandoff(cfg, old(S()), f, io) && outcomes == old(outcomes)
    {
      var count, ok := handoffs.TryRecord(f.task.id);
      if ok {
        if !cfg.testMode {
          RestartEffect(S(), f, io);
          var restarted := store.RestartSession(S(), f.worker, f.task, io.restartKill, io.spawn);
          if !restarted {
            HandleFailure(f, io);
            return;
          }
        }
        Emit(TaskHandoff, f.task.id);
        if cfg.testMode { inflight, next := inflight[next := f], next + 1; }
        return;
      }
      Emit(HandoffLimitReached, f.task.id);
      HandleFailure(f, io);
    }

    method ProcessOutcome(f: Flight, exitCode: int, io: OutcomeIo)
      requires Valid() && Keyed(store.D()) && FlightOk(store.D(), f)
      modifies this, store, gaps, retries, handoffs
      ensures Valid() && S() == Machine.ProcessOutcome(cfg, old(S()), f, exitCode, io) && outcomes == old(outcomes)
      ensures Outcomes.ExitLaw(cfg, old(S()), f, exitCode, S(), io)
    {
      Outcomes.ExitCodesMean(cfg, S(), f, exitCode, io);
      match DetermineOutcome(exitCode)
      case Success => HandleSuccess(f, io);
      case Failure => HandleFailure(f, io);
      case Block => Fail(f, Blocked, TaskBlocked, io);
      case Handoff => HandleHandoff(f, io);
    }

    /** Processes everything on the channel. */
    method Drain()
      requires Valid() && Flights(S())
      modifies this, store, gaps, retries, handoffs
      ensures Valid() && Flights(S()) && outcomes == []
      ensures S() == Ticks.Drain(cfg, old(S()), old(outcomes))
    {
      while outcomes != []
        invariant Valid() && Flights(S())
        invariant Ticks.Drain(cfg, S(), outcomes) == Ticks.Drain(cfg, old(S()), old(outcomes))
        decreases |outcomes|
      {
        var o := outcomes[0];
        outcomes := outcomes[1..];
        if o.ticket in inflight {
          FlightsAfterOutcome(cfg, S(), o.ticket, o.exitCode, o.io);
          var f := inflight[o.ticket];
          inflight := inflight - {o.ticket};
          ProcessOutcome(f, o.exitCode, o.io);
        }
      }
    }

    // ----- orphans, when a watchdog is attached -----

    method FailOrphanedTask(id: string, w: string, io: OutcomeIo) returns (persisted: bool)
      requires Valid() && Keyed(store.D())
      modifies this`abortReason, this`aborted, store, gaps
      ensures Valid() && Keyed(store.D())
      ensures (S(), persisted) == FailOrphan(cfg, old(S()), id, w, io)
    {
      if id !in store.tasks { return false; }
      var t := store.tasks[id];
      if t.status.Terminal() { return false; }
      ghost var s := S();
      persisted := TerminateAndRelease(Flight(t, w), Failed, TaskFailed, io);
      if persisted {
        TerminateTouches(s, Flight(t, w), Failed, TaskFailed, io);
        TerminalFailureFrame(cfg, S(), t, io);
        HandleTerminalFailure(t, io);
      }
    }

    method FailStuckTasks(watchdog: Watchdog, io: string -> OutcomeIo) returns (failed: nat)
      requires Valid() && Keyed(store.D())
      modifies this`abortReason, this`aborted, store, gaps, watchdog
      ensures Valid() && Keyed(store.D()) && watchdog.stuckTasks == []
      ensures (S(), failed) == FailStuck(cfg, old(S()), old(watchdog.stuckTasks), io)
    {
      var stuck := watchdog.DrainStuckTasks();
      failed := 0;
      ghost var want := FailStuck(cfg, S(), stuck, io);
      assert stuck[0..] == stuck;
      for i := 0 to |stuck|
        invariant Valid() && Keyed(store.D()) && watchdog.stuckTasks == []
        invariant var rest := FailStuck(cfg, S(), stuck[i..], io);
                  want.0 == rest.0 && want.1 == failed + rest.1
      {
        FailStuckNext(cfg, S(), stuck, i, io);
        var ok := FailOrphanedTask(stuck[i].task, stuck[i].worker, io(stuck[i].task));
        if ok { failed := failed + 1; }
      }
    }

    /** While the breaker is tripped, fails one task and resets it. */
    method OrphanCk(breaker: Breaker.CircuitBreaker, listed: bool, io: string -> OutcomeIo) returns (failed: nat)
      requires Valid() && Keyed(store.D()) && breaker.Valid()
      modifies this`abortReason, this`aborted, store, gaps, breaker
      ensures Valid() && Keyed(store.D()) && breaker.Valid()
      ensures if old(breaker.tripped) && listed
              then (S(), failed == 1) == OrphanCheck(cfg, old(S()), Roster(old(store.D())), io) && failed <= 1
              else S() == old(S()) && failed == 0
      ensures if failed == 1 then !breaker.tripped && breaker.history == [] else unchanged(breaker)
    {
      failed := 0;
      if !breaker.tripped || !listed { return; }
      var l := store.ListWorkers();
      for i := 0 to |l|
        invariant Valid() && Keyed(store.D()) && failed == 0 && unchanged(breaker)
        invariant OrphanCheck(cfg, S(), l[i..], io) == OrphanCheck(cfg, old(S()), l, io)
      {
        assert l[i..][0] == l[i] && l[i..][1..] == l[i + 1..];
        if l[i].active && l[i].current != "" {
          var ok := FailOrphanedTask(l[i].current, l[i].name, io(l[i].current));
          if ok {
            failed := 1;
            breaker.Reset();
            return;
          }
        }
      }
    }

    // ----- dispatch -----

    method CreateEscalation(t: Task, io: DispatchIo)
      modifies store
      ensures S() == Machine.Escalate(old(S()), t, io)
    {
      var ok := store.CreateTask(EscalationTask("escalation-" + t.id, t.Branch()), io.escalationCreated);
      ok := store.UpdateTask(t.(status := Blocked), io.blockWrite);
      Emit(EscalationCreated, t.id);
    }

    method FailTaskAndRelease(t: Task, w: string, io: DispatchIo)
      modifies store
      ensures S() == Machine.FailTask(old(S()), t, w, io)
    {
      var ok := store.UpdateTask(t.(status := Failed), io.failWrite);
      Release(w, io.release);
      Emit(TaskFailed, t.id);
    }

    /** Spawns the assigned task's agent and its monitor. */
    method Launch(t: Task, w: string, io: DispatchIo) returns (v: Verdict)
      requires w in store.workers ==> store.workers[w].name == w
      modifies this`inflight, this`next, store
      ensures (S(), v) == Machine.Begin(cfg, old(S()), t, w, io)
    {
      var t1 := t.(status := InProgress);
      if cfg.testMode {
        var ok := store.UpdateTask(t1, io.startWrite);
        if !ok {
          FailTaskAndRelease(t1, w, io);
          return Skipped;
        }
        ok := store.UpdateWorker(Worker(w, true, t.id), io.activeWrite);
        if !ok {
          FailTaskAndRelease(t1, w, io);
          return Skipped;
        }
      } else {
        var spawned := store.SpawnSession(S(), w, t, io.spawn);
        if !spawned {
          FailTaskAndRelease(t, w, io);
          return Skipped;
        }
        if !io.workerReread {
          FailTaskAndRelease(t1, w, io);
          return Skipped;
        }
      }
      Emit(TaskDispatched, t.id);
      inflight, next := inflight[next := Flight(t1, w)], next + 1;
      return Launched;
    }

    method DispatchOne(t: Task, io: DispatchIo) returns (v: Verdict)
      modifies this`inflight, this`next, store
      ensures (S(), v) == Machine.DispatchTask(cfg, old(S()), t, io)
    {
      var role := t.Role();
      if role == ESCALATION { return Skipped; }
      if role !in cfg.roles {
        CreateEscalation(t, io);
        return Skipped;
      }
      var w := Allocate(io);
      if w.None? { return Stop; }
      var held := store.Assign(S(), t.id, w.value, io.assign);
      if !held {
        Release(w.value, io.release);
        return Skipped;
      }
      if !io.reread {
        FailTaskAndRelease(Stub(cfg, t), w.value, io);
        return Skipped;
      }
      v := Launch(store.tasks[t.id], w.value, io);
    }

    method Dispatch(io: TickIo) returns (dispatched: nat, err: bool, ghost launched: seq<string>)
      requires Flights(S())
      modifies this`inflight, this`next, store
      ensures err == (!aborted && !io.readyRead) && dispatched == |launched|
      ensures aborted || err ==> S() == old(S()) && launched == []
      ensures !aborted && !err ==>
                (S(), launched) == DispatchAll(cfg, old(S()), Sort(ReadySet(cfg, old(S()).disk)), io.dispatch)
    {
      dispatched, err, launched := 0, false, [];
      if aborted { return; }
      if !io.readyRead { err := true; return; }
      var ready := store.ReadyTasks(cfg);
      dispatched, launched := DispatchListed(ready, io.dispatch);
    }

    /** The loop over the ready tasks. */
    method DispatchListed(ready: seq<Task>, io: string -> DispatchIo)
      returns (dispatched: nat, ghost launched: seq<string>)
      modifies this`inflight, this`next, store
      ensures dispatched == |launched| && (S(), launched) == DispatchAll(cfg, old(S()), ready, io)
    {
      dispatched, launched := 0, [];
      ghost var want := DispatchAll(cfg, S(), ready, io);
      assert ready[0..] == ready && [] + want.1 == want.1;
      for i := 0 to |ready|
        invariant dispatched == |launched|
        invariant var rest := DispatchAll(cfg, S(), ready[i..], io);
                  want == (rest.0, launched + rest.1)
      {
        assert ready[i..][0] == ready[i] && ready[i..][1..] == ready[i + 1..];
        var v := DispatchOne(ready[i], io(ready[i].id));
        if v == Stop {
          assert launched + [] == launched;
          return;
        }
        if v == Launched {
          dispatched := dispatched + 1;
          ghost var later := DispatchAll(cfg, S(), ready[i + 1..], io);
          assert launched + ([ready[i].id] + later.1) == launched + [ready[i].id] + later.1;
          launched := launched + [ready[i].id];
        }
      }
      assert launched + [] == launched;
    }

    method CheckTermination(io: TickIo) returns (done: bool)
      requires Keyed(store.D())
      ensures done <==> io.tasksListed && io.workersListed && Finished(cfg, store.D())
      ensures done <==> io.tasksListed && io.workersListed && AllOver(cfg, store.D())
    {
      FinishedMeans(cfg, store.D());
      if !io.tasksListed { return false; }
      var l := store.ListTasks(cfg.branch);
      assert forall t :: t in l <==> t in BranchTasks(cfg, store.D());
      for i := 0 to |l|
        invariant forall j :: 0 <= j < i ==> l[j].status.Terminal()
      {
        if !l[i].status.Terminal() {
          assert l[i] in l;
          return false;
        }
      }
      if !io.workersListed { return false; }
      var rest := store.workers.Keys;
      while rest != {}
        invariant rest <= store.workers.Keys
        invariant forall n :: n in Active(store.D()) ==> n in rest
        decreases |rest|
      {
        var n :| n in rest;
        if store.workers[n].active {
          assert n in Active(store.D());
          return false;
        }
        rest := rest - {n};
      }
      assert |l| > 0 <==> BranchTasks(cfg, store.D()) != {} by {
        if |l| > 0 { assert l[0] in l; }
        if t :| t in BranchTasks(cfg, store.D()) { assert t in l; }
      }
      return |l| > 0;
    }

    /** One dispatch cycle, without a watchdog. */
    method Tick(io: TickIo) returns (r: TickResult, dispatched: nat, ghost launched: seq<string>)
      requires Valid() && Flights(S())
      modifies this, store, gaps, retries, handoffs
      ensures Valid() && Flights(S()) && dispatched == |launched|
      ensures (S(), launched, r) == Ticks.Tick(cfg, old(S()), old(outcomes), io)
      ensures r == LifecycleDone ==> AllOver(cfg, store.D()) && inflight == map[]
    {
      TickResults(cfg, S(), outcomes, io);
      TickKeepsFlights(cfg, S(), outcomes, io);
      Drain();
      launched := [];
      if aborted { return GapAbort, 0, []; }
      var err: bool;
      dispatched, err, launched := Dispatch(io);
      if err { return TickError, dispatched, launched; }
      var done := CheckTermination(io);
      if done { return LifecycleDone, dispatched, launched; }
      r := if io.lockRefreshed then Continue else TickError;
    }
  }
}
