// Dependency order over whole runs, and the gate behind the planner's validated graph
// (orch/validate.go, orch/engine.go onPlannerCompleted, orch/dispatch.go dispatch).
module Gates {
  import opened Types
  import opened Graph
  import opened Ordering
  import opened Machine
  import opened Effects
  import opened Safety
  import opened Writes
  import opened Validate

  /** Below a task with terminal dependencies everything is terminal. */
  lemma {:induction false} AllBelowTerminal(cfg: Config, d: Disk, p: seq<string>)
    requires DepsClosed(cfg, d) && IsPath(cfg.deps, p) && DepsTerminal(cfg.deps, d, p[0]) && |p| >= 2
    ensures p[|p| - 1] in d.tasks && d.tasks[p[|p| - 1]].status.Terminal()
    decreases |p|
  {
    assert p[1] in Succ(cfg.deps, p[0]);
    if |p| > 2 {
      assert p[1..][|p| - 2] == p[|p| - 1];
      AllBelowTerminal(cfg, d, p[1..]);
    }
  }

  /** A dispatched task has every direct and indirect dependency terminal, then and ever after. */
  lemma DispatchedAfterAllDeps(cfg: Config, ss: seq<State>, acts: seq<Action>, i: nat, j: nat, id: string, dep: string)
    requires IsRun(cfg, ss, acts) && Flights(ss[0]) && DepsClosed(cfg, ss[0].disk)
    requires i < |acts| && acts[i].Dispatch? && acts[i].id == id && i <= j < |ss|
    requires Reaches(cfg.deps, id, dep) && dep != id
    ensures dep in ss[j].disk.tasks && ss[j].disk.tasks[dep].status.Terminal()
  {
    DepsClosedUntilAbort(cfg, ss, acts, i);
    var p :| PathFromTo(cfg.deps, p, id, dep);
    AllBelowTerminal(cfg, ss[i].disk, p);
    TerminalIrreversible(cfg, ss, acts, i, j);
  }

  /** With a graph the validator accepted, the gate is dispatched only after every verifier is terminal. */
  lemma GateAfterVerifiers(cfg: Config, ts: seq<Task>, plan: string, gate: string, verifier: Task,
                           ss: seq<State>, acts: seq<Action>, i: nat, j: nat)
    requires DistinctIds(ts) && WellFormed(ts, cfg.deps, cfg.roles, plan, gate)
    requires verifier in ts && verifier.Role() == VERIFIER
    requires IsRun(cfg, ss, acts) && Flights(ss[0]) && DepsClosed(cfg, ss[0].disk)
    requires i < |acts| && acts[i].Dispatch? && acts[i].id == gate && i <= j < |ss|
    ensures verifier.id in ss[j].disk.tasks && ss[j].disk.tasks[verifier.id].status.Terminal()
  {
    WithRoleMembers(ts, GATE);
    assert gate in WithRole(ts, GATE);
    var g :| g in ts && g.Role() == GATE && g.id == gate;
    assert verifier.id != gate;
    SubgraphReaches(Intra(ts, cfg.deps), cfg.deps, gate, verifier.id);
    DispatchedAfterAllDeps(cfg, ss, acts, i, j, gate, verifier.id);
  }

  // ----- the planner's hook -----

  /** The branch as the hook lists it, right after the completion of the flight's task was recorded. */
  ghost function Planned(cfg: Config, s: State, f: Flight, io: OutcomeIo): seq<Task> {
    Sort(BranchTasks(cfg, Terminate(s, f, Completed, TaskCompleted, io).0.disk))
  }

  /** The hook runs, and accepts only what the validator accepts. */
  ghost predicate Answers(cfg: Config, s: State, f: Flight, io: OutcomeIo) {
    && !io.hook.Silent?
    && (io.hook.Accepts? ==> IsVerdict(Accepted, Planned(cfg, s, f, io), cfg.deps, cfg.roles))
  }

  lemma PlannerIsListed(cfg: Config, s: State, f: Flight, io: OutcomeIo)
    requires Keyed(s.disk) && FlightOk(s.disk, f) && io.finalWrite && f.task.Branch() == cfg.branch
    ensures f.task.(status := Completed) in Planned(cfg, s, f, io) && DistinctIds(Planned(cfg, s, f, io))
  {
    var d, t := Terminate(s, f, Completed, TaskCompleted, io).0.disk, f.task.(status := Completed);
    TerminateEffect(cfg, s, f, Completed, TaskCompleted, io);
    assert d.tasks[t.id] == t && t in BranchTasks(cfg, d);
    assert DistinctTasks(BranchTasks(cfg, d));
    var l := Planned(cfg, s, f, io);
    forall i, j | 0 <= i < j < |l| ensures l[i].id != l[j].id {
      assert l[i] in l && l[j] in l;
      TaskLessTotal(l[i], l[j]);
    }
  }

  lemma RejectionAborts(cfg: Config, s: State, f: Flight, io: OutcomeIo)
    requires Keyed(s.disk) && FlightOk(s.disk, f) && io.finalWrite && io.hook.Rejects?
    ensures HandleSuccess(cfg, s, f, io).mem.aborted
  {
    var s1 := Terminate(s, f, Completed, TaskCompleted, io).0;
    TerminateEffect(cfg, s, f, Completed, TaskCompleted, io);
    var esc := EscalationTask("escalation-graph-" + f.task.id, f.task.Branch());
    assert |esc.id| > 0;
    AbortEffect(cfg, Emit(CreateTask(s1, esc, io.hook.created), GraphInvalid, f.task.id), io.hook.reason, io);
  }

  /** Abort cleanup skips a task whose write fails, and tasks it does not list. */
  lemma {:induction false} BlockOpenSkips(s: State, l: seq<Task>, unblocked: set<string>, id: string)
    requires id in s.disk.tasks && (id in unblocked || forall t :: t in l ==> t.id != id)
    ensures var s' := BlockOpen(s, l, unblocked); id in s'.disk.tasks && s'.disk.tasks[id] == s.disk.tasks[id]
    decreases |l|
  {
    if l != [] {
      var t := l[0];
      assert t in l;
      var s1 := if t.status.Open? && t.id !in unblocked && t.id in s.disk.tasks
                then PutTask(s, t.(status := Blocked)) else s;
      BlockOpenSkips(s1, l[1..], unblocked, id);
    }
  }

  lemma CleanupSkips(cfg: Config, s: State, io: OutcomeIo, id: string)
    requires Keyed(s.disk) && id in s.disk.tasks
    requires !io.listed || id in io.unblocked || s.disk.tasks[id].Branch() != cfg.branch
    ensures var s' := AbortCleanup(cfg, s, io); id in s'.disk.tasks && s'.disk.tasks[id] == s.disk.tasks[id]
  {
    var ts := BranchTasks(cfg, s.disk);
    assert DistinctTasks(ts);
    if io.listed { BlockOpenSkips(s, Listing(ts), io.unblocked, id); }
  }

  /** The escalation a rejected graph files is left blocked by the abort of the same call exactly when it was filed,
      the cleanup could list the branch, the escalation belongs to it, and its blocking write worked. */
  lemma EscalationFate(cfg: Config, s: State, t: Task, io: OutcomeIo)
    requires Keyed(s.disk) && io.hook.Rejects? && "escalation-graph-" + t.id !in s.disk.tasks
    ensures var id, s' := "escalation-graph-" + t.id, RunHook(cfg, s, t, io);
            && (id in s'.disk.tasks <==> io.hook.created)
            && (id in s'.disk.tasks && s'.disk.tasks[id].status.Blocked? <==>
                io.hook.created && io.listed && t.Branch() == cfg.branch && id !in io.unblocked)
            && (id in s'.disk.tasks && !s'.disk.tasks[id].status.Blocked? ==>
                  s'.disk.tasks[id] == EscalationTask(id, t.Branch()))
  {
    var id := "escalation-graph-" + t.id;
    assert |id| > 0;
    var esc := EscalationTask(id, t.Branch());
    assert esc.Branch() == t.Branch();
    var s1 := Emit(CreateTask(s, esc, io.hook.created), GraphInvalid, t.id);
    var s2 := s1.(mem := SetReason(s1.mem, io.hook.reason).(aborted := true));
    CleanupEffect(cfg, s2, io);
    if io.hook.created {
      if !io.listed || t.Branch() != cfg.branch || id in io.unblocked {
        CleanupSkips(cfg, s2, io, id);
      } else {
        assert id in s2.disk.tasks && s2.disk.tasks[id] == esc;
        assert s2.disk.tasks[id] in BranchTasks(cfg, s2.disk);
      }
    }
  }

  /** End to end: once a planner has completed under a hook that answers as the validator does, its gate is
      dispatched only after every verifier of the planned graph is terminal, and they stay so. */
  lemma GateBehindPlanner(cfg: Config, ss: seq<State>, acts: seq<Action>, p: nat, i: nat, j: nat, gate: Task,
                          verifier: Task)
    requires IsRun(cfg, ss, acts) && Flights(ss[0]) && DepsClosed(cfg, ss[0].disk)
    requires p < i < |acts| && i <= j < |ss|
    requires acts[p].Outcome? && acts[p].exitCode == 0 && acts[p].outcomeIo.finalWrite
    requires var f := ss[p].inflight[acts[p].ticket];
             && f.task.Role() == PLANNER && f.task.Branch() == cfg.branch
             && Answers(cfg, Taken(ss[p], acts[p].ticket), f, acts[p].outcomeIo)
             && var ts := Planned(cfg, Taken(ss[p], acts[p].ticket), f, acts[p].outcomeIo);
                gate in ts && verifier in ts && gate.Role() == GATE && verifier.Role() == VERIFIER
    requires acts[i].Dispatch? && acts[i].id == gate.id
    ensures verifier.id in ss[j].disk.tasks && ss[j].disk.tasks[verifier.id].status.Terminal()
  {
    var f, s0, io := ss[p].inflight[acts[p].ticket], Taken(ss[p], acts[p].ticket), acts[p].outcomeIo;
    FlightsAlways(cfg, ss, acts, p);
    assert FlightOk(s0.disk, f);
    PlannerIsListed(cfg, s0, f, io);
    var ts := Planned(cfg, s0, f, io);
    if io.hook.Rejects? {
      RejectionAborts(cfg, s0, f, io);
      AbortIsFinal(cfg, ss, acts, p + 1, i);
    } else {
      AcceptedMeansWellFormed(Accepted, ts, cfg.deps, cfg.roles);
      var plan, g :| WellFormed(ts, cfg.deps, cfg.roles, plan, g);
      WithRoleMembers(ts, GATE);
      assert gate.id in WithRole(ts, GATE);
      GateAfterVerifiers(cfg, ts, plan, g, verifier, ss, acts, i, j);
    }
  }
}
