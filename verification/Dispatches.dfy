// What one dispatch does, in records (orch/dispatch.go dispatch, createEscalation, orch/session.go Allocate and
// SpawnSession, orch/ledger_fs.go Assign).
module Dispatches {
  import opened Types
  import opened Graph
  import opened Ordering
  import opened Machine
  import opened Effects
  import Readiness

  // ----- readiness -----

  /** The machine's ready set is the file-system query with the branch as its filter. */
  lemma ReadyIsTheQuery(cfg: Config, d: Disk, entries: seq<Task>)
    requires Keyed(d) && forall t :: t in entries <==> t.id in d.tasks && d.tasks[t.id] == t
    ensures ReadySet(cfg, d) == Readiness.ReadySet(entries, cfg.deps, ["branch:" + cfg.branch])
  {
    var filters := ["branch:" + cfg.branch];
    forall dep ensures Readiness.Done(entries, dep) <==> dep in d.tasks && d.tasks[dep].status.Terminal() {
      if dep in d.tasks { assert d.tasks[dep] in entries; }
    }
    forall t ensures t in ReadySet(cfg, d) <==> t in Readiness.ReadySet(entries, cfg.deps, filters) {
      Readiness.BranchFilter(t, cfg.branch);
      if t in ReadySet(cfg, d) { assert t.id in d.tasks && d.tasks[t.id] == t && t in entries; }
      if t in Readiness.ReadySet(entries, cfg.deps, filters) { assert t in entries && d.tasks[t.id] == t; }
    }
  }

  // ----- allocation -----

  /** The idle worker with the smallest name; else a new idle one with the next number, while the pool is not full. */
  lemma AllocateMeans(cfg: Config, s: State, io: DispatchIo)
    ensures var (s', w) := Allocate(cfg, s, io);
            var idle := set n | n in s.disk.workers && !s.disk.workers[n].active;
            var next := WorkerName(|s.disk.workers| + 1);
            var full := |s.disk.workers| >= cfg.maxWorkers;
            && (w.Some? && idle != {} ==> s' == s && w.value in idle)
            && (w.Some? && idle != {} ==> forall n :: n in idle ==> n == w.value || Smaller(w.value, n))
            && (w.Some? && idle == {} ==>
                  && w.value == next && next !in s.disk.workers && !full
                  && s'.disk == s.disk.(workers := s.disk.workers[next := Worker(next, false, "")]))
            && (w.None? <==>
                !io.workersListed || (idle == {} && (full || !io.workerCreated || next in s.disk.workers)))
            && (w.None? ==> s' == s)
  {
    assert (set n | n in s.disk.workers && !s.disk.workers[n].active) == Idle(s.disk);
    if Idle(s.disk) != {} {
      forall n | n in Idle(s.disk) ensures n == Least(Idle(s.disk)) || Smaller(Least(Idle(s.disk)), n) {
        StringLessMeans(Least(Idle(s.disk)), n);
      }
    }
  }

  /** Worker names carry a number of at least two digits. */
  lemma WorkerNames(n: nat)
    ensures "w-" <= WorkerName(n) && |WorkerName(n)| >= 4
    ensures n < 10 ==> WorkerName(n) == "w-0" + [('0' as int + n) as char]
    ensures 10 <= n < 100 ==> WorkerName(n) == "w-" + [('0' as int + n / 10) as char] + [('0' as int + n % 10) as char]
  {
    if n >= 10 { assert |Digits(n)| == |Digits(n / 10)| + 1 && |Digits(n / 10)| >= 1 by { DigitsLong(n / 10); } }
    if 10 <= n < 100 { assert Digits(n / 10) == [('0' as int + n / 10) as char]; }
  }

  lemma {:induction false} DigitsLong(n: nat)
    ensures |Digits(n)| >= 1
  {
    if n >= 10 { DigitsLong(n / 10); }
  }

  // ----- assignment -----

  /** Held exactly when the task is open and unassigned, the worker idle, and both writes work; then both records say
      so. A rolled back assignment leaves no trace; one that cannot be rolled back leaves the task's half. */
  lemma AssignMeans(s: State, id: string, w: string, io: AssignIo)
    requires Keyed(s.disk)
    ensures var (s', held) := Assign(s, id, w, io);
            var free := id in s.disk.tasks && s.disk.tasks[id].status == Open && s.disk.tasks[id].assignee == "" &&
                        w in s.disk.workers && !s.disk.workers[w].active;
            var half := if free then s.disk.tasks[id := s.disk.tasks[id].(status := Assigned, assignee := w)]
                        else s.disk.tasks;
            && (held <==> free && io == AssignOk)
            && (held ==> s'.disk == s.disk.(tasks := half, workers := s.disk.workers[w := Worker(w, true, id)]))
            && (!held ==> s'.disk == if free && io == WorkerFailed(false) then s.disk.(tasks := half) else s.disk)
            && s'.mem == s.mem && s'.inflight == s.inflight && s'.next == s.next
  {
    if id in s.disk.tasks {
      var t := s.disk.tasks[id];
      assert s.disk.tasks[id := t.(status := Assigned, assignee := w)][id := t] == s.disk.tasks;
    }
  }

  // ----- sessions -----

  /** Spawned: the session runs, the worker is active on the task, the task is in progress. Not spawned, with a working
      rollback: no session, and both records as they were. */
  lemma SpawnMeans(s: State, w: string, t: Task, io: SpawnIo)
    requires Keyed(s.disk)
    ensures var (s', ok) := Spawn(s, w, t, io);
            && (ok <==> io == SpawnOk && w in s.disk.workers && t.id in s.disk.tasks)
            && (ok ==> && s'.disk.sessions == s.disk.sessions + {w} && s'.disk.log == s.disk.log
                       && s'.disk.workers == s.disk.workers[w := Worker(w, true, t.id)]
                       && s'.disk.tasks == s.disk.tasks[t.id := t.(status := InProgress)])
            && (!ok && (io.SpawnOk? || (io.killed && (io.TaskUnwritten? ==> io.restored))) ==>
                  s'.disk == s.disk.(sessions := s.disk.sessions - {w}))
  {
    if w in s.disk.workers {
      assert s.disk.workers[w := Worker(w, true, t.id)][w := s.disk.workers[w]] == s.disk.workers;
    }
    assert s.disk.sessions + {w} - {w} == s.disk.sessions - {w};
  }

  // ----- one ready task -----

  /** Escalations wait for a human, unknown roles are escalated, and only a missing worker stops the loop. */
  lemma DispatchRoutes(cfg: Config, s: State, t: Task, io: DispatchIo)
    ensures var role, r := Lookup(t.labels, "role"), DispatchTask(cfg, s, t, io);
            && (role == "escalation" ==> r == (s, Skipped))
            && (role != "escalation" && role !in cfg.roles ==> r == (Escalate(s, t, io), Skipped))
            && (r.1 == Stop <==> role != "escalation" && role in cfg.roles && Allocate(cfg, s, io).1.None?)
            && (r.1 == Stop ==> r.0 == s)
  {
  }

  /** A task nobody has a role for is blocked, and an open escalation for a human is filed on its branch. */
  lemma EscalateMeans(s: State, t: Task, io: DispatchIo)
    requires Keyed(s.disk) && t.id in s.disk.tasks && "escalation-" + t.id !in s.disk.tasks
    ensures var d, id := Escalate(s, t, io).disk, "escalation-" + t.id;
            && d.log == s.disk.log + [Event(EscalationCreated, t.id)]
            && d.tasks[t.id] == (if io.blockWrite then t.(status := Blocked) else s.disk.tasks[t.id])
            && (id in d.tasks <==> io.escalationCreated)
            && (io.escalationCreated ==>
                  && d.tasks[id].status == Open && d.tasks[id].assignee == ""
                  && Lookup(d.tasks[id].labels, "role") == "escalation"
                  && Lookup(d.tasks[id].labels, "branch") == Lookup(t.labels, "branch")
                  && Lookup(d.tasks[id].labels, "criticality") == "critical")
  {
    assert "escalation-" + t.id != t.id by { assert |"escalation-" + t.id| > |t.id|; }
  }

  /** The task is in progress on its worker, a session runs outside test mode, the dispatch is reported, and one agent
      is out with exactly the stored record. */
  ghost predicate LaunchedOn(cfg: Config, s: State, s': State, t: Task, w: string) {
    var t1 := t.(status := InProgress, assignee := w);
    && s'.disk.tasks == s.disk.tasks[t.id := t1] && s'.disk.workers == s.disk.workers[w := Worker(w, true, t.id)]
    && s'.disk.sessions == (if cfg.testMode then s.disk.sessions else s.disk.sessions + {w})
    && s'.disk.log == s.disk.log + [Event(TaskDispatched, t.id)]
    && s'.inflight == s.inflight[s.next := Flight(t1, w)] && s'.next == s.next + 1 && s'.mem == s.mem
  }

  lemma LaunchMeans(cfg: Config, s: State, t: Task, io: DispatchIo)
    requires Keyed(s.disk) && t.id in s.disk.tasks && s.disk.tasks[t.id] == t
    requires DispatchTask(cfg, s, t, io).1 == Launched
    ensures exists w :: LaunchedOn(cfg, s, DispatchTask(cfg, s, t, io).0, t, w)
  {
    AllocateEffect(cfg, s, io);
    var (s1, slot) := Allocate(cfg, s, io);
    AssignedLaunch(cfg, s1, t, slot.value, io);
    LaunchedFromPool(cfg, s, s1, DispatchTo(cfg, s1, t, slot.value, io).0, t, slot.value);
  }

  lemma AssignedLaunch(cfg: Config, s: State, t: Task, w: string, io: DispatchIo)
    requires Keyed(s.disk) && t.id in s.disk.tasks && s.disk.tasks[t.id] == t && w in s.disk.workers
    requires DispatchTo(cfg, s, t, w, io).1 == Launched
    ensures LaunchedOn(cfg, s, DispatchTo(cfg, s, t, w, io).0, t, w)
  {
    AssignMeans(s, t.id, w, io.assign);
    var s1 := Assign(s, t.id, w, io.assign).0;
    BeginMeans(cfg, s1, s1.disk.tasks[t.id], w, io);
  }

  lemma LaunchedFromPool(cfg: Config, s: State, s1: State, s': State, t: Task, w: string)
    requires LaunchedOn(cfg, s1, s', t, w)
    requires s1 == s || s1 == s.(disk := s.disk.(workers := s.disk.workers[w := Worker(w, false, "")]), cuts := s1.cuts)
    ensures LaunchedOn(cfg, s, s', t, w)
  {
    assert s'.disk.workers == s.disk.workers[w := Worker(w, true, t.id)];
  }

  lemma BeginMeans(cfg: Config, s: State, t: Task, w: string, io: DispatchIo)
    requires Keyed(s.disk) && t.id in s.disk.tasks && w in s.disk.workers && Begin(cfg, s, t, w, io).1 == Launched
    ensures var s', t1 := Begin(cfg, s, t, w, io).0, t.(status := InProgress);
            && s'.disk.tasks == s.disk.tasks[t.id := t1]
            && s'.disk.workers == s.disk.workers[w := Worker(w, true, t.id)]
            && s'.disk.sessions == (if cfg.testMode then s.disk.sessions else s.disk.sessions + {w})
            && s'.disk.log == s.disk.log + [Event(TaskDispatched, t.id)]
            && s'.inflight == s.inflight[s.next := Flight(t1, w)] && s'.next == s.next + 1 && s'.mem == s.mem
  {
    if !cfg.testMode { SpawnMeans(s, w, t, io.spawn); }
  }
}
