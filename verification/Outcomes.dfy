// What an agent's exit code does, in exit codes, labels and records (orch/agent.go DetermineOutcome,
// orch/dispatch.go processOutcome and handleTerminalFailure, orch/session.go Release).
module Outcomes {
  import opened Types
  import opened Machine
  import opened Effects
  import opened Safety
  import opened Orphans
  import Ordering

  // ----- releasing a worker -----

  /** A release that succeeds ends the session and idles the worker; one that is not reached does nothing. */
  lemma ReleaseEnds(s: State, w: string, io: ReleaseIo)
    requires w in s.disk.workers
    ensures var d := Release(s, w, io).disk;
            && d.tasks == s.disk.tasks && d.log == s.disk.log
            && (io.Released? ==>
                  d.sessions == s.disk.sessions - {w} && d.workers == s.disk.workers[w := Worker(w, false, "")])
            && (io.KilledOnly? ==> d == s.disk.(sessions := s.disk.sessions - {w}))
            && (io.NotReached? ==> d == s.disk)
  {
  }

  // ----- terminal failures -----

  predicate Critical(t: Task) { "criticality" in t.labels && t.labels["criticality"] == "critical" }

  predicate Queued(cfg: Config, t: Task) { t.status == Open && Lookup(t.labels, "branch") == cfg.branch }

  /** Every listed open task of the branch whose write works is blocked; other records of the branch are as before. */
  ghost predicate QueueBlocked(cfg: Config, m: map<string, Task>, m': map<string, Task>, io: OutcomeIo) {
    && m'.Keys == m.Keys
    && forall id :: id in m ==>
         m'[id] == if io.listed && Queued(cfg, m[id]) && id !in io.unblocked then m[id].(status := Blocked) else m[id]
  }

  /** Exactly the open tasks of the list whose write works are blocked. */
  ghost predicate Blocking(m: map<string, Task>, m': map<string, Task>, l: seq<Task>, unblocked: set<string>) {
    && m'.Keys == m.Keys
    && forall id :: id in m ==> m'[id] == if Hit(m[id], id, l, unblocked) then m[id].(status := Blocked) else m[id]
  }

  predicate Hit(t: Task, id: string, l: seq<Task>, unblocked: set<string>) {
    t in l && t.id == id && t.status.Open? && id !in unblocked
  }

  ghost predicate Current(m: map<string, Task>, l: seq<Task>) {
    && (forall t :: t in l ==> t.id in m && m[t.id] == t)
    && (forall i, j :: 0 <= i < j < |l| ==> l[i].id != l[j].id)
  }

  lemma BlockFirst(m: map<string, Task>, l: seq<Task>, m': map<string, Task>, unblocked: set<string>)
    requires l != [] && Current(m, l)
    ensures var m1 := if l[0].status.Open? && l[0].id !in unblocked then m[l[0].id := l[0].(status := Blocked)] else m;
            Current(m1, l[1..]) && (Blocking(m1, m', l[1..], unblocked) ==> Blocking(m, m', l, unblocked))
  {
    var t := l[0];
    assert t in l && l == [t] + l[1..];
    var m1 := if t.status.Open? && t.id !in unblocked then m[t.id := t.(status := Blocked)] else m;
    forall u | u in l[1..] ensures u.id in m1 && m1[u.id] == u && u.id != t.id {
      var i :| 0 <= i < |l[1..]| && l[1..][i] == u;
      assert l[0].id != l[i + 1].id && l[i + 1] in l;
    }
    if Blocking(m1, m', l[1..], unblocked) {
      forall id | id in m ensures m'[id] == if Hit(m[id], id, l, unblocked) then m[id].(status := Blocked) else m[id] {
        assert id == t.id || m1[id] == m[id];
      }
    }
  }

  lemma {:induction false} BlockOpenExactly(s: State, l: seq<Task>, unblocked: set<string>)
    requires Current(s.disk.tasks, l)
    ensures Blocking(s.disk.tasks, BlockOpen(s, l, unblocked).disk.tasks, l, unblocked)
    decreases |l|
  {
    if l != [] {
      var t := l[0];
      assert t in l;
      var s1 := if t.status.Open? && t.id !in unblocked then PutTask(s, t.(status := Blocked)) else s;
      BlockFirst(s.disk.tasks, l, BlockOpen(s, l, unblocked).disk.tasks, unblocked);
      BlockOpenExactly(s1, l[1..], unblocked);
      assert BlockOpen(s, l, unblocked) == BlockOpen(s1, l[1..], unblocked);
    }
  }

  /** Aborted; the first non-empty reason stays. */
  function AbortedFor(m: Memory, reason: string): Memory {
    m.(aborted := true, reason := if m.reason == "" then reason else m.reason)
  }

  lemma AbortMeans(cfg: Config, s: State, reason: string, io: OutcomeIo)
    requires Keyed(s.disk)
    ensures var s' := Abort(cfg, s, reason, io);
            && s'.mem == AbortedFor(s.mem, reason) && QueueBlocked(cfg, s.disk.tasks, s'.disk.tasks, io)
            && s'.disk == s.disk.(tasks := s'.disk.tasks) && s'.inflight == s.inflight && s'.next == s.next
  {
    var s1 := s.(mem := SetReason(s.mem, reason).(aborted := true));
    var ts := BranchTasks(cfg, s1.disk);
    assert Ordering.DistinctTasks(ts);
    CleanupEffect(cfg, s1, io);
    if io.listed {
      var l := Ordering.Listing(ts);
      forall i, j | 0 <= i < j < |l| ensures l[i].id != l[j].id {
        assert l[i] in l && l[j] in l && Ordering.TaskLess(l[i], l[j]);
        Ordering.TaskLessTotal(l[i], l[i]);
      }
      BlockOpenExactly(s1, l, io.unblocked);
    }
  }

  /** What becomes of the run when a task has ended as failed or blocked: a critical task aborts it and is no gap;
      any other task is one more gap, and reaching the tolerance aborts. */
  ghost predicate Judged(cfg: Config, s: State, s': State, t: Task, io: OutcomeIo) {
    var gaps := s.mem.gaps + [t.id];
    && s'.disk.workers == s.disk.workers && s'.disk.sessions == s.disk.sessions
    && s'.inflight == s.inflight && s'.next == s.next
    && if Critical(t) then
         && s'.mem == AbortedFor(s.mem, "critical_task_failure:" + t.id)
         && QueueBlocked(cfg, s.disk.tasks, s'.disk.tasks, io)
         && s'.disk.log == s.disk.log + [Event(EscalationCreated, t.id)]
       else if |gaps| >= cfg.tolerance then
         && s'.mem == AbortedFor(s.mem, "gap_tolerance_exceeded").(gaps := gaps)
         && QueueBlocked(cfg, s.disk.tasks, s'.disk.tasks, io)
         && s'.disk.log == s.disk.log + [Event(GapRecorded, t.id)] + [Event(EscalationCreated, t.id)]
       else
         && s'.mem == s.mem.(gaps := gaps) && s'.disk.tasks == s.disk.tasks
         && s'.disk.log == s.disk.log + [Event(GapRecorded, t.id)]
  }

  lemma TerminalFailureMeans(cfg: Config, s: State, t: Task, io: OutcomeIo)
    requires Keyed(s.disk)
    ensures Judged(cfg, s, TerminalFailure(cfg, s, t, io), t, io)
  {
    if Critical(t) {
      AbortMeans(cfg, s, "critical_task_failure:" + t.id, io);
    } else {
      var s1 := Emit(s.(mem := s.mem.(gaps := s.mem.gaps + [t.id])), GapRecorded, t.id);
      if |s1.mem.gaps| >= cfg.tolerance { AbortMeans(cfg, s1, "gap_tolerance_exceeded", io); }
    }
  }

  // ----- the records an outcome leaves -----

  /** The outcome's own record, its worker and its session, and the event that reports it; nothing else. */
  ghost predicate Recorded(s: State, f: Flight, s': State, t: Task, kind: EventKind, io: OutcomeIo) {
    && s'.disk.tasks == s.disk.tasks[f.task.id := t] && s'.disk.log == s.disk.log + [Event(kind, f.task.id)]
    && s'.disk.workers ==
       (if io.release.Released? then s.disk.workers[f.worker := Worker(f.worker, false, "")] else s.disk.workers)
    && s'.disk.sessions == (if io.release.NotReached? then s.disk.sessions else s.disk.sessions - {f.worker})
    && s'.inflight == s.inflight && s'.next == s.next
  }

  lemma TerminateMeans(s: State, f: Flight, status: Status, kind: EventKind, io: OutcomeIo)
    requires Keyed(s.disk) && FlightOk(s.disk, f) && io.finalWrite
    ensures var (s', ok) := Terminate(s, f, status, kind, io);
            ok && s'.mem == s.mem && Keyed(s'.disk) && Recorded(s, f, s', f.task.(status := status), kind, io)
  {
    ReleaseEnds(PutTask(s, f.task.(status := status)), f.worker, io.release);
  }

  /** Ended with this status, reported by this event, and judged. */
  ghost predicate EndsWith(cfg: Config, s: State, f: Flight, s': State, status: Status, kind: EventKind,
                           io: OutcomeIo) {
    exists s1: State ::
      && s1.mem == s.mem && Recorded(s, f, s1, f.task.(status := status), kind, io)
      && Judged(cfg, s1, s', f.task, io)
  }

  lemma FinalMeans(cfg: Config, s: State, f: Flight, status: Status, kind: EventKind, io: OutcomeIo)
    requires Keyed(s.disk) && FlightOk(s.disk, f)
    ensures var s' := Final(cfg, s, f, status, kind, io);
            if io.finalWrite then EndsWith(cfg, s, f, s', status, kind, io) else s' == s
  {
    if io.finalWrite {
      TerminateMeans(s, f, status, kind, io);
      TerminalFailureMeans(cfg, Terminate(s, f, status, kind, io).0, f.task, io);
    }
  }

  predicate RetryLeft(cfg: Config, m: Memory, id: string) { Count(m.retries, id) < cfg.maxRetries }

  /** Queued again for one attempt, or ended as failed, or nothing, by what is left and what can be written. */
  ghost predicate FailsFrom(cfg: Config, s: State, f: Flight, s': State, io: OutcomeIo) {
    var id := f.task.id;
    if RetryLeft(cfg, s.mem, id) && io.retryWrite then
      && s'.mem == s.mem.(retries := s.mem.retries[id := Count(s.mem.retries, id) + 1])
      && Recorded(s, f, s', f.task.(status := Open, assignee := ""), TaskRetried, io)
    else if io.finalWrite then EndsWith(cfg, s, f, s', Failed, TaskFailed, io)
    else s' == s
  }

  lemma FailureMeans(cfg: Config, s: State, f: Flight, io: OutcomeIo)
    requires Keyed(s.disk) && FlightOk(s.disk, f)
    ensures FailsFrom(cfg, s, f, HandleFailure(cfg, s, f, io), io)
  {
    if RetryLeft(cfg, s.mem, f.task.id) && io.retryWrite {
      var s1 := PutTask(s, f.task.(status := Open, assignee := ""));
      var s2 := s1.(mem := s1.mem.(retries := Bump(s1.mem.retries, f.task.id)));
      ReleaseEnds(s2, f.worker, io.release);
      assert HandleFailure(cfg, s, f, io) == Emit(Release(s2, f.worker, io.release), TaskRetried, f.task.id);
    } else {
      FinalMeans(cfg, s, f, Failed, TaskFailed, io);
    }
  }

  // ----- exit codes -----

  /** The validator's verdict, as the hook logs it. */
  function HookReports(hook: Hook, id: string): seq<Event> {
    match hook
    case Silent => []
    case Accepts => [Event(GraphValidated, id)]
    case Rejects(_, _) => [Event(GraphInvalid, id)]
  }

  /** Completed at no cost; only a hook that rejects the graph aborts. */
  ghost predicate Completes(s: State, f: Flight, s': State, io: OutcomeIo) {
    && f.task.id in s'.disk.tasks && s'.disk.tasks[f.task.id] == f.task.(status := Completed)
    && s'.inflight == s.inflight && s'.next == s.next
    && s'.disk.log == s.disk.log + [Event(TaskCompleted, f.task.id)] + HookReports(io.hook, f.task.id)
    && s'.mem == (if io.hook.Rejects? then AbortedFor(s.mem, io.hook.reason) else s.mem)
  }

  lemma ExitZeroCompletes(cfg: Config, s: State, f: Flight, io: OutcomeIo)
    requires Keyed(s.disk) && FlightOk(s.disk, f) && io.finalWrite
    ensures Completes(s, f, ProcessOutcome(cfg, s, f, 0, io), io)
  {
    TerminateMeans(s, f, Completed, TaskCompleted, io);
    var s1 := Terminate(s, f, Completed, TaskCompleted, io).0;
    if io.hook.Rejects? {
      var esc := EscalationTask("escalation-graph-" + f.task.id, f.task.Branch());
      assert |esc.id| > 0;
      AbortMeans(cfg, Emit(CreateTask(s1, esc, io.hook.created), GraphInvalid, f.task.id), io.hook.reason, io);
    }
  }

  /** One more handoff of the task. */
  function HandedOff(m: Memory, id: string): Memory { m.(handoffs := m.handoffs[id := Count(m.handoffs, id) + 1]) }

  /** Within budget it costs one handoff and goes on: relaunched in test mode, with a new session otherwise. A restart
      that fails, or a spent budget, makes it a failure. */
  ghost predicate HandsOff(cfg: Config, s: State, f: Flight, s': State, io: OutcomeIo) {
    var id, log := f.task.id, s.disk.log + [Event(TaskHandoff, f.task.id)];
    if Count(s.mem.handoffs, id) >= cfg.maxHandoffs then
      exists s1: State ::
        Reported(s, s1, [Event(HandoffLimitReached, id)]) && s1.mem == s.mem && FailsFrom(cfg, s1, f, s', io)
    else if cfg.testMode then
      s'.disk == s.disk.(log := log) && s'.mem == HandedOff(s.mem, id) && s'.inflight == s.inflight[s.next := f]
    else if io.restartKill && io.spawn.SpawnOk? then
      && s'.disk == s.disk.(log := log, sessions := s.disk.sessions + {f.worker}) && s'.mem == HandedOff(s.mem, id)
      && s'.inflight == s.inflight && s'.started == Bump(s.started, id)
    else
      exists s1: State :: Reported(s, s1, []) && s1.mem == HandedOff(s.mem, id) && FailsFrom(cfg, s1, f, s', io)
  }

  /** Task and worker records as before, and these events more. */
  ghost predicate Reported(s: State, s1: State, events: seq<Event>) {
    SameRecords(s, s1) && s1.disk.log == s.disk.log + events && s1.inflight == s.inflight && s1.next == s.next
  }

  lemma ExitThreeHandsOff(cfg: Config, s: State, f: Flight, io: OutcomeIo)
    requires Keyed(s.disk) && FlightOk(s.disk, f)
    ensures HandsOff(cfg, s, f, ProcessOutcome(cfg, s, f, 3, io), io)
  {
    var id := f.task.id;
    if Count(s.mem.handoffs, id) >= cfg.maxHandoffs {
      var s1 := Emit(s, HandoffLimitReached, id);
      FailureMeans(cfg, s1, f, io);
      assert Reported(s, s1, [Event(HandoffLimitReached, id)]);
    } else if !cfg.testMode {
      var s1 := s.(mem := HandedOff(s.mem, id));
      RestartMeans(cfg, s1, f, io);
      var (s2, ok) := Restart(s1, f.worker, f.task, io.restartKill, io.spawn);
      if !ok {
        FailureMeans(cfg, s2, f, io);
        assert Reported(s, s2, []) by { assert s.disk.log + [] == s.disk.log; }
      }
    }
  }

  /** 0 completes; 2 blocks for good, whatever attempts are left; 3 hands off; every other code is a failure, retried
      while attempts last. An end that cannot be written changes nothing. */
  ghost predicate ExitLaw(cfg: Config, s: State, f: Flight, code: int, s': State, io: OutcomeIo) {
    if code == 0 then (if io.finalWrite then Completes(s, f, s', io) else s' == s)
    else if code == 2 then (if io.finalWrite then EndsWith(cfg, s, f, s', Blocked, TaskBlocked, io) else s' == s)
    else if code == 3 then HandsOff(cfg, s, f, s', io)
    else FailsFrom(cfg, s, f, s', io)
  }

  lemma ExitCodesMean(cfg: Config, s: State, f: Flight, code: int, io: OutcomeIo)
    requires Keyed(s.disk) && FlightOk(s.disk, f)
    ensures ExitLaw(cfg, s, f, code, ProcessOutcome(cfg, s, f, code, io), io)
  {
    if code == 0 {
      if io.finalWrite { ExitZeroCompletes(cfg, s, f, io); }
    } else if code == 2 {
      FinalMeans(cfg, s, f, Blocked, TaskBlocked, io);
    } else if code == 3 {
      ExitThreeHandsOff(cfg, s, f, io);
    } else {
      FailureMeans(cfg, s, f, io);
    }
  }

  /** The law of exit codes over every state a run can reach. */
  lemma ExitCodesInRuns(cfg: Config, ss: seq<State>, acts: seq<Action>, i: nat)
    requires IsRun(cfg, ss, acts) && Flights(ss[0]) && i < |acts| && acts[i].Outcome?
    ensures acts[i].ticket in ss[i].inflight
    ensures ExitLaw(cfg, Taken(ss[i], acts[i].ticket), ss[i].inflight[acts[i].ticket], acts[i].exitCode, ss[i + 1],
                    acts[i].outcomeIo)
  {
    var k := acts[i].ticket;
    FlightsAlways(cfg, ss, acts, i);
    assert FlightOk(Taken(ss[i], k).disk, ss[i].inflight[k]);
    ExitCodesMean(cfg, Taken(ss[i], k), ss[i].inflight[k], acts[i].exitCode, acts[i].outcomeIo);
  }

  lemma RestartMeans(cfg: Config, s: State, f: Flight, io: OutcomeIo)
    requires Keyed(s.disk) && FlightOk(s.disk, f)
    ensures var (s', ok) := Restart(s, f.worker, f.task, io.restartKill, io.spawn);
            && (ok <==> io.restartKill && io.spawn.SpawnOk?)
            && SameRecords(s, s') && s'.disk.log == s.disk.log && s'.mem == s.mem
            && s'.inflight == s.inflight && s'.next == s.next
            && (ok ==> s'.disk == s.disk.(sessions := s.disk.sessions + {f.worker}))
            && (ok ==> s'.started == Bump(s.started, f.task.id))
  {
    RestartEffect(s, f, io);
    RestartShape(s, f.worker, f.task, io.restartKill, io.spawn);
    if io.restartKill && io.spawn.SpawnOk? {
      assert s.disk.sessions - {f.worker} + {f.worker} == s.disk.sessions + {f.worker};
    }
  }

  // ----- the law of terminal failures, over all exit codes -----

  /** The outcomes that end their task as failed or blocked. */
  predicate EndsBadly(cfg: Config, m: Memory, id: string, code: int, io: OutcomeIo) {
    && io.finalWrite && code != 0
    && (code == 2 || !(RetryLeft(cfg, m, id) && io.retryWrite))
    && (code == 3 && Count(m.handoffs, id) < cfg.maxHandoffs ==>
         !cfg.testMode && !(io.restartKill && io.spawn.SpawnOk?))
  }

  /** A critical task that ends badly aborts the run, is no gap, gives its reason if there was none, and takes every
      listed, writable open task of the branch out of the queue. Any other task that ends badly is one more gap, and
      the run is aborted exactly when it was before or the gaps have reached the tolerance. */
  ghost predicate BadEnd(cfg: Config, s: State, s': State, t: Task, io: OutcomeIo) {
    var m, m', tasks := s.mem, s'.mem, s.disk.tasks[t.id := t];
    && m'.retries == m.retries
    && if Critical(t) then
         && m'.aborted && m'.gaps == m.gaps
         && m'.reason == (if m.reason == "" then "critical_task_failure:" + t.id else m.reason)
         && QueueBlocked(cfg, tasks, s'.disk.tasks, io)
       else
         && m'.gaps == m.gaps + [t.id] && (m'.aborted <==> m.aborted || |m'.gaps| >= cfg.tolerance)
         && m'.reason == (if m.reason == "" && |m'.gaps| >= cfg.tolerance then "gap_tolerance_exceeded" else m.reason)
         && if |m'.gaps| >= cfg.tolerance then QueueBlocked(cfg, tasks, s'.disk.tasks, io) else s'.disk.tasks == tasks
  }

  lemma EndsWithIsBadEnd(cfg: Config, s: State, s1: State, f: Flight, s': State, status: Status,
                         kind: EventKind, io: OutcomeIo)
    requires EndsWith(cfg, s1, f, s', status, kind, io)
    requires s1.disk.tasks == s.disk.tasks && s1.mem == s.mem.(handoffs := s1.mem.handoffs)
    ensures BadEnd(cfg, s, s', f.task.(status := status), io)
  {
  }

  lemma HandoffEndsBadly(cfg: Config, s: State, f: Flight, s': State, io: OutcomeIo)
    requires HandsOff(cfg, s, f, s', io) && EndsBadly(cfg, s.mem, f.task.id, 3, io)
    ensures BadEnd(cfg, s, s', f.task.(status := Failed), io)
  {
    var id := f.task.id;
    var s1: State :|
      && (if Count(s.mem.handoffs, id) >= cfg.maxHandoffs
          then Reported(s, s1, [Event(HandoffLimitReached, id)]) && s1.mem == s.mem
          else Reported(s, s1, []) && s1.mem == HandedOff(s.mem, id))
      && FailsFrom(cfg, s1, f, s', io);
    EndsWithIsBadEnd(cfg, s, s1, f, s', Failed, TaskFailed, io);
  }

  lemma BadEndIsJudged(cfg: Config, s: State, k: nat, code: int, io: OutcomeIo)
    requires Flights(s) && k in s.inflight && EndsBadly(cfg, s.mem, s.inflight[k].task.id, code, io)
    ensures BadEnd(cfg, s, Step(cfg, s, Outcome(k, code, io)),
                   s.inflight[k].task.(status := if code == 2 then Blocked else Failed), io)
  {
    var f, s0, s' := s.inflight[k], Taken(s, k), Step(cfg, s, Outcome(k, code, io));
    assert FlightOk(s0.disk, f);
    ExitCodesMean(cfg, s0, f, code, io);
    if code == 3 {
      HandoffEndsBadly(cfg, s0, f, s', io);
    } else if code == 2 {
      EndsWithIsBadEnd(cfg, s, s0, f, s', Blocked, TaskBlocked, io);
    } else {
      EndsWithIsBadEnd(cfg, s, s0, f, s', Failed, TaskFailed, io);
    }
  }

  /** An orphan that is failed is reported, and judged like any other bad end. */
  lemma OrphanIsJudged(cfg: Config, s: State, id: string, w: string, io: OutcomeIo)
    requires Keyed(s.disk) && FailOrphan(cfg, s, id, w, io).1
    ensures id in s.disk.tasks && s.disk.tasks[id].status !in {Completed, Failed, Blocked}
    ensures var s' := FailOrphan(cfg, s, id, w, io).0;
            && BadEnd(cfg, s, s', s.disk.tasks[id].(status := Failed), io)
            && s.disk.log + [Event(TaskFailed, id)] <= s'.disk.log
  {
    var f := Flight(s.disk.tasks[id], w);
    TerminateTouches(s, f, Failed, TaskFailed, io);
    var s1 := Terminate(s, f, Failed, TaskFailed, io).0;
    ReleaseEffect(PutTask(s, f.task.(status := Failed)), w, io.release);
    assert s1.disk.log == s.disk.log + [Event(TaskFailed, id)];
    TerminalFailureMeans(cfg, s1, f.task, io);
  }
}
