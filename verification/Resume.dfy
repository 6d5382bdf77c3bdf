// Crash recovery (orch/resume.go): what Reconcile makes of a disk.
module Resume {
  import opened Types
  import opened Machine
  import opened Effects
  import opened Safety
  import opened Writes
  import opened Crash

  predicate Held(t: Task) { (t.status.Assigned? || t.status.InProgress?) && t.assignee != "" }

  /** A task in progress whose session still runs. */
  predicate Live(d: Disk, t: Task) { t.status.InProgress? && Held(t) && t.assignee in d.sessions }

  /** Held, but the session is gone or was never started for it. */
  predicate Stale(branch: string, d: Disk, t: Task) { t.Branch() == branch && Held(t) && !Live(d, t) }

  function Reset(t: Task): Task { t.(status := Open, assignee := "") }

  function Settled(branch: string, d: Disk, t: Task): Task { if Stale(branch, d, t) then Reset(t) else t }

  function LiveIds(branch: string, d: Disk): set<string> {
    set id | id in d.tasks && d.tasks[id].Branch() == branch && Live(d, d.tasks[id])
  }

  /** The sessions that belong to a task in progress. */
  function Expected(branch: string, d: Disk): set<string> {
    set id | id in LiveIds(branch, d) :: d.tasks[id].assignee
  }

  function SettledWorker(branch: string, d: Disk, w: Worker): Worker {
    if !w.active || (w.current != "" && w.current in LiveIds(branch, d)) then w else Worker(w.name, false, "")
  }

  /** Stale tasks back in the queue, unexpected sessions gone (but for those whose kill failed),
      workers without a live task idle. */
  function Reconciled(branch: string, d: Disk, unkilled: set<string>): Disk {
    Disk((map id | id in d.tasks :: Settled(branch, d, d.tasks[id])),
         (map n | n in d.workers :: SettledWorker(branch, d, d.workers[n])),
         (set n | n in d.sessions && (n in Expected(branch, d) || n in unkilled)),
         d.log)
  }

  // ----- what survives and what is reset, field by field -----

  /** The agent of this branch task still runs: the task is in progress and its assignee has a session. */
  predicate Running(branch: string, d: Disk, id: string) {
    && id in d.tasks && Lookup(d.tasks[id].labels, "branch") == branch
    && d.tasks[id].status == InProgress && d.tasks[id].assignee != "" && d.tasks[id].assignee in d.sessions
  }

  /** Assigned or in progress on the branch, but nobody runs it. */
  predicate Abandoned(branch: string, d: Disk, id: string) {
    && id in d.tasks && Lookup(d.tasks[id].labels, "branch") == branch
    && (d.tasks[id].status == Assigned || d.tasks[id].status == InProgress) && d.tasks[id].assignee != ""
    && !Running(branch, d, id)
  }

  /** Active, but not on a running task. */
  predicate Idles(branch: string, d: Disk, w: Worker) {
    w.active && (w.current == "" || !Running(branch, d, w.current))
  }

  /** Running tasks keep their record, their session and their workers; abandoned tasks are queued again; workers
      of anything else are idle; sessions of anything else are gone, but for failed kills. */
  ghost predicate Rebuilt(branch: string, d: Disk, r: Disk, unkilled: set<string>) {
    && r.tasks.Keys == d.tasks.Keys && r.workers.Keys == d.workers.Keys && r.log == d.log
    && (forall id :: id in d.tasks ==>
          r.tasks[id] == if Abandoned(branch, d, id) then d.tasks[id].(status := Open, assignee := "") else d.tasks[id])
    && (forall n :: n in d.workers ==>
          r.workers[n] == if Idles(branch, d, d.workers[n]) then Worker(d.workers[n].name, false, "") else d.workers[n])
    && (forall n :: n in r.sessions <==> n in d.sessions && (n in unkilled || HasAgent(branch, d, n)))
  }

  /** The session of a running task's assignee. */
  ghost predicate HasAgent(branch: string, d: Disk, n: string) {
    exists id :: Running(branch, d, id) && d.tasks[id].assignee == n
  }

  lemma ReconciledMeans(branch: string, d: Disk, unkilled: set<string>)
    ensures Rebuilt(branch, d, Reconciled(branch, d, unkilled), unkilled)
  {
    forall id | id in d.tasks ensures Running(branch, d, id) <==> id in LiveIds(branch, d) { }
    forall n ensures n in Expected(branch, d) <==> HasAgent(branch, d, n) {
      if HasAgent(branch, d, n) {
        var id :| Running(branch, d, id) && d.tasks[id].assignee == n;
        assert id in LiveIds(branch, d);
      }
    }
  }

  /** What a resumed dispatcher starts from. */
  ghost predicate Restored(branch: string, d: Disk, r: Disk) {
    && r.tasks.Keys == d.tasks.Keys && r.log == d.log
    // every active worker runs a live task that names it
    && (forall n :: n in r.workers && r.workers[n].active ==>
          && r.workers[n].current in r.tasks && n in r.sessions
          && r.tasks[r.workers[n].current].status.InProgress? && r.tasks[r.workers[n].current].assignee == n)
    // every other task is terminal and untouched, or waits unassigned in the queue
    && (forall id :: id in r.tasks ==>
          || (r.tasks[id].status.Terminal() && r.tasks[id] == d.tasks[id])
          || (r.tasks[id].status.Open? && r.tasks[id].assignee == "")
          || (r.tasks[id].status.InProgress? && r.tasks[id] == d.tasks[id] && HeldBy(r, id, r.tasks[id].assignee)))
    && TerminalKept(d, r)
    // the surviving sessions are those of the active workers
    && r.sessions == Active(r)
    // running agents survive, and only they
    && Rebuilt(branch, d, r, {})
  }

  lemma ReconcileRestores(branch: string, d: Disk)
    requires Recoverable(branch, d)
    ensures Restored(branch, d, Reconciled(branch, d, {}))
  {
    ReconciledMeans(branch, d, {});
    var r := Reconciled(branch, d, {});
    forall n | n in r.sessions ensures n in Active(r) {
      var id :| id in LiveIds(branch, d) && d.tasks[id].assignee == n;
      assert HeldBy(d, id, n);
    }
  }

  /** Reconciling twice is reconciling once, on any disk. */
  lemma ReconcileIdempotent(branch: string, d: Disk)
    ensures Reconciled(branch, Reconciled(branch, d, {}), {}) == Reconciled(branch, d, {})
  {
    var r := Reconciled(branch, d, {});
    forall id | id in d.tasks && d.tasks[id].Branch() == branch ensures Live(r, r.tasks[id]) <==> Live(d, d.tasks[id]) {
      if Live(d, d.tasks[id]) {
        assert id in LiveIds(branch, d);
        assert d.tasks[id].assignee in Expected(branch, d);
      }
    }
    assert LiveIds(branch, r) == LiveIds(branch, d);
    assert Expected(branch, r) == Expected(branch, d);
    var rr := Reconciled(branch, r, {});
    assert rr.tasks == r.tasks;
    assert rr.workers == r.workers;
    assert rr.sessions == r.sessions;
  }

  /** `c` is a disk met while Reconcile works on `d`: some stale tasks reset, then some unexpected
      sessions killed, and some workers made idle. */
  ghost predicate Between(branch: string, d: Disk, c: Disk) {
    && c.tasks.Keys == d.tasks.Keys && c.workers.Keys == d.workers.Keys && c.log == d.log
    && (forall id :: id in d.tasks ==> c.tasks[id] == d.tasks[id] || c.tasks[id] == Settled(branch, d, d.tasks[id]))
    && c.sessions <= d.sessions && (forall n :: n in d.sessions && n in Expected(branch, d) ==> n in c.sessions)
    && (c.sessions != d.sessions ==> forall id :: id in d.tasks ==> c.tasks[id] == Settled(branch, d, d.tasks[id]))
    && (forall n :: n in d.workers ==>
          c.workers[n] == d.workers[n] || c.workers[n] == SettledWorker(branch, d, d.workers[n]))
  }

  lemma BetweenLive(branch: string, d: Disk, c: Disk, id: string)
    requires Between(branch, d, c) && id in d.tasks && d.tasks[id].Branch() == branch
    ensures Live(c, c.tasks[id]) <==> Live(d, d.tasks[id])
    ensures Live(d, d.tasks[id]) ==> c.tasks[id] == d.tasks[id]
    ensures Settled(branch, c, c.tasks[id]) == Settled(branch, d, d.tasks[id])
  {
    if Live(d, d.tasks[id]) {
      assert id in LiveIds(branch, d);
      assert d.tasks[id].assignee in Expected(branch, d);
    }
  }

  /** A crash inside Reconcile is harmless: starting over reaches the same disk. */
  lemma ReconcileRestartable(branch: string, d: Disk, c: Disk)
    requires Between(branch, d, c)
    ensures Reconciled(branch, c, {}) == Reconciled(branch, d, {})
  {
    forall id | id in d.tasks && d.tasks[id].Branch() == branch
      ensures Live(c, c.tasks[id]) <==> Live(d, d.tasks[id])
      ensures Live(d, d.tasks[id]) ==> c.tasks[id] == d.tasks[id]
      ensures Settled(branch, c, c.tasks[id]) == Settled(branch, d, d.tasks[id])
    {
      BetweenLive(branch, d, c, id);
    }
    assert LiveIds(branch, c) == LiveIds(branch, d);
    assert Expected(branch, c) == Expected(branch, d);
    var rc, rd := Reconciled(branch, c, {}), Reconciled(branch, d, {});
    assert rc.tasks == rd.tasks;
    assert rc.workers == rd.workers;
    assert rc.sessions == rd.sessions;
  }

  /** The result is a consistent ledger again, so the next run may crash in turn. */
  lemma ResumedIsConsistent(cfg: Config, d: Disk, mem: Memory, started: map<string, nat>)
    requires Recoverable(cfg.branch, d)
    ensures Consistent(cfg, State(Reconciled(cfg.branch, d, {}), mem, map[], 0, [], started))
  {
    ReconcileRestores(cfg.branch, d);
    ReconciledRecoverable(cfg.branch, d, Reconciled(cfg.branch, d, {}));
    assert SingleAssignment(Reconciled(cfg.branch, d, {}));
  }

  lemma ReconciledRecoverable(b: string, d: Disk, r: Disk)
    requires Recoverable(b, d) && Restored(b, d, r)
    ensures Recoverable(b, r)
  {
    assert Keyed(r);
    forall id | id in r.tasks ensures Labelled(b, r.tasks[id]) { assert Labelled(b, d.tasks[id]); }
    forall id | id in r.tasks && r.tasks[id].status.InProgress? ensures HeldBy(r, id, r.tasks[id].assignee) { }
    assert Faithful(r);
  }

  lemma LostSessionsRecoverable(branch: string, d: Disk, lost: set<string>)
    requires Recoverable(branch, d)
    ensures Recoverable(branch, d.(sessions := d.sessions - lost))
  {
  }

  /** The disk was written after the first `n` writes. */
  ghost predicate WrittenAfter(cuts: seq<Disk>, n: nat, cut: Disk) {
    exists c :: n <= c < |cuts| && cuts[c] == cut
  }

  /** Cut a run after any of its writes, let any agents die with it: Reconcile restores the ledger, a second
      Reconcile changes nothing, what it leaves is fit for another run, and every record that was terminal in a
      state before the cut is still there, unchanged. */
  lemma CrashRecovery(cfg: Config, ss: seq<State>, acts: seq<Action>, i: nat, cut: Disk, lost: set<string>,
                      mem: Memory, started: map<string, nat>)
    requires IsRun(cfg, ss, acts) && Consistent(cfg, ss[0]) && i < |ss|
    requires forall j :: 0 <= j < |acts| ==> Recorded(acts[j])
    requires cut in ss[i].cuts
    ensures var d := cut.(sessions := cut.sessions - lost);
            var r := Reconciled(cfg.branch, d, {});
            && Restored(cfg.branch, d, r)
            && Reconciled(cfg.branch, r, {}) == r
            && Consistent(cfg, State(r, mem, map[], 0, [], started))
            && forall h :: 0 <= h <= i && WrittenAfter(ss[i].cuts, |ss[h].cuts|, cut) ==> TerminalKept(ss[h].disk, r)
  {
    EveryCutIsRecoverable(cfg, ss, acts, i);
    LostSessionsRecoverable(cfg.branch, cut, lost);
    var d := cut.(sessions := cut.sessions - lost);
    ReconcileRestores(cfg.branch, d);
    ReconcileIdempotent(cfg.branch, d);
    ResumedIsConsistent(cfg, d, mem, started);
    var r := Reconciled(cfg.branch, d, {});
    forall h | 0 <= h <= i && WrittenAfter(ss[i].cuts, |ss[h].cuts|, cut) ensures TerminalKept(ss[h].disk, r) {
      CutKeepsTerminal(cfg, ss, acts, h, i, cut);
      TerminalKeptTrans(ss[h].disk, d, r);
    }
  }

  lemma CutKeepsTerminal(cfg: Config, ss: seq<State>, acts: seq<Action>, h: nat, i: nat, cut: Disk)
    requires IsRun(cfg, ss, acts) && Flights(ss[0]) && h <= i < |ss| && WrittenAfter(ss[i].cuts, |ss[h].cuts|, cut)
    ensures TerminalKept(ss[h].disk, cut)
  {
    TerminalIrreversible(cfg, ss, acts, h, i);
    var c :| |ss[h].cuts| <= c < |ss[i].cuts| && ss[i].cuts[c] == cut;
  }
}
