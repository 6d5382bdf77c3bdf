// The watchdog and the dispatcher's answer to it (orch/watchdog.go CheckOnce, orch/dispatch.go
// failStuckTasks and orphanCk).
module Supervision {
  import opened Types
  import opened Ordering
  import opened Machine
  import opened Effects
  import opened Safety
  import opened Orphans
  import opened Recovery
  import opened Persistence
  import Breaker

  /** What one worker's check meets: whether the probe and the read succeed, the session's start, the
      time of the check, and how the restart goes. */
  datatype WatchIo = WatchIo(probed: bool, read: bool, startedAt: int, now: int, kill: bool, spawn: SpawnIo)

  /** A dead session whose handoff budget is spent. */
  datatype Stuck = Stuck(task: string, worker: string)

  datatype Watch = Watch(s: State, failures: seq<Breaker.Failure>, stuck: seq<Stuck>)

  /** A worker's session is gone while its task still has work to do. */
  predicate SessionLost(cfg: Config, d: Disk, w: Worker) {
    && w.active && w.name !in d.sessions
    && w.current != "" && w.current in d.tasks
    && !d.tasks[w.current].status.Terminal() && d.tasks[w.current].Role() in cfg.roles
  }

  /** A restart paid for from the handoff budget, or a place on the stuck list. */
  function Revived(cfg: Config, window: int, v: Watch, w: Worker, t: Task, io: WatchIo): Watch {
    if Count(v.s.mem.handoffs, t.id) >= cfg.maxHandoffs then
      v.(s := Emit(v.s, HandoffLimitReached, t.id), stuck := v.stuck + [Stuck(t.id, w.name)])
    else
      var s1 := Emit(v.s.(mem := v.s.mem.(handoffs := Bump(v.s.mem.handoffs, t.id))), TaskHandoff, t.id);
      var h := if io.now - io.startedAt < window then v.failures + [Breaker.Failure(w.name, io.now)] else v.failures;
      Watch(Restart(s1, w.name, t, io.kill, io.spawn).0, h, v.stuck)
  }

  function CheckWorker(cfg: Config, window: int, v: Watch, w: Worker, io: WatchIo): Watch {
    if !io.probed || !io.read || !SessionLost(cfg, v.s.disk, w) then v
    else Revived(cfg, window, v, w, v.s.disk.tasks[w.current], io)
  }

  function CheckAll(cfg: Config, window: int, v: Watch, l: seq<Worker>, io: string -> WatchIo): Watch
    decreases |l|
  {
    if l == [] then v else CheckAll(cfg, window, CheckWorker(cfg, window, v, l[0], io(l[0].name)), l[1..], io)
  }

  lemma CheckAllNext(cfg: Config, window: int, v: Watch, l: seq<Worker>, i: nat, io: string -> WatchIo)
    requires i < |l|
    ensures CheckAll(cfg, window, v, l[i..], io) ==
            CheckAll(cfg, window, CheckWorker(cfg, window, v, l[i], io(l[i].name)), l[i + 1..], io)
  {
    assert l[i..][0] == l[i] && l[i..][1..] == l[i + 1..];
  }

  // ----- what one check and one cycle record -----

  /** The worker is active on a task of a configured role that has not ended, and its session is gone. */
  predicate Dead(cfg: Config, d: Disk, w: Worker) {
    && w.active && w.name !in d.sessions && w.current != "" && w.current in d.tasks
    && d.tasks[w.current].status !in {Completed, Failed, Blocked}
    && Lookup(d.tasks[w.current].labels, "role") in cfg.roles
  }

  /** A check that can be made finds a dead session. */
  predicate Finds(cfg: Config, d: Disk, w: Worker, io: WatchIo) { io.probed && io.read && Dead(cfg, d, w) }

  predicate BudgetLeft(cfg: Config, s: State, id: string) { Count(s.mem.handoffs, id) < cfg.maxHandoffs }

  /** The rapid failure a check reports to the breaker: a dead session within budget, younger than the window. */
  function Rapid(cfg: Config, window: int, s: State, w: Worker, io: WatchIo): seq<Breaker.Failure> {
    if Finds(cfg, s.disk, w, io) && BudgetLeft(cfg, s, w.current) && io.now - io.startedAt < window
    then [Breaker.Failure(w.name, io.now)] else []
  }

  function NewlyStuck(cfg: Config, s: State, w: Worker, io: WatchIo): seq<Stuck> {
    if Finds(cfg, s.disk, w, io) && !BudgetLeft(cfg, s, w.current) then [Stuck(w.current, w.name)] else []
  }

  /** Without a dead session nothing happens. With one, the budget decides: one handoff is spent, reported, and buys a
      restart; or the limit is reported and the task is listed as stuck. */
  ghost predicate Checked(cfg: Config, window: int, v: Watch, w: Worker, io: WatchIo, v': Watch) {
    var s, s', id := v.s, v'.s, w.current;
    && v'.failures == v.failures + Rapid(cfg, window, s, w, io)
    && v'.stuck == v.stuck + NewlyStuck(cfg, s, w, io)
    && (!Finds(cfg, s.disk, w, io) ==> s' == s)
    && (Finds(cfg, s.disk, w, io) && !BudgetLeft(cfg, s, id) ==>
          s'.mem == s.mem && s'.disk == s.disk.(log := s.disk.log + [Event(HandoffLimitReached, id)]))
    && (Finds(cfg, s.disk, w, io) && BudgetLeft(cfg, s, id) ==>
          && s'.mem == s.mem.(handoffs := s.mem.handoffs[id := Count(s.mem.handoffs, id) + 1])
          && s'.disk.log == s.disk.log + [Event(TaskHandoff, id)]
          && s'.disk.sessions - {w.name} == s.disk.sessions - {w.name}
          && (io.kill && io.spawn.SpawnOk? && w.name in s.disk.workers ==>
                && w.name in s'.disk.sessions && s'.disk.workers == s.disk.workers[w.name := Worker(w.name, true, id)]
                && s'.disk.tasks == s.disk.tasks[id := s.disk.tasks[id].(status := InProgress)]))
  }

  lemma RestartSessions(s: State, w: string, t: Task, kill: bool, io: SpawnIo)
    ensures var s' := Restart(s, w, t, kill, io).0;
            && s'.disk.log == s.disk.log && s'.disk.sessions - {w} == s.disk.sessions - {w}
            && (kill && io.SpawnOk? && w in s.disk.workers && t.id in s.disk.tasks ==>
                  w in s'.disk.sessions && s'.disk.workers == s.disk.workers[w := Worker(w, true, t.id)])
  {
  }

  lemma CheckWorkerMeans(cfg: Config, window: int, v: Watch, w: Worker, io: WatchIo)
    requires Keyed(v.s.disk)
    ensures Checked(cfg, window, v, w, io, CheckWorker(cfg, window, v, w, io))
  {
    assert Dead(cfg, v.s.disk, w) <==> SessionLost(cfg, v.s.disk, w);
    if Finds(cfg, v.s.disk, w, io) && BudgetLeft(cfg, v.s, w.current) {
      var t := v.s.disk.tasks[w.current];
      var s1 := Emit(v.s.(mem := v.s.mem.(handoffs := Bump(v.s.mem.handoffs, t.id))), TaskHandoff, t.id);
      RestartSessions(s1, w.name, t, io.kill, io.spawn);
      RestartShape(s1, w.name, t, io.kill, io.spawn);
    }
  }

  /** The rapid failures of a whole cycle, as the ledger stands at its start. */
  function RapidIn(cfg: Config, window: int, s: State, l: seq<Worker>, io: string -> WatchIo): seq<Breaker.Failure> {
    if l == [] then [] else Rapid(cfg, window, s, l[0], io(l[0].name)) + RapidIn(cfg, window, s, l[1..], io)
  }

  function StuckIn(cfg: Config, s: State, l: seq<Worker>, io: string -> WatchIo): seq<Stuck> {
    if l == [] then [] else NewlyStuck(cfg, s, l[0], io(l[0].name)) + StuckIn(cfg, s, l[1..], io)
  }

  /** No two workers share a name, and no two active ones a task. */
  ghost predicate Separate(l: seq<Worker>) {
    forall i, j :: 0 <= i < j < |l| ==>
      l[i].name != l[j].name && (l[i].active && l[j].active && l[i].current == l[j].current ==> l[i].current == "")
  }

  /** `w` looks the same to the watchdog in both states. */
  ghost predicate Alike(cfg: Config, s: State, s': State, w: Worker) {
    && (Dead(cfg, s.disk, w) <==> Dead(cfg, s'.disk, w))
    && (Dead(cfg, s.disk, w) ==> (BudgetLeft(cfg, s, w.current) <==> BudgetLeft(cfg, s', w.current)))
  }

  lemma CheckLeavesOthers(cfg: Config, window: int, v: Watch, w: Worker, io: WatchIo, u: Worker)
    requires Keyed(v.s.disk) && u.name != w.name && (w.active && u.active && w.current == u.current ==> u.current == "")
    ensures Alike(cfg, v.s, CheckWorker(cfg, window, v, w, io).s, u)
  {
    CheckWorkerMeans(cfg, window, v, w, io);
    CheckWorkerUnsettled(cfg, window, v, w, io);
    var s' := CheckWorker(cfg, window, v, w, io).s;
    assert u.name in s'.disk.sessions - {w.name} <==> u.name in v.s.disk.sessions - {w.name};
  }

  lemma {:induction false} AlikeCycle(cfg: Config, window: int, s: State, s': State, l: seq<Worker>,
                                      io: string -> WatchIo)
    requires forall u :: u in l ==> Alike(cfg, s, s', u)
    ensures RapidIn(cfg, window, s', l, io) == RapidIn(cfg, window, s, l, io)
    ensures StuckIn(cfg, s', l, io) == StuckIn(cfg, s, l, io)
    decreases |l|
  {
    if l != [] {
      assert l[0] in l;
      AlikeCycle(cfg, window, s, s', l[1..], io);
    }
  }

  /** A cycle reports to the breaker exactly the dead, within-budget workers whose sessions were young, in order, and
      lists as stuck exactly the dead ones whose budget is spent. */
  lemma {:induction false} CycleReports(cfg: Config, window: int, v: Watch, l: seq<Worker>, io: string -> WatchIo)
    requires Keyed(v.s.disk) && Separate(l)
    ensures Reports(cfg, window, v, l, io, CheckAll(cfg, window, v, l, io))
    decreases |l|
  {
    if l != [] {
      var v1 := CheckWorker(cfg, window, v, l[0], io(l[0].name));
      FirstReports(cfg, window, v, l, io);
      CycleReports(cfg, window, v1, l[1..], io);
      ReportsJoin(cfg, window, v, v1, l, io, CheckAll(cfg, window, v1, l[1..], io));
    }
  }

  ghost predicate Reports(cfg: Config, window: int, v: Watch, l: seq<Worker>, io: string -> WatchIo, v': Watch) {
    && v'.failures == v.failures + RapidIn(cfg, window, v.s, l, io)
    && v'.stuck == v.stuck + StuckIn(cfg, v.s, l, io)
  }

  lemma FirstReports(cfg: Config, window: int, v: Watch, l: seq<Worker>, io: string -> WatchIo)
    requires Keyed(v.s.disk) && Separate(l) && l != []
    ensures var v1 := CheckWorker(cfg, window, v, l[0], io(l[0].name));
            && Keyed(v1.s.disk) && Separate(l[1..])
            && v1.failures == v.failures + Rapid(cfg, window, v.s, l[0], io(l[0].name))
            && v1.stuck == v.stuck + NewlyStuck(cfg, v.s, l[0], io(l[0].name))
            && RapidIn(cfg, window, v1.s, l[1..], io) == RapidIn(cfg, window, v.s, l[1..], io)
            && StuckIn(cfg, v1.s, l[1..], io) == StuckIn(cfg, v.s, l[1..], io)
  {
    var w, v1 := l[0], CheckWorker(cfg, window, v, l[0], io(l[0].name));
    assert Keyed(v1.s.disk) by { CheckWorkerUnsettled(cfg, window, v, w, io(w.name)); }
    assert Checked(cfg, window, v, w, io(w.name), v1) by { CheckWorkerMeans(cfg, window, v, w, io(w.name)); }
    forall u | u in l[1..] ensures Alike(cfg, v.s, v1.s, u) {
      var j :| 0 <= j < |l[1..]| && l[1..][j] == u;
      assert l[j + 1] == u && l[0].name != l[j + 1].name;
      CheckLeavesOthers(cfg, window, v, w, io(w.name), u);
    }
    AlikeCycle(cfg, window, v.s, v1.s, l[1..], io);
    forall i, j | 0 <= i < j < |l[1..]|
      ensures l[1..][i].name != l[1..][j].name
      ensures l[1..][i].active && l[1..][j].active && l[1..][i].current == l[1..][j].current ==> l[1..][i].current == ""
    {
      assert l[1..][i] == l[i + 1] && l[1..][j] == l[j + 1];
    }
  }

  lemma ReportsJoin(cfg: Config, window: int, v: Watch, v1: Watch, l: seq<Worker>, io: string -> WatchIo, v': Watch)
    requires l != [] && Reports(cfg, window, v1, l[1..], io, v')
    requires v1.failures == v.failures + Rapid(cfg, window, v.s, l[0], io(l[0].name))
    requires v1.stuck == v.stuck + NewlyStuck(cfg, v.s, l[0], io(l[0].name))
    requires RapidIn(cfg, window, v1.s, l[1..], io) == RapidIn(cfg, window, v.s, l[1..], io)
    requires StuckIn(cfg, v1.s, l[1..], io) == StuckIn(cfg, v.s, l[1..], io)
    ensures Reports(cfg, window, v, l, io, v')
  {
    Associative(v.failures, Rapid(cfg, window, v.s, l[0], io(l[0].name)), RapidIn(cfg, window, v.s, l[1..], io));
    Associative(v.stuck, NewlyStuck(cfg, v.s, l[0], io(l[0].name)), StuckIn(cfg, v.s, l[1..], io));
  }

  lemma Associative<T>(a: seq<T>, b: seq<T>, c: seq<T>)
    ensures (a + b) + c == a + (b + c)
  {
  }

  // ----- repeated deaths trip the breaker -----

  /** Checks of worker `n`, one after the other, each finding a young dead session within budget; between them anything
      may be recorded. */
  ghost predicate Deaths(cfg: Config, window: int, vs: seq<Watch>, ws: seq<Worker>, ios: seq<WatchIo>, n: string) {
    && |vs| == |ws| + 1 == |ios| + 1
    && forall i :: 0 <= i < |ws| ==>
         && ws[i].name == n && Rapid(cfg, window, vs[i].s, ws[i], ios[i]) != []
         && Keyed(vs[i].s.disk) && CheckWorker(cfg, window, vs[i], ws[i], ios[i]).failures <= vs[i + 1].failures
  }

  lemma {:induction false} DeathsCount(cfg: Config, window: int, vs: seq<Watch>, ws: seq<Worker>, ios: seq<WatchIo>,
                                       n: string, i: nat, cutoff: int)
    requires Deaths(cfg, window, vs, ws, ios, n) && i < |ws|
    requires forall j :: 0 <= j < |ios| ==> ios[j].now > cutoff
    ensures |Breaker.Recent(CheckWorker(cfg, window, vs[i], ws[i], ios[i]).failures, n, cutoff)| >= i + 1
  {
    CheckWorkerMeans(cfg, window, vs[i], ws[i], ios[i]);
    Breaker.RecentSnoc(vs[i].failures, Breaker.Failure(n, ios[i].now), n, cutoff);
    if i > 0 {
      DeathsCount(cfg, window, vs, ws, ios, n, i - 1, cutoff);
      var h := CheckWorker(cfg, window, vs[i - 1], ws[i - 1], ios[i - 1]).failures;
      assert h <= vs[i - 1 + 1].failures;
      Breaker.RecentGrows(h, vs[i].failures, n, cutoff);
    }
  }

  /** As many of them as the threshold, inside one window, leave the breaker's history overloaded, so it is tripped. */
  lemma DeathsTrip(cfg: Config, window: int, vs: seq<Watch>, ws: seq<Worker>, ios: seq<WatchIo>, n: string)
    requires Deaths(cfg, window, vs, ws, ios, n) && |ws| >= 1
    requires forall j :: 0 <= j < |ios| ==> ios[|ws| - 1].now - window < ios[j].now
    ensures Breaker.Overloaded(vs[|ws|].failures, |ws|, window)
  {
    var last := |ws| - 1;
    var h := CheckWorker(cfg, window, vs[last], ws[last], ios[last]).failures;
    DeathsCount(cfg, window, vs, ws, ios, n, last, ios[last].now - window);
    CheckWorkerMeans(cfg, window, vs[last], ws[last], ios[last]);
    assert h[|h| - 1] == Breaker.Failure(n, ios[last].now);
    assert Breaker.OverloadedAt(h, |h| - 1, |ws|, window);
    assert h <= vs[last + 1].failures;
    Breaker.OverloadedGrows(h, vs[|ws|].failures, |ws|, window);
  }

  // ----- the watchdog never settles a task -----

  /** Task records are kept, or were unsettled and are now in progress; counters move only up to the limit. */
  ghost predicate Unsettled(cfg: Config, s: State, s': State) {
    && Keyed(s'.disk) && s'.inflight == s.inflight && s'.next == s.next
    && s'.mem == s.mem.(handoffs := s'.mem.handoffs)
    && s'.disk.tasks.Keys == s.disk.tasks.Keys && s'.disk.workers.Keys == s.disk.workers.Keys
    && (forall id :: id in s.disk.tasks ==>
          || s'.disk.tasks[id] == s.disk.tasks[id]
          || (!s.disk.tasks[id].status.Terminal() && s'.disk.tasks[id] == s.disk.tasks[id].(status := InProgress)))
    && (forall id :: Spends(cfg, Count(s.mem.handoffs, id), Count(s'.mem.handoffs, id)))
  }

  /** A budget is only ever spent, and never beyond the limit. */
  predicate Spends(cfg: Config, before: nat, after: nat) {
    before <= after && (after == before || after <= cfg.maxHandoffs)
  }

  lemma RestartUnsettled(cfg: Config, s: State, w: string, t: Task, kill: bool, io: SpawnIo)
    requires Keyed(s.disk) && t.id in s.disk.tasks && s.disk.tasks[t.id] == t && !t.status.Terminal()
    ensures Unsettled(cfg, s, Restart(s, w, t, kill, io).0)
  {
    RestartShape(s, w, t, kill, io);
  }

  lemma CheckWorkerUnsettled(cfg: Config, window: int, v: Watch, w: Worker, io: WatchIo)
    requires Keyed(v.s.disk)
    ensures Unsettled(cfg, v.s, CheckWorker(cfg, window, v, w, io).s)
  {
    if io.probed && io.read && SessionLost(cfg, v.s.disk, w) {
      var t := v.s.disk.tasks[w.current];
      var s1 := Emit(v.s.(mem := v.s.mem.(handoffs := Bump(v.s.mem.handoffs, t.id))), TaskHandoff, t.id);
      if Count(v.s.mem.handoffs, t.id) < cfg.maxHandoffs {
        RestartUnsettled(cfg, s1, w.name, t, io.kill, io.spawn);
      }
    }
  }

  lemma UnsettledTrans(cfg: Config, s: State, s1: State, s2: State)
    requires Unsettled(cfg, s, s1) && Unsettled(cfg, s1, s2)
    ensures Unsettled(cfg, s, s2)
  {
    forall id | id in s.disk.tasks
      ensures s2.disk.tasks[id] == s.disk.tasks[id] ||
              (!s.disk.tasks[id].status.Terminal() && s2.disk.tasks[id] == s.disk.tasks[id].(status := InProgress))
    {
      assert id in s1.disk.tasks;
    }
    forall id ensures Spends(cfg, Count(s.mem.handoffs, id), Count(s2.mem.handoffs, id)) {
      assert Spends(cfg, Count(s.mem.handoffs, id), Count(s1.mem.handoffs, id));
      assert Spends(cfg, Count(s1.mem.handoffs, id), Count(s2.mem.handoffs, id));
    }
  }

  /** Whatever fails on the way, a check leaves retries, gaps, abort and terminal records alone. */
  lemma {:induction false} WatchdogNeverSettles(cfg: Config, window: int, v: Watch, l: seq<Worker>,
                                                io: string -> WatchIo)
    requires Keyed(v.s.disk)
    ensures Unsettled(cfg, v.s, CheckAll(cfg, window, v, l, io).s)
    ensures TerminalKept(v.s.disk, CheckAll(cfg, window, v, l, io).s.disk)
    decreases |l|
  {
    if l != [] {
      var v1 := CheckWorker(cfg, window, v, l[0], io(l[0].name));
      CheckWorkerUnsettled(cfg, window, v, l[0], io(l[0].name));
      WatchdogNeverSettles(cfg, window, v1, l[1..], io);
      UnsettledTrans(cfg, v.s, v1.s, CheckAll(cfg, window, v1, l[1..], io).s);
    }
  }

  /** What is handed to the dispatcher is spent and not settled. */
  ghost predicate Spent(cfg: Config, s: State, e: Stuck) {
    && e.task in s.disk.tasks && !s.disk.tasks[e.task].status.Terminal()
    && Count(s.mem.handoffs, e.task) >= cfg.maxHandoffs
  }

  lemma {:induction false} StuckMeansSpent(cfg: Config, window: int, v: Watch, l: seq<Worker>, io: string -> WatchIo)
    requires Keyed(v.s.disk) && forall e :: e in v.stuck ==> Spent(cfg, v.s, e)
    ensures var v' := CheckAll(cfg, window, v, l, io);
            forall e :: e in v'.stuck ==> Spent(cfg, v'.s, e)
    decreases |l|
  {
    if l != [] {
      var v1 := CheckWorker(cfg, window, v, l[0], io(l[0].name));
      CheckWorkerUnsettled(cfg, window, v, l[0], io(l[0].name));
      forall e | e in v1.stuck ensures Spent(cfg, v1.s, e) {
        if e in v.stuck {
          assert Spends(cfg, Count(v.s.mem.handoffs, e.task), Count(v1.s.mem.handoffs, e.task));
        }
      }
      StuckMeansSpent(cfg, window, v1, l[1..], io);
      assert CheckAll(cfg, window, v, l, io) == CheckAll(cfg, window, v1, l[1..], io);
    }
  }

  // ----- one round of supervision repairs every lost session -----

  /** Fails every task of the list that is not settled yet, and counts them. */
  ghost function FailStuck(cfg: Config, s: State, stuck: seq<Stuck>, io: string -> OutcomeIo): (State, nat)
    decreases |stuck|
  {
    if stuck == [] then (s, 0) else
      var e := stuck[0];
      var (s1, failed) := FailOrphan(cfg, s, e.task, e.worker, io(e.task));
      var (s2, n) := FailStuck(cfg, s1, stuck[1..], io);
      (s2, n + if failed then 1 else 0)
  }

  lemma FailStuckNext(cfg: Config, s: State, stuck: seq<Stuck>, i: nat, io: string -> OutcomeIo)
    requires i < |stuck|
    ensures var (s1, failed) := FailOrphan(cfg, s, stuck[i].task, stuck[i].worker, io(stuck[i].task));
            var (s2, n) := FailStuck(cfg, s1, stuck[i + 1..], io);
            FailStuck(cfg, s, stuck[i..], io) == (s2, n + if failed then 1 else 0)
  {
    assert stuck[i..][0] == stuck[i] && stuck[i..][1..] == stuck[i + 1..];
  }

  predicate Smooth(io: WatchIo) { io.probed && io.read && io.kill && io.spawn.SpawnOk? }

  predicate Persisted(io: OutcomeIo) { io.finalWrite && io.release.Released? }

  /** Every worker without its session is on the list or still to be looked at. */
  ghost predicate Handled(cfg: Config, s: State, stuck: seq<Stuck>, later: seq<Worker>) {
    && Keyed(s.disk)
    && forall n :: n in s.disk.workers && SessionLost(cfg, s.disk, s.disk.workers[n]) ==>
         Stuck(s.disk.workers[n].current, n) in stuck || s.disk.workers[n] in later
  }

  /** An undisturbed check of an up-to-date record either finds the session, revives it, or lists the task. */
  lemma SmoothCheck(cfg: Config, window: int, v: Watch, w: Worker, io: WatchIo)
    requires Keyed(v.s.disk) && w.name in v.s.disk.workers && v.s.disk.workers[w.name] == w && Smooth(io)
    ensures var v' := CheckWorker(cfg, window, v, w, io);
            && v'.s.disk.workers == v.s.disk.workers && v.s.disk.sessions <= v'.s.disk.sessions && v.stuck <= v'.stuck
            && (SessionLost(cfg, v'.s.disk, w) ==> Stuck(w.current, w.name) in v'.stuck)
  {
    if SessionLost(cfg, v.s.disk, w) {
      assert v.s.disk.workers[w.name := Worker(w.name, true, w.current)] == v.s.disk.workers;
    }
  }

  lemma {:induction false} SmoothChecks(cfg: Config, window: int, v: Watch, l: seq<Worker>, io: string -> WatchIo)
    requires Handled(cfg, v.s, v.stuck, l) && forall n :: Smooth(io(n))
    requires forall w :: w in l ==> w.name in v.s.disk.workers && v.s.disk.workers[w.name] == w
    ensures var v' := CheckAll(cfg, window, v, l, io); Handled(cfg, v'.s, v'.stuck, [])
    decreases |l|
  {
    if l != [] {
      var w := l[0];
      var v1 := CheckWorker(cfg, window, v, w, io(w.name));
      assert w in l && l == [w] + l[1..];
      SmoothCheck(cfg, window, v, w, io(w.name));
      CheckWorkerUnsettled(cfg, window, v, w, io(w.name));
      forall n | n in v1.s.disk.workers && SessionLost(cfg, v1.s.disk, v1.s.disk.workers[n])
        ensures Stuck(v1.s.disk.workers[n].current, n) in v1.stuck || v1.s.disk.workers[n] in l[1..]
      {
        assert SessionLost(cfg, v.s.disk, v.s.disk.workers[n]);
      }
      SmoothChecks(cfg, window, v1, l[1..], io);
    }
  }

  lemma FailOrphanEffect(cfg: Config, s: State, id: string, w: string, io: OutcomeIo)
    requires Keyed(s.disk) && Persisted(io) && id in s.disk.tasks && !s.disk.tasks[id].status.Terminal()
    ensures var s' := FailOrphan(cfg, s, id, w, io).0;
            && Keyed(s'.disk) && s'.disk.sessions + {w} >= s.disk.sessions
            && s'.disk.workers ==
               (if w in s.disk.workers then s.disk.workers[w := Worker(w, false, "")] else s.disk.workers)
            && Cleaned(s.disk.tasks[id := s.disk.tasks[id].(status := Failed)], s'.disk.tasks)
  {
    var f := Flight(s.disk.tasks[id], w);
    var (s1, ok) := Terminate(s, f, Failed, TaskFailed, io);
    TerminalFailureFrame(cfg, s1, f.task, io);
  }

  /** Failing an orphan settles its task; nobody else loses a session. */
  lemma FailOrphanHandles(cfg: Config, s: State, stuck: seq<Stuck>, io: OutcomeIo)
    requires Handled(cfg, s, stuck, []) && stuck != [] && Persisted(io)
    ensures Handled(cfg, FailOrphan(cfg, s, stuck[0].task, stuck[0].worker, io).0, stuck[1..], [])
  {
    var e := stuck[0];
    assert stuck == [e] + stuck[1..];
    var s' := FailOrphan(cfg, s, e.task, e.worker, io).0;
    if e.task in s.disk.tasks && !s.disk.tasks[e.task].status.Terminal() {
      FailOrphanEffect(cfg, s, e.task, e.worker, io);
      forall n | n in s'.disk.workers && SessionLost(cfg, s'.disk, s'.disk.workers[n])
        ensures Stuck(s'.disk.workers[n].current, n) in stuck[1..]
      {
        assert n != e.worker && SessionLost(cfg, s.disk, s.disk.workers[n]);
      }
    }
  }

  lemma {:induction false} FailStuckHandles(cfg: Config, s: State, stuck: seq<Stuck>, io: string -> OutcomeIo)
    requires Handled(cfg, s, stuck, []) && forall id :: Persisted(io(id))
    ensures Handled(cfg, FailStuck(cfg, s, stuck, io).0, [], [])
    decreases |stuck|
  {
    if stuck != [] {
      FailOrphanHandles(cfg, s, stuck, io(stuck[0].task));
      FailStuckHandles(cfg, FailOrphan(cfg, s, stuck[0].task, stuck[0].worker, io(stuck[0].task)).0, stuck[1..], io);
    }
  }

  /** From any ledger, an undisturbed check and the dispatcher's answer to it leave no active worker with
      an unsettled task and a dead session: it was revived within budget, or its task was failed. */
  lemma SupervisionRepairs(cfg: Config, window: int, v: Watch, io: string -> WatchIo, failIo: string -> OutcomeIo)
    requires Keyed(v.s.disk)
    requires (forall n :: Smooth(io(n))) && (forall id :: Persisted(failIo(id)))
    ensures var v' := CheckAll(cfg, window, v, Roster(v.s.disk), io);
            var d := FailStuck(cfg, v'.s, v'.stuck, failIo).0.disk;
            forall n :: n in d.workers ==> !SessionLost(cfg, d, d.workers[n])
  {
    var l := Roster(v.s.disk);
    RosterIsAll(v.s.disk);
    SmoothChecks(cfg, window, v, l, io);
    var v' := CheckAll(cfg, window, v, l, io);
    FailStuckHandles(cfg, v'.s, v'.stuck, failIo);
  }

  lemma RosterIsAll(d: Disk)
    requires Keyed(d)
    ensures forall n :: n in d.workers ==> d.workers[n] in Roster(d)
    ensures forall w :: w in Roster(d) ==> w.name in d.workers && d.workers[w.name] == w
  {
    var names, l := Names(d.workers.Keys), Roster(d);
    NamesInOrder(d.workers.Keys);
    forall n | n in d.workers ensures d.workers[n] in l {
      var i :| 0 <= i < |names| && names[i] == n;
      assert l[i] == d.workers[n];
    }
    forall w | w in l ensures w.name in d.workers && d.workers[w.name] == w {
      var i :| 0 <= i < |l| && l[i] == w;
      assert names[i] in names;
    }
  }

  // ----- the circuit breaker's victims -----

  /** Fails the first active worker's unsettled task, and no other. */
  ghost function OrphanCheck(cfg: Config, s: State, l: seq<Worker>, io: string -> OutcomeIo): (State, bool)
    decreases |l|
  {
    if l == [] then (s, false)
    else if !l[0].active || l[0].current == "" then OrphanCheck(cfg, s, l[1..], io)
    else
      var (s1, failed) := FailOrphan(cfg, s, l[0].current, l[0].name, io(l[0].current));
      if failed then (s1, true) else OrphanCheck(cfg, s1, l[1..], io)
  }

  ghost predicate NewlyFailed(d: Disk, d': Disk, id: string) {
    id in d'.tasks && d'.tasks[id].status.Failed? && !(id in d.tasks && d.tasks[id].status.Failed?)
  }

  /** A tripped breaker costs at most one task per tick. */
  lemma {:induction false} OneOrphanPerTick(cfg: Config, s: State, l: seq<Worker>,
                                            io: string -> OutcomeIo, id1: string, id2: string)
    requires Keyed(s.disk)
    ensures var s' := OrphanCheck(cfg, s, l, io).0;
            && Keyed(s'.disk) && TerminalKept(s.disk, s'.disk) && s'.disk.tasks.Keys == s.disk.tasks.Keys
            && (NewlyFailed(s.disk, s'.disk, id1) && NewlyFailed(s.disk, s'.disk, id2) ==> id1 == id2)
    decreases |l|
  {
    if l == [] {
    } else if !l[0].active || l[0].current == "" {
      OneOrphanPerTick(cfg, s, l[1..], io, id1, id2);
    } else {
      var id, w, o := l[0].current, l[0].name, io(l[0].current);
      FailOrphanKeepsTerminal(cfg, s, id, w, o);
      FailOrphanTouches(cfg, s, id, w, o);
      if !FailOrphan(cfg, s, id, w, o).1 { OneOrphanPerTick(cfg, s, l[1..], io, id1, id2); }
    }
  }

  /** Active on a task that has not ended. */
  predicate Busy(d: Disk, w: Worker) {
    && w.active && w.current != "" && w.current in d.tasks
    && d.tasks[w.current].status !in {Completed, Failed, Blocked}
  }

  /** The first busy worker's task is failed, and no other; with nobody busy nothing happens. */
  lemma {:induction false} FirstBusyIsFailed(cfg: Config, s: State, l: seq<Worker>, io: string -> OutcomeIo, i: nat)
    requires Keyed(s.disk) && i <= |l| && (forall j :: 0 <= j < i ==> !Busy(s.disk, l[j]))
    requires i < |l| ==> Busy(s.disk, l[i]) && io(l[i].current).finalWrite
    ensures i == |l| ==> OrphanCheck(cfg, s, l, io) == (s, false)
    ensures i < |l| ==> OrphanCheck(cfg, s, l, io) == FailOrphan(cfg, s, l[i].current, l[i].name, io(l[i].current))
    ensures i < |l| ==> OrphanCheck(cfg, s, l, io).1
    ensures i < |l| ==> forall id :: NewlyFailed(s.disk, OrphanCheck(cfg, s, l, io).0.disk, id) <==> id == l[i].current
    decreases |l|
  {
    if l != [] {
      if i == 0 {
        FailOrphanTouches(cfg, s, l[0].current, l[0].name, io(l[0].current));
      } else {
        assert !Busy(s.disk, l[0]);
        forall j | 0 <= j < i - 1 ensures !Busy(s.disk, l[1..][j]) { assert l[1..][j] == l[j + 1]; }
        FirstBusyIsFailed(cfg, s, l[1..], io, i - 1);
      }
    }
  }

  // ----- the watchdog object -----

  class Watchdog {
    const cfg: Config
    const store: World
    const handoffs: HandoffState
    const breaker: Breaker.CircuitBreaker
    var stuckTasks: seq<Stuck>

    constructor (cfg: Config, store: World, handoffs: HandoffState, breaker: Breaker.CircuitBreaker)
      requires handoffs.maxLimit == cfg.maxHandoffs && breaker.Valid()
      ensures this.cfg == cfg && this.store == store && this.handoffs == handoffs && this.breaker == breaker
      ensures Valid() && stuckTasks == []
    {
      this.cfg, this.store, this.handoffs, this.breaker, stuckTasks := cfg, store, handoffs, breaker, [];
    }

    ghost predicate Valid() reads this, breaker { handoffs.maxLimit == cfg.maxHandoffs && breaker.Valid() }

    /** The watchdog's part of a machine state, put into the dispatcher's `s`. */
    ghost function V(s: State): Watch reads this, store, handoffs, breaker {
      var mem := s.mem.(handoffs := handoffs.counts);
      var s' := s.(disk := store.D(), mem := mem, cuts := store.cuts, started := store.started);
      Watch(s', breaker.history, stuckTasks)
    }

    ghost predicate ClockPast(t: int) reads breaker {
      breaker.history != [] ==> breaker.history[|breaker.history| - 1].at <= t
    }

    method Check(ghost s: State, w: Worker, io: WatchIo)
      requires Valid() && Keyed(store.D()) && ClockPast(io.now)
      modifies this, store, handoffs, breaker
      ensures Valid() && ClockPast(io.now)
      ensures V(s) == CheckWorker(cfg, breaker.window, old(V(s)), w, io)
      ensures Checked(cfg, breaker.window, old(V(s)), w, io, V(s))
    {
      CheckWorkerMeans(cfg, breaker.window, V(s), w, io);
      if !w.active || !io.probed || w.name in store.sessions || w.current == "" { return; }
      if !io.read || w.current !in store.tasks { return; }
      var t := store.tasks[w.current];
      if t.status.Terminal() || t.Role() !in cfg.roles { return; }
      Revive(s, w, t, io);
    }

    /** A restart paid for from the handoff budget, or a place on the stuck list. */
    method Revive(ghost s: State, w: Worker, t: Task, io: WatchIo)
      requires Valid() && Keyed(store.D()) && ClockPast(io.now)
      modifies this, store, handoffs, breaker
      ensures Valid() && ClockPast(io.now)
      ensures V(s) == Revived(cfg, breaker.window, old(V(s)), w, t, io)
      ensures var spent := Count(old(handoffs.counts), t.id) >= cfg.maxHandoffs;
              breaker.history == old(breaker.history) +
                if !spent && io.now - io.startedAt < breaker.window then [Breaker.Failure(w.name, io.now)] else []
    {
      var count, ok := handoffs.TryRecord(t.id);
      if !ok {
        store.Emit(HandoffLimitReached, t.id);
        stuckTasks := stuckTasks + [Stuck(t.id, w.name)];
        return;
      }
      store.Emit(TaskHandoff, t.id);
      var tripped := breaker.RecordFailure(w.name, io.startedAt, io.now);
      ok := store.RestartSession(V(s).s, w.name, t, io.kill, io.spawn);
    }

    /** One check cycle over all workers, under a clock that does not run backwards. */
    method CheckOnce(ghost s: State, listed: bool, io: string -> WatchIo)
      requires Valid() && Keyed(store.D())
      requires forall n :: ClockPast(io(n).now)
      requires forall m, n :: StringLess(m, n) ==> io(m).now <= io(n).now
      modifies this, store, handoffs, breaker
      ensures Valid()
      ensures V(s) == if listed then CheckAll(cfg, breaker.window, old(V(s)), Roster(old(store.D())), io) else old(V(s))
      ensures Unsettled(cfg, old(V(s)).s, V(s).s)
      ensures listed && Separate(Roster(old(store.D()))) ==>
                var l, s0 := Roster(old(store.D())), old(V(s)).s;
                && breaker.history == old(breaker.history) + RapidIn(cfg, breaker.window, s0, l, io)
                && stuckTasks == old(stuckTasks) + StuckIn(cfg, s0, l, io)
    {
      if !listed { return; }
      var l := store.ListWorkers();
      ghost var v0 := V(s);
      RosterNames(store.D());
      CheckListed(s, l, io);
      WatchdogNeverSettles(cfg, breaker.window, v0, l, io);
      if Separate(l) { CycleReports(cfg, breaker.window, v0, l, io); }
    }

    method CheckListed(ghost s: State, l: seq<Worker>, io: string -> WatchIo)
      requires Valid() && Keyed(store.D())
      requires forall n :: ClockPast(io(n).now)
      requires forall i, j :: 0 <= i < j < |l| ==> io(l[i].name).now <= io(l[j].name).now
      modifies this, store, handoffs, breaker
      ensures Valid() && V(s) == CheckAll(cfg, breaker.window, old(V(s)), l, io)
    {
      assert l[0..] == l;
      for i := 0 to |l|
        invariant Valid() && Keyed(store.D())
        invariant forall j :: i <= j < |l| ==> ClockPast(io(l[j].name).now)
        invariant CheckAll(cfg, breaker.window, V(s), l[i..], io) == CheckAll(cfg, breaker.window, old(V(s)), l, io)
      {
        CheckAllNext(cfg, breaker.window, V(s), l, i, io);
        CheckWorkerUnsettled(cfg, breaker.window, V(s), l[i], io(l[i].name));
        Check(s, l[i], io(l[i].name));
      }
    }

    method DrainStuckTasks() returns (l: seq<Stuck>)
      modifies this
      ensures l == old(stuckTasks) && stuckTasks == []
    {
      l := stuckTasks;
      stuckTasks := [];
    }
  }

  lemma RosterNames(d: Disk)
    requires Keyed(d)
    ensures var l := Roster(d); forall i, j :: 0 <= i < j < |l| ==> StringLess(l[i].name, l[j].name)
  {
    NamesInOrder(d.workers.Keys);
    var names := Names(d.workers.Keys);
    assert forall i :: 0 <= i < |names| ==> names[i] in names;
  }
}
