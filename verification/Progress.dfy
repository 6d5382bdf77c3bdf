// Every fault-free run in which agents report comes to an end.
module Progress {
  import opened Types
  import opened Graph
  import opened Ordering
  import opened Machine
  import opened Effects
  import opened Safety
  import opened Ticks

  // ----- a measure -----

  ghost function SumOf(keys: set<string>, w: map<string, nat>): nat
    requires keys <= w.Keys
  {
    if keys == {} then 0 else
      var x :| x in keys;
      w[x] + SumOf(keys - {x}, w)
  }

  lemma {:induction false} SumSplit(keys: set<string>, w: map<string, nat>, x: string)
    requires keys <= w.Keys && x in keys
    ensures SumOf(keys, w) == w[x] + SumOf(keys - {x}, w)
    decreases |keys|
  {
    var y :| y in keys && SumOf(keys, w) == w[y] + SumOf(keys - {y}, w);
    if y != x {
      SumSplit(keys - {y}, w, x);
      SumSplit(keys - {x}, w, y);
      assert keys - {y} - {x} == keys - {x} - {y};
    }
  }

  lemma {:induction false} SumSame(keys: set<string>, w: map<string, nat>, w': map<string, nat>)
    requires keys <= w.Keys && keys <= w'.Keys && forall x :: x in keys ==> w'[x] == w[x]
    ensures SumOf(keys, w') == SumOf(keys, w)
    decreases |keys|
  {
    if keys != {} {
      var x :| x in keys;
      SumSplit(keys, w, x);
      SumSplit(keys, w', x);
      SumSame(keys - {x}, w, w');
    }
  }

  function Left(limit: int, used: nat): nat { if used < limit then limit - used else 0 }

  /** Nothing for a finished task; otherwise what its remaining retries and handoffs can still cost. */
  function Weight(cfg: Config, m: Memory, t: Task): nat {
    if t.status.Terminal() then 0 else
      2 * Left(cfg.maxRetries, Count(m.retries, t.id)) + Left(cfg.maxHandoffs, Count(m.handoffs, t.id)) +
      if t.status.Open? then 2 else 1
  }

  function Weights(cfg: Config, s: State): map<string, nat> {
    map id | id in s.disk.tasks :: Weight(cfg, s.mem, s.disk.tasks[id])
  }

  ghost function Measure(cfg: Config, s: State): nat {
    SumOf(s.disk.tasks.Keys, Weights(cfg, s))
  }

  lemma OneLighter(cfg: Config, s: State, s': State, id: string)
    requires s'.disk.tasks.Keys == s.disk.tasks.Keys && id in s.disk.tasks
    requires forall x :: x in s.disk.tasks && x != id ==>
               Weight(cfg, s'.mem, s'.disk.tasks[x]) == Weight(cfg, s.mem, s.disk.tasks[x])
    requires Weight(cfg, s'.mem, s'.disk.tasks[id]) < Weight(cfg, s.mem, s.disk.tasks[id])
    ensures Measure(cfg, s') < Measure(cfg, s)
  {
    var keys, w, w' := s.disk.tasks.Keys, Weights(cfg, s), Weights(cfg, s');
    SumSplit(keys, w, id);
    SumSplit(keys, w', id);
    SumSame(keys - {id}, w, w');
  }

  // ----- orderly states -----

  ghost predicate FlightOfTask(s: State, id: string) { exists k :: k in s.inflight && s.inflight[k].task.id == id }

  ghost predicate FlightOfWorker(s: State, n: string) { exists k :: k in s.inflight && s.inflight[k].worker == n }

  /** Each task is queued, finished, or in progress with an agent on it; each active worker has an agent;
      all tasks belong to the branch and have a configured role; all dependencies are filed. */
  ghost predicate Orderly(cfg: Config, s: State) {
    && Flights(s) && OwnWorkers(cfg, s.disk)
    && RecordsOrderly(cfg, s.disk) && DepsFiled(cfg, s.disk)
    && TasksManned(s) && WorkersManned(s)
  }

  /** A new lifecycle starts out orderly: every task queued, no workers yet. */
  lemma FreshIsOrderly(cfg: Config, s: State)
    requires Keyed(s.disk) && s.disk.workers == map[] && s.inflight == map[] && cfg.maxWorkers >= 1
    requires RecordsOrderly(cfg, s.disk) && DepsFiled(cfg, s.disk)
    requires forall id :: id in s.disk.tasks ==> s.disk.tasks[id].status.Open?
    ensures Orderly(cfg, s)
  {
  }

  ghost predicate RecordsOrderly(cfg: Config, d: Disk) {
    forall id :: id in d.tasks ==> OrderlyRecord(cfg, d.tasks[id])
  }

  predicate OrderlyRecord(cfg: Config, t: Task) {
    && Dispatchable(cfg, t) && t.Branch() == cfg.branch
    && (t.status.Open? ==> t.assignee == "") && !t.status.Assigned?
  }

  ghost predicate DepsFiled(cfg: Config, d: Disk) {
    forall id, dep :: id in d.tasks && dep in Succ(cfg.deps, id) ==> dep in d.tasks
  }

  ghost predicate TasksManned(s: State) {
    forall id :: id in s.disk.tasks && s.disk.tasks[id].status.InProgress? ==> FlightOfTask(s, id)
  }

  ghost predicate WorkersManned(s: State) {
    forall n :: n in s.disk.workers && s.disk.workers[n].active ==> FlightOfWorker(s, n)
  }

  ghost predicate Suitable(cfg: Config) {
    cfg.testMode && cfg.maxWorkers >= 1 && Acyclic(cfg.deps)
  }

  predicate CleanOutcome(io: OutcomeIo) {
    io.retryWrite && io.finalWrite && io.release.Released? && io.listed && io.unblocked == {}
  }

  /** Flights other than `k` are still there. */
  ghost predicate OthersFly(s: State, s': State, k: nat) {
    forall j :: j in s.inflight && j != k ==> j in s'.inflight && s'.inflight[j] == s.inflight[j]
  }

  lemma OtherFlightsKept(s: State, s': State, k: nat, id: string)
    requires k in s.inflight && FlightOfTask(s, id) && id != s.inflight[k].task.id && OthersFly(s, s', k)
    ensures FlightOfTask(s', id)
  {
    var j :| j in s.inflight && s.inflight[j].task.id == id;
    assert j in s'.inflight;
  }

  lemma OtherWorkersKept(s: State, s': State, k: nat, n: string)
    requires k in s.inflight && FlightOfWorker(s, n) && n != s.inflight[k].worker && OthersFly(s, s', k)
    ensures FlightOfWorker(s', n)
  {
    var j :| j in s.inflight && s.inflight[j].worker == n;
    assert j in s'.inflight;
  }

  lemma MannedAfterEnd(s: State, k: nat, s': State, t': Task)
    requires TasksManned(s) && WorkersManned(s) && k in s.inflight && s'.inflight == s.inflight - {k}
    requires t'.id == s.inflight[k].task.id && !t'.status.InProgress?
    requires s'.disk.tasks == s.disk.tasks[t'.id := t']
    requires s'.disk.workers == s.disk.workers[s.inflight[k].worker := Worker(s.inflight[k].worker, false, "")]
    ensures TasksManned(s') && WorkersManned(s')
  {
    assert OthersFly(s, s', k);
    forall id | id in s'.disk.tasks && s'.disk.tasks[id].status.InProgress? ensures FlightOfTask(s', id) {
      OtherFlightsKept(s, s', k, id);
    }
    forall n | n in s'.disk.workers && s'.disk.workers[n].active ensures FlightOfWorker(s', n) {
      OtherWorkersKept(s, s', k, n);
    }
  }

  lemma OwnWorkersKept(cfg: Config, d: Disk, d': Disk)
    requires OwnWorkers(cfg, d) && d'.workers.Keys == d.workers.Keys
    ensures OwnWorkers(cfg, d')
  {
    assert |d'.workers| == |d'.workers.Keys| && |d.workers| == |d.workers.Keys|;
  }

  lemma RecordsAfterWrite(cfg: Config, d: Disk, d': Disk, t': Task)
    requires RecordsOrderly(cfg, d) && DepsFiled(cfg, d) && t'.id in d.tasks && OrderlyRecord(cfg, t')
    requires d'.tasks == d.tasks[t'.id := t']
    ensures RecordsOrderly(cfg, d') && DepsFiled(cfg, d')
  {
  }

  /** The flight's task is finished or queued again, and its worker idle. */
  lemma OrderlyAfterEnd(cfg: Config, s: State, k: nat, s': State, t': Task)
    requires Orderly(cfg, s) && k in s.inflight && Flights(s')
    requires s'.inflight == s.inflight - {k}
    requires t'.id == s.inflight[k].task.id && t'.labels == s.inflight[k].task.labels
    requires t'.status.Terminal() || (t'.status.Open? && t'.assignee == "")
    requires s'.disk.tasks == s.disk.tasks[t'.id := t']
    requires s'.disk.workers == s.disk.workers[s.inflight[k].worker := Worker(s.inflight[k].worker, false, "")]
    ensures Orderly(cfg, s')
  {
    MannedAfterEnd(s, k, s', t');
    LedgerAfterEnd(cfg, s, s.inflight[k], s'.disk, t');
  }

  lemma LedgerAfterEnd(cfg: Config, s: State, f: Flight, d: Disk, t': Task)
    requires OwnWorkers(cfg, s.disk) && RecordsOrderly(cfg, s.disk) && DepsFiled(cfg, s.disk) && FlightOk(s.disk, f)
    requires t'.id == f.task.id && t'.labels == f.task.labels
    requires t'.status.Terminal() || (t'.status.Open? && t'.assignee == "")
    requires d.tasks == s.disk.tasks[t'.id := t']
    requires d.workers == s.disk.workers[f.worker := Worker(f.worker, false, "")]
    ensures OwnWorkers(cfg, d) && RecordsOrderly(cfg, d) && DepsFiled(cfg, d)
  {
    assert d.workers.Keys == s.disk.workers.Keys;
    OwnWorkersKept(cfg, s.disk, d);
    assert OrderlyRecord(cfg, f.task);
    RecordsAfterWrite(cfg, s.disk, d, t');
  }

  lemma OrderlyAfterRelaunch(cfg: Config, s: State, k: nat, s': State)
    requires Orderly(cfg, s) && k in s.inflight && Flights(s') && SameRecords(s, s')
    requires s'.inflight == (s.inflight - {k})[s.next := s.inflight[k]]
    ensures Orderly(cfg, s')
  {
    MannedAfterRelaunch(s, k, s');
  }

  lemma MannedAfterRelaunch(s: State, k: nat, s': State)
    requires TasksManned(s) && WorkersManned(s) && k in s.inflight && SameRecords(s, s')
    requires s'.inflight == (s.inflight - {k})[s.next := s.inflight[k]] && s.next !in s.inflight
    ensures TasksManned(s') && WorkersManned(s')
  {
    assert s.next in s'.inflight && s'.inflight[s.next] == s.inflight[k];
    assert OthersFly(s, s', k);
    forall id | id in s'.disk.tasks && s'.disk.tasks[id].status.InProgress? ensures FlightOfTask(s', id) {
      if id != s.inflight[k].task.id { OtherFlightsKept(s, s', k, id); }
    }
    forall n | n in s'.disk.workers && s'.disk.workers[n].active ensures FlightOfWorker(s', n) {
      if n != s.inflight[k].worker { OtherWorkersKept(s, s', k, n); }
    }
  }

  /** A reported outcome aborts the lifecycle or brings it nearer its end. */
  lemma OutcomeProgress(cfg: Config, s: State, k: nat, code: int, io: OutcomeIo)
    requires Suitable(cfg) && Orderly(cfg, s) && !s.mem.aborted && k in s.inflight && CleanOutcome(io)
    ensures var s' := Step(cfg, s, Outcome(k, code, io));
            s'.mem.aborted || (Orderly(cfg, s') && Measure(cfg, s') < Measure(cfg, s))
  {
    var s' := Step(cfg, s, Outcome(k, code, io));
    FlightsAfterOutcome(cfg, s, k, code, io);
    var fate := OutcomeEffect(cfg, s, k, code, io);
    if !s'.mem.aborted { FateProgress(cfg, s, k, s', fate); }
  }

  lemma FateProgress(cfg: Config, s: State, k: nat, s': State, fate: Fate)
    requires Suitable(cfg) && Orderly(cfg, s) && !s'.mem.aborted && k in s.inflight && Flights(s')
    requires OutcomeFate(cfg, s, k, s', fate, true) && !fate.Held?
    ensures Orderly(cfg, s') && Measure(cfg, s') < Measure(cfg, s)
  {
    if fate.Relaunched? {
      OrderlyAfterRelaunch(cfg, s, k, s');
      LighterAfterRelaunch(cfg, s, k, s');
    } else {
      EndedRecords(cfg, s, k, s', fate);
      var t' := s'.disk.tasks[s.inflight[k].task.id];
      OrderlyAfterEnd(cfg, s, k, s', t');
      LighterAfterEnd(cfg, s, s', s.inflight[k], t', fate.Reopened?);
    }
  }

  lemma LighterAfterRelaunch(cfg: Config, s: State, k: nat, s': State)
    requires Flights(s) && k in s.inflight && OutcomeFate(cfg, s, k, s', Relaunched, true)
    ensures Measure(cfg, s') < Measure(cfg, s)
  {
    assert FlightOk(s.disk, s.inflight[k]);
    OneLighter(cfg, s, s', s.inflight[k].task.id);
  }

  lemma EndedRecords(cfg: Config, s: State, k: nat, s': State, fate: Fate)
    requires Flights(s) && !s'.mem.aborted && k in s.inflight
    requires OutcomeFate(cfg, s, k, s', fate, true) && (fate.Ended? || fate.Reopened?)
    ensures var f := s.inflight[k];
            && f.task.id in s'.disk.tasks
            && var t' := s'.disk.tasks[f.task.id];
            && t'.id == f.task.id && t'.labels == f.task.labels
            && (if fate.Reopened? then t'.status.Open? && t'.assignee == "" else t'.status.Terminal())
            && s'.disk.tasks == s.disk.tasks[t'.id := t']
            && s'.disk.workers == s.disk.workers[f.worker := Worker(f.worker, false, "")]
  {
    var f := s.inflight[k];
    assert FlightOk(s.disk, f);
    forall n | n in s.disk.workers && n != f.worker ensures s'.disk.workers[n] == s.disk.workers[n] { }
  }

  lemma LighterAfterEnd(cfg: Config, s: State, s': State, f: Flight, t': Task, reopened: bool)
    requires FlightOk(s.disk, f) && Keyed(s.disk) && t'.id == f.task.id && s'.disk.tasks == s.disk.tasks[t'.id := t']
    requires s'.mem.handoffs == s.mem.handoffs || s'.mem.handoffs == Bump(s.mem.handoffs, t'.id)
    requires reopened ==> t'.status.Open? && Count(s.mem.retries, t'.id) < cfg.maxRetries
    requires !reopened ==> t'.status.Terminal()
    requires s'.mem.retries == if reopened then Bump(s.mem.retries, t'.id) else s.mem.retries
    ensures Measure(cfg, s') < Measure(cfg, s)
  {
    OneLighter(cfg, s, s', t'.id);
  }

  lemma {:induction false} DrainProgress(cfg: Config, s: State, batch: seq<Report>)
    requires Suitable(cfg) && Orderly(cfg, s) && !s.mem.aborted
    requires forall r :: r in batch ==> CleanOutcome(r.io)
    ensures var s' := Drain(cfg, s, batch);
            || s'.mem.aborted
            || (&& Orderly(cfg, s') && Measure(cfg, s') <= Measure(cfg, s)
                && (Reports(s, batch) ==> Measure(cfg, s') < Measure(cfg, s)))
    decreases |batch|
  {
    if batch != [] {
      var r := batch[0];
      if r.ticket in s.inflight {
        var s1 := Step(cfg, s, Outcome(r.ticket, r.exitCode, r.io));
        OutcomeProgress(cfg, s, r.ticket, r.exitCode, r.io);
        if s1.mem.aborted {
          FlightsStep(cfg, s, Outcome(r.ticket, r.exitCode, r.io));
          DrainStaysAborted(cfg, s1, batch[1..]);
        } else {
          DrainProgress(cfg, s1, batch[1..]);
        }
      } else {
        DrainProgress(cfg, s, batch[1..]);
      }
    }
  }

  lemma DrainStaysAborted(cfg: Config, s: State, batch: seq<Report>)
    requires Flights(s) && s.mem.aborted
    ensures Drain(cfg, s, batch).mem.aborted
  {
    var ss, acts := DrainIsRun(cfg, s, batch);
    AbortIsFinal(cfg, ss, acts, 0, |ss| - 1);
  }

  /** Some agent in flight has reported. */
  ghost predicate Reports(s: State, batch: seq<Report>) {
    batch != [] && batch[0].ticket in s.inflight
  }

  // ----- dispatch -----

  lemma DispatchProgress(cfg: Config, s: State, t: Task, io: DispatchIo)
    requires Suitable(cfg) && Orderly(cfg, s) && !s.mem.aborted && CleanDispatch(io)
    requires Ready(cfg, s.disk, t.id) && s.disk.tasks[t.id] == t
    ensures var (s', v) := DispatchTask(cfg, s, t, io);
            && (v == Stop ==> s' == s && !SlotFree(cfg, s.disk))
            && (v != Stop ==>
                  v == Launched && Orderly(cfg, s') && !s'.mem.aborted && Measure(cfg, s') < Measure(cfg, s))
  {
    assert OrderlyRecord(cfg, t);
    CleanTask(cfg, s, t, io);
    var (s', v) := DispatchTask(cfg, s, t, io);
    if v != Stop {
      FlightsAfterDispatch(cfg, s, t.id, io);
      var w, launched := DispatchEffect(cfg, s, t.id, io);
      LaunchProgress(cfg, s, s', t.id, w);
    }
  }

  lemma LaunchProgress(cfg: Config, s: State, s': State, id: string, w: string)
    requires Orderly(cfg, s) && !s.mem.aborted && id in s.disk.tasks && s.disk.tasks[id].status.Open?
    requires Flights(s') && OwnWorkers(cfg, s'.disk) && DispatchFate(cfg, s, id, s', w, true, true)
    ensures Orderly(cfg, s') && !s'.mem.aborted && Measure(cfg, s') < Measure(cfg, s)
  {
    var t1 := s'.disk.tasks[id];
    MannedAfterLaunch(s, s', id, w, s'.inflight[s.next], t1);
    assert OrderlyRecord(cfg, s.disk.tasks[id]);
    RecordsAfterWrite(cfg, s.disk, s'.disk, t1);
    LaunchIsLighter(cfg, s, s', id, t1);
  }

  lemma LaunchIsLighter(cfg: Config, s: State, s': State, id: string, t1: Task)
    requires id in s.disk.tasks && s.disk.tasks[id].status.Open? && Keyed(s.disk)
    requires t1 == s.disk.tasks[id].(status := InProgress, assignee := t1.assignee)
    requires s'.disk.tasks == s.disk.tasks[id := t1] && s'.mem == s.mem
    ensures Measure(cfg, s') < Measure(cfg, s)
  {
    OneLighter(cfg, s, s', id);
  }

  lemma MannedAfterLaunch(s: State, s': State, id: string, w: string, f: Flight, t1: Task)
    requires TasksManned(s) && WorkersManned(s) && id in s.disk.tasks && s.next !in s.inflight
    requires s'.inflight == s.inflight[s.next := f] && f.worker == w && f.task.id == id
    requires s'.disk.tasks == s.disk.tasks[id := t1]
    requires s'.disk.workers == s.disk.workers[w := Worker(w, true, id)]
    ensures TasksManned(s') && WorkersManned(s')
  {
    assert s.next in s'.inflight;
    forall x | x in s'.disk.tasks && s'.disk.tasks[x].status.InProgress? ensures FlightOfTask(s', x) {
      if x != id {
        var j :| j in s.inflight && s.inflight[j].task.id == x;
        assert j in s'.inflight && s'.inflight[j] == s.inflight[j];
      }
    }
    forall n | n in s'.disk.workers && s'.disk.workers[n].active ensures FlightOfWorker(s', n) {
      if n != w {
        var j :| j in s.inflight && s.inflight[j].worker == n;
        assert j in s'.inflight && s'.inflight[j] == s.inflight[j];
      }
    }
  }

  lemma {:induction false} DispatchAllProgress(cfg: Config, s: State, l: seq<Task>, io: string -> DispatchIo)
    requires Suitable(cfg) && Orderly(cfg, s) && !s.mem.aborted && Fresh(cfg, s, l)
    requires forall id :: CleanDispatch(io(id))
    ensures var (s', ids) := DispatchAll(cfg, s, l, io);
            && Orderly(cfg, s') && !s'.mem.aborted && Measure(cfg, s') <= Measure(cfg, s)
            && (l != [] && SlotFree(cfg, s.disk) ==> Measure(cfg, s') < Measure(cfg, s))
            && (l == [] ==> s' == s)
    decreases |l|
  {
    if l != [] {
      assert l[0] in l;
      DispatchProgress(cfg, s, l[0], io(l[0].id));
      FreshRest(cfg, s, l, io(l[0].id));
      var (s1, v) := DispatchTask(cfg, s, l[0], io(l[0].id));
      if v != Stop { DispatchAllProgress(cfg, s1, l[1..], io); }
    }
  }

  // ----- there is always something to do -----

  /** A finite set of nodes of an acyclic graph has one without an edge back into the set. */
  lemma {:induction false} SinkExists(g: Graph, nodes: set<string>) returns (n: string)
    requires Acyclic(g) && nodes != {}
    ensures n in nodes && forall m :: m in Succ(g, n) ==> m !in nodes
    decreases |nodes|
  {
    var x :| x in nodes;
    if m :| m in Succ(g, x) && m in nodes {
      var below := set y | y in nodes && y != x && Reaches(g, x, y);
      ReachesSelf(g, m);
      ReachesStep(g, x, m, m);
      if m == x { ReachesSelf(g, x); EdgeOnCycle(g, x, x); }
      assert m in below && below < nodes;
      SubsetSize(below, nodes - {x});
      n := SinkExists(g, below);
      forall y | y in Succ(g, n) ensures y !in nodes {
        ReachesSelf(g, y);
        ReachesStep(g, n, y, y);
        ReachesTrans(g, x, n, y);
        if y == x { EdgeOnCycle(g, n, x); }
      }
    } else {
      n := x;
    }
  }

  /** Not all finished and nobody working: some task is ready and some worker free. */
  lemma SomethingToDo(cfg: Config, s: State)
    requires Suitable(cfg) && Orderly(cfg, s)
    requires exists id :: id in s.disk.tasks && !s.disk.tasks[id].status.Terminal()
    ensures s.inflight != map[] || (ReadySet(cfg, s.disk) != {} && SlotFree(cfg, s.disk))
  {
    if s.inflight == map[] {
      var waiting := set id | id in s.disk.tasks && !s.disk.tasks[id].status.Terminal();
      var id :| id in s.disk.tasks && !s.disk.tasks[id].status.Terminal();
      assert id in waiting;
      var n := SinkExists(cfg.deps, waiting);
      assert OrderlyRecord(cfg, s.disk.tasks[n]);
      assert s.disk.tasks[n].status.Open? by { assert !FlightOfTask(s, n); }
      assert Ready(cfg, s.disk, n);
      assert s.disk.tasks[n] in ReadySet(cfg, s.disk);
      NobodyActive(cfg, s);
    }
  }

  lemma NobodyActive(cfg: Config, s: State)
    requires Suitable(cfg) && Orderly(cfg, s) && s.inflight == map[]
    ensures Active(s.disk) == {} && SlotFree(cfg, s.disk)
  {
    assert forall n :: !FlightOfWorker(s, n);
    SlotFreeIff(cfg, s.disk);
  }

  // ----- ticks -----

  predicate CleanTick(io: TickIo) { io.readyRead && io.tasksListed && io.workersListed && io.lockRefreshed }

  /** A tick in which the agents in flight have been heard either ends the lifecycle or makes headway. */
  lemma TickProgress(cfg: Config, s: State, batch: seq<Report>, io: TickIo)
    requires Suitable(cfg) && Orderly(cfg, s) && !s.mem.aborted && s.disk.tasks != map[]
    requires CleanTick(io) && (forall id :: CleanDispatch(io.dispatch(id)))
    requires forall r :: r in batch ==> CleanOutcome(r.io)
    requires s.inflight != map[] ==> Reports(s, batch)
    ensures var (s', ids, r) := Tick(cfg, s, batch, io);
            || r == GapAbort || r == LifecycleDone
            || (&& r == Continue && Orderly(cfg, s') && !s'.mem.aborted && s'.disk.tasks != map[]
                && Measure(cfg, s') < Measure(cfg, s))
  {
    DrainPhase(cfg, s, batch);
    var s1 := Drain(cfg, s, batch);
    if !s1.mem.aborted {
      DispatchPhase(cfg, s1, io);
      if s.inflight == map[] {
        NothingReported(cfg, s, batch);
        IdleDispatchPhase(cfg, s, io);
      }
    }
  }

  lemma DrainPhase(cfg: Config, s: State, batch: seq<Report>)
    requires Suitable(cfg) && Orderly(cfg, s) && !s.mem.aborted && s.disk.tasks != map[]
    requires forall r :: r in batch ==> CleanOutcome(r.io)
    ensures var s' := Drain(cfg, s, batch);
            || s'.mem.aborted
            || (Orderly(cfg, s') && s'.disk.tasks != map[] && Measure(cfg, s') <= Measure(cfg, s)
                && (Reports(s, batch) ==> Measure(cfg, s') < Measure(cfg, s)))
  {
    DrainProgress(cfg, s, batch);
    TasksStay(cfg, s, batch);
    var id :| id in s.disk.tasks;
    assert id in Drain(cfg, s, batch).disk.tasks;
  }

  /** The dispatch half of a tick never loses ground. */
  lemma DispatchPhase(cfg: Config, s: State, io: TickIo)
    requires Suitable(cfg) && Orderly(cfg, s) && !s.mem.aborted && s.disk.tasks != map[]
    requires forall id :: CleanDispatch(io.dispatch(id))
    ensures var s2 := DispatchAll(cfg, s, Sort(ReadySet(cfg, s.disk)), io.dispatch).0;
            Orderly(cfg, s2) && !s2.mem.aborted && s2.disk.tasks != map[] && Measure(cfg, s2) <= Measure(cfg, s)
  {
    ReadyIsFresh(cfg, s);
    var ready := Sort(ReadySet(cfg, s.disk));
    DispatchAllProgress(cfg, s, ready, io.dispatch);
    DispatchTasksStay(cfg, s, ready, io.dispatch);
    var id :| id in s.disk.tasks;
    assert id in DispatchAll(cfg, s, ready, io.dispatch).0.disk.tasks;
  }

  /** With nobody working it launches something, unless everything is finished. */
  lemma IdleDispatchPhase(cfg: Config, s: State, io: TickIo)
    requires Suitable(cfg) && Orderly(cfg, s) && !s.mem.aborted && s.disk.tasks != map[] && s.inflight == map[]
    requires forall id :: CleanDispatch(io.dispatch(id))
    ensures var s2 := DispatchAll(cfg, s, Sort(ReadySet(cfg, s.disk)), io.dispatch).0;
            Finished(cfg, s2.disk) || Measure(cfg, s2) < Measure(cfg, s)
  {
    ReadyIsFresh(cfg, s);
    var ready := Sort(ReadySet(cfg, s.disk));
    DispatchAllProgress(cfg, s, ready, io.dispatch);
    if exists id :: id in s.disk.tasks && !s.disk.tasks[id].status.Terminal() {
      SomethingToDo(cfg, s);
      var t :| t in ReadySet(cfg, s.disk);
      assert t in ready;
    } else {
      NothingLeft(cfg, s, ready);
    }
  }

  lemma HasElement(l: seq<Task>)
    ensures l != [] ==> exists t :: t in l
  {
    if l != [] { assert l[0] in l; }
  }

  lemma NothingLeft(cfg: Config, s: State, ready: seq<Task>)
    requires Suitable(cfg) && Orderly(cfg, s) && s.inflight == map[] && s.disk.tasks != map[]
    requires forall id :: id in s.disk.tasks ==> s.disk.tasks[id].status.Terminal()
    requires forall t :: t in ready ==> t in ReadySet(cfg, s.disk)
    ensures ready == [] && Finished(cfg, s.disk)
  {
    HasElement(ready);
    NobodyActive(cfg, s);
    var id :| id in s.disk.tasks;
    assert OrderlyRecord(cfg, s.disk.tasks[id]);
    assert s.disk.tasks[id] in BranchTasks(cfg, s.disk);
  }

  lemma {:induction false} NothingReported(cfg: Config, s: State, batch: seq<Report>)
    requires s.inflight == map[]
    ensures Drain(cfg, s, batch) == s
    decreases |batch|
  {
    if batch != [] { NothingReported(cfg, s, batch[1..]); }
  }

  lemma TasksStay(cfg: Config, s: State, batch: seq<Report>)
    requires Flights(s)
    ensures s.disk.tasks.Keys <= Drain(cfg, s, batch).disk.tasks.Keys
  {
    var ss, acts := DrainIsRun(cfg, s, batch);
    KeysGrow(cfg, ss, acts, |ss| - 1);
  }

  lemma DispatchTasksStay(cfg: Config, s: State, l: seq<Task>, io: string -> DispatchIo)
    requires Flights(s) && !s.mem.aborted && Fresh(cfg, s, l)
    ensures s.disk.tasks.Keys <= DispatchAll(cfg, s, l, io).0.disk.tasks.Keys
  {
    var ss, acts := DispatchAllIsRun(cfg, s, l, io);
    KeysGrow(cfg, ss, acts, |ss| - 1);
  }

  /** Tasks are never deleted. */
  lemma {:induction false} KeysGrow(cfg: Config, ss: seq<State>, acts: seq<Action>, i: nat)
    requires IsRun(cfg, ss, acts) && Flights(ss[0]) && i < |ss|
    ensures ss[0].disk.tasks.Keys <= ss[i].disk.tasks.Keys
  {
    if i > 0 {
      KeysGrow(cfg, ss, acts, i - 1);
      FlightsAlways(cfg, ss, acts, i - 1);
      match acts[i - 1]
      case SessionEnds(_) =>
      case Outcome(k, code, io) => var fate := OutcomeEffect(cfg, ss[i - 1], k, code, io);
      case Dispatch(id, io) => var w, launched := DispatchEffect(cfg, ss[i - 1], id, io);
    }
  }

  /** A sequence of fault-free ticks, each hearing from an agent when one is in flight, none of which ended
      the lifecycle. */
  ghost predicate Unfinished(cfg: Config, ss: seq<State>, batches: seq<seq<Report>>, ios: seq<TickIo>) {
    && |ss| == |batches| + 1 == |ios| + 1
    && forall i :: 0 <= i < |batches| ==>
         && CleanTick(ios[i]) && (forall id :: CleanDispatch(ios[i].dispatch(id)))
         && (forall r :: r in batches[i] ==> CleanOutcome(r.io))
         && (ss[i].inflight != map[] ==> Reports(ss[i], batches[i]))
         && ss[i + 1] == Tick(cfg, ss[i], batches[i], ios[i]).0
         && Tick(cfg, ss[i], batches[i], ios[i]).2 != GapAbort
         && Tick(cfg, ss[i], batches[i], ios[i]).2 != LifecycleDone
  }

  /** A tick that did not end the lifecycle left it orderly and nearer its end. */
  ghost predicate Underway(cfg: Config, s: State) { Orderly(cfg, s) && !s.mem.aborted && s.disk.tasks != map[] }

  lemma NextUnderway(cfg: Config, ss: seq<State>, batches: seq<seq<Report>>, ios: seq<TickIo>, i: nat)
    requires Suitable(cfg) && Unfinished(cfg, ss, batches, ios) && i < |batches| && Underway(cfg, ss[i])
    ensures Underway(cfg, ss[i + 1]) && Measure(cfg, ss[i + 1]) < Measure(cfg, ss[i])
  {
    TickProgress(cfg, ss[i], batches[i], ios[i]);
  }

  lemma {:induction false} HeadwayEveryTick(cfg: Config, ss: seq<State>, batches: seq<seq<Report>>,
                                            ios: seq<TickIo>, i: nat)
    requires ss != [] && Suitable(cfg) && Underway(cfg, ss[0])
    requires Unfinished(cfg, ss, batches, ios) && i < |ss|
    ensures Underway(cfg, ss[i]) && Measure(cfg, ss[i]) + i <= Measure(cfg, ss[0])
  {
    if i > 0 {
      HeadwayEveryTick(cfg, ss, batches, ios, i - 1);
      NextUnderway(cfg, ss, batches, ios, i - 1);
    }
  }

  /** So at most `Measure` ticks go by before one reports LifecycleDone or GapAbort. */
  lemma EveryRunEnds(cfg: Config, ss: seq<State>, batches: seq<seq<Report>>, ios: seq<TickIo>)
    requires Suitable(cfg) && ss != [] && Orderly(cfg, ss[0]) && !ss[0].mem.aborted && ss[0].disk.tasks != map[]
    requires Unfinished(cfg, ss, batches, ios)
    ensures |batches| <= Measure(cfg, ss[0])
  {
    HeadwayEveryTick(cfg, ss, batches, ios, |ss| - 1);
  }
}
