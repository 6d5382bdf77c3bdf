// One tick: drain the reported outcomes, dispatch the ready tasks, look for the end
// (orch/dispatch.go Tick, Drain, dispatch, checkTermination).
module Ticks {
  import opened Types
  import opened Graph
  import opened Ordering
  import opened Machine
  import opened Effects
  import opened Safety

  /** An agent's exit code on the channel, and what the I/O calls of its processing will return. */
  datatype Report = Report(ticket: nat, exitCode: int, io: OutcomeIo)

  ghost function Drain(cfg: Config, s: State, batch: seq<Report>): State
    decreases |batch|
  {
    if batch == [] then s else
      var r := batch[0];
      var s1 := if r.ticket in s.inflight then Step(cfg, s, Outcome(r.ticket, r.exitCode, r.io)) else s;
      Drain(cfg, s1, batch[1..])
  }

  /** Dispatches the snapshot in order and stops when no worker is free; returns the launched ids. */
  ghost function DispatchAll(cfg: Config, s: State, l: seq<Task>, io: string -> DispatchIo): (State, seq<string>)
    decreases |l|
  {
    if l == [] then (s, []) else
      var (s1, v) := DispatchTask(cfg, s, l[0], io(l[0].id));
      if v == Stop then (s1, []) else
        var (s2, ids) := DispatchAll(cfg, s1, l[1..], io);
        (s2, if v == Launched then [l[0].id] + ids else ids)
  }

  datatype TickIo = TickIo(readyRead: bool, dispatch: string -> DispatchIo, tasksListed: bool, workersListed: bool,
                           lockRefreshed: bool)

  datatype TickResult = GapAbort | LifecycleDone | TickError | Continue

  ghost function Tick(cfg: Config, s: State, batch: seq<Report>, io: TickIo): (State, seq<string>, TickResult) {
    var s1 := Drain(cfg, s, batch);
    if s1.mem.aborted then (s1, [], GapAbort)
    else if !io.readyRead then (s1, [], TickError)
    else
      var (s2, ids) := DispatchAll(cfg, s1, Sort(ReadySet(cfg, s1.disk)), io.dispatch);
      if io.tasksListed && io.workersListed && Finished(cfg, s2.disk) then (s2, ids, LifecycleDone)
      else (s2, ids, if io.lockRefreshed then Continue else TickError)
  }

  // ----- a tick is a run of the machine -----

  lemma PrependRun(cfg: Config, s: State, a: Action, ss: seq<State>, acts: seq<Action>)
    requires Enabled(cfg, s, a) && IsRun(cfg, ss, acts) && ss[0] == Step(cfg, s, a)
    ensures IsRun(cfg, [s] + ss, [a] + acts)
  {
    var ss', acts' := [s] + ss, [a] + acts;
    forall i | 0 <= i < |acts'| ensures Enabled(cfg, ss'[i], acts'[i]) && ss'[i + 1] == Step(cfg, ss'[i], acts'[i]) {
      if i > 0 { assert ss'[i] == ss[i - 1] && acts'[i] == acts[i - 1] && ss'[i + 1] == ss[i]; }
    }
  }

  lemma JoinRuns(cfg: Config, ss: seq<State>, acts: seq<Action>, tt: seq<State>, bcts: seq<Action>)
    requires IsRun(cfg, ss, acts) && IsRun(cfg, tt, bcts) && tt[0] == ss[|ss| - 1]
    ensures IsRun(cfg, ss + tt[1..], acts + bcts)
    ensures (ss + tt[1..])[|acts + bcts|] == tt[|tt| - 1]
  {
    var ss', acts' := ss + tt[1..], acts + bcts;
    forall i | 0 <= i < |acts'| ensures Enabled(cfg, ss'[i], acts'[i]) && ss'[i + 1] == Step(cfg, ss'[i], acts'[i]) {
      if i >= |acts| { assert ss'[i] == tt[i - |acts|] && ss'[i + 1] == tt[i - |acts| + 1]; }
    }
  }

  lemma {:induction false} DrainIsRun(cfg: Config, s: State, batch: seq<Report>)
    returns (ss: seq<State>, acts: seq<Action>)
    ensures IsRun(cfg, ss, acts) && ss[0] == s && ss[|ss| - 1] == Drain(cfg, s, batch)
    decreases |batch|
  {
    if batch == [] {
      ss, acts := [s], [];
    } else {
      var r := batch[0];
      if r.ticket in s.inflight {
        var a := Outcome(r.ticket, r.exitCode, r.io);
        ss, acts := DrainIsRun(cfg, Step(cfg, s, a), batch[1..]);
        PrependRun(cfg, s, a, ss, acts);
        ss, acts := [s] + ss, [a] + acts;
      } else {
        ss, acts := DrainIsRun(cfg, s, batch[1..]);
      }
    }
  }

  /** The rest of the snapshot is still what the store holds, and still ready. */
  ghost predicate Fresh(cfg: Config, s: State, l: seq<Task>) {
    && Sorted(l)
    && forall t :: t in l ==> Ready(cfg, s.disk, t.id) && s.disk.tasks[t.id] == t
  }

  lemma FreshRest(cfg: Config, s: State, l: seq<Task>, io: DispatchIo)
    requires Flights(s) && !s.mem.aborted && Fresh(cfg, s, l) && l != []
    ensures var s1 := Step(cfg, s, Dispatch(l[0].id, io));
            Flights(s1) && !s1.mem.aborted && Fresh(cfg, s1, l[1..])
  {
    var a := Dispatch(l[0].id, io);
    var s1 := Step(cfg, s, a);
    FlightsStep(cfg, s, a);
    TerminalKeptStep(cfg, s, a);
    var w, launched := DispatchEffect(cfg, s, l[0].id, io);
    forall t | t in l[1..] ensures Ready(cfg, s1.disk, t.id) && s1.disk.tasks[t.id] == t {
      var i :| 0 <= i < |l[1..]| && l[1..][i] == t;
      assert l[i + 1] == t;
      TaskLessTotal(l[0], l[0]);
      assert t.id != l[0].id;
      assert s1.disk.tasks[t.id] == s.disk.tasks[t.id];
    }
  }

  lemma {:induction false} DispatchAllIsRun(cfg: Config, s: State, l: seq<Task>, io: string -> DispatchIo)
    returns (ss: seq<State>, acts: seq<Action>)
    requires Flights(s) && !s.mem.aborted && Fresh(cfg, s, l)
    ensures IsRun(cfg, ss, acts) && ss[0] == s && ss[|ss| - 1] == DispatchAll(cfg, s, l, io).0
    decreases |l|
  {
    if l == [] {
      ss, acts := [s], [];
    } else {
      var a := Dispatch(l[0].id, io(l[0].id));
      assert l[0] in l;
      var s1 := Step(cfg, s, a);
      FreshRest(cfg, s, l, io(l[0].id));
      if DispatchTask(cfg, s, l[0], io(l[0].id)).1 == Stop {
        ss, acts := [s, s1], [a];
      } else {
        ss, acts := DispatchAllIsRun(cfg, s1, l[1..], io);
        PrependRun(cfg, s, a, ss, acts);
        ss, acts := [s] + ss, [a] + acts;
      }
    }
  }

  lemma ReadyIsFresh(cfg: Config, s: State)
    requires Keyed(s.disk)
    ensures Fresh(cfg, s, Sort(ReadySet(cfg, s.disk))) && DistinctTasks(ReadySet(cfg, s.disk))
  {
    assert DistinctTasks(ReadySet(cfg, s.disk));
  }

  /** What holds over every run of the machine holds over every sequence of ticks. */
  lemma TickIsRun(cfg: Config, s: State, batch: seq<Report>, io: TickIo) returns (ss: seq<State>, acts: seq<Action>)
    requires Flights(s)
    ensures IsRun(cfg, ss, acts) && ss[0] == s && ss[|ss| - 1] == Tick(cfg, s, batch, io).0
  {
    ss, acts := DrainIsRun(cfg, s, batch);
    var s1 := Drain(cfg, s, batch);
    FlightsAlways(cfg, ss, acts, |ss| - 1);
    if !s1.mem.aborted && io.readyRead {
      ReadyIsFresh(cfg, s1);
      var tt, bcts := DispatchAllIsRun(cfg, s1, Sort(ReadySet(cfg, s1.disk)), io.dispatch);
      JoinRuns(cfg, ss, acts, tt, bcts);
      ss, acts := ss + tt[1..], acts + bcts;
    }
  }

  // ----- what a tick reports -----

  /** Dispatching moves no counter and never aborts. */
  lemma {:induction false} DispatchKeepsMemory(cfg: Config, s: State, l: seq<Task>, io: string -> DispatchIo)
    requires Flights(s) && !s.mem.aborted && Fresh(cfg, s, l)
    ensures DispatchAll(cfg, s, l, io).0.mem == s.mem
    decreases |l|
  {
    if l != [] {
      assert l[0] in l;
      var w, launched := DispatchEffect(cfg, s, l[0].id, io(l[0].id));
      FreshRest(cfg, s, l, io(l[0].id));
      var (s1, v) := DispatchTask(cfg, s, l[0], io(l[0].id));
      if v != Stop { DispatchKeepsMemory(cfg, s1, l[1..], io); }
    }
  }

  /** Some branch task exists, every one of them has ended, and no worker is active. */
  ghost predicate AllOver(cfg: Config, d: Disk) {
    && (exists id :: id in d.tasks && Lookup(d.tasks[id].labels, "branch") == cfg.branch)
    && (forall id :: id in d.tasks && Lookup(d.tasks[id].labels, "branch") == cfg.branch ==>
          d.tasks[id].status in {Completed, Failed, Blocked})
    && (forall n :: n in d.workers ==> !d.workers[n].active)
  }

  lemma FinishedMeans(cfg: Config, d: Disk)
    ensures Finished(cfg, d) <==> AllOver(cfg, d)
  {
    assert forall id :: id in d.tasks && d.tasks[id].Branch() == cfg.branch ==> d.tasks[id] in BranchTasks(cfg, d);
    assert (forall n :: n in d.workers ==> !d.workers[n].active) <==> Active(d) == {} by {
      assert forall n :: n in d.workers && d.workers[n].active ==> n in Active(d);
    }
  }

  lemma NobodyFlies(s: State)
    requires Flights(s) && forall n :: n in s.disk.workers ==> !s.disk.workers[n].active
    ensures s.inflight == map[]
  {
    InflightBounded(s);
    assert Active(s.disk) == {};
  }

  lemma TickKeepsFlights(cfg: Config, s: State, batch: seq<Report>, io: TickIo)
    requires Flights(s)
    ensures Flights(Tick(cfg, s, batch, io).0)
  {
    var ss, acts := TickIsRun(cfg, s, batch, io);
    FlightsAlways(cfg, ss, acts, |ss| - 1);
  }

  /** GapAbort exactly when aborted. LifecycleDone exactly when all reads work and all is over, and then nothing is in
      flight either. */
  lemma TickResults(cfg: Config, s: State, batch: seq<Report>, io: TickIo)
    requires Flights(s)
    ensures var (s', ids, r) := Tick(cfg, s, batch, io);
            && (r == GapAbort <==> s'.mem.aborted)
            && (r == LifecycleDone <==>
                !s'.mem.aborted && io.readyRead && io.tasksListed && io.workersListed && AllOver(cfg, s'.disk))
            && (r == LifecycleDone ==> s'.inflight == map[])
  {
    var s1 := Drain(cfg, s, batch);
    var (s', ids, r) := Tick(cfg, s, batch, io);
    TickKeepsFlights(cfg, s, batch, io);
    if !s1.mem.aborted && io.readyRead {
      assert s'.mem == s1.mem by {
        var ss, acts := DrainIsRun(cfg, s, batch);
        FlightsAlways(cfg, ss, acts, |ss| - 1);
        ReadyIsFresh(cfg, s1);
        DispatchKeepsMemory(cfg, s1, Sort(ReadySet(cfg, s1.disk)), io.dispatch);
      }
    }
    FinishedMeans(cfg, s'.disk);
    if r == LifecycleDone { NobodyFlies(s'); }
  }

  // ----- worker names -----

  function Value(s: string): int {
    if s == [] then 0 else 10 * Value(s[..|s| - 1]) + (s[|s| - 1] as int - '0' as int)
  }

  lemma {:induction false} ValueDigits(n: nat)
    ensures Value(Digits(n)) == n && |Digits(n)| >= 1
  {
    if n < 10 {
      assert Digits(n)[..0] == [];
    } else {
      ValueDigits(n / 10);
      var d := Digits(n);
      assert d[..|d| - 1] == Digits(n / 10);
    }
  }

  lemma WorkerNameValue(n: nat)
    ensures Value(WorkerName(n)[2..]) == n
  {
    ValueDigits(n);
    if n < 10 {
      var s := "0" + Digits(n);
      assert Digits(n) == [('0' as int + n) as char];
      assert s[..1] == "0" && "0"[..0] == "";
      assert Value("0") == 0;
      assert WorkerName(n)[2..] == s;
    } else {
      assert WorkerName(n)[2..] == Digits(n);
    }
  }

  /** The pool only ever held the workers Allocate creates. */
  ghost predicate OwnWorkers(cfg: Config, d: Disk) {
    && |d.workers| <= cfg.maxWorkers
    && forall n :: n in d.workers ==> exists i :: 1 <= i <= |d.workers| && n == WorkerName(i)
  }

  lemma NextNameIsFresh(cfg: Config, d: Disk)
    requires OwnWorkers(cfg, d)
    ensures WorkerName(|d.workers| + 1) !in d.workers
  {
    var name := WorkerName(|d.workers| + 1);
    if name in d.workers {
      var i :| 1 <= i <= |d.workers| && name == WorkerName(i);
      WorkerNameValue(i);
      WorkerNameValue(|d.workers| + 1);
    }
  }

  // ----- fault-free dispatch -----

  predicate CleanDispatch(io: DispatchIo) {
    && io.escalationCreated && io.blockWrite && io.workersListed && io.workerCreated && io.assign.AssignOk?
    && io.reread && io.startWrite && io.activeWrite && io.spawn.SpawnOk? && io.workerReread && io.failWrite
    && io.release.Released?
  }

  predicate Dispatchable(cfg: Config, t: Task) { t.Role() != ESCALATION && t.Role() in cfg.roles }

  ghost predicate SlotFree(cfg: Config, d: Disk) { Idle(d) != {} || |d.workers| < cfg.maxWorkers }

  lemma ActiveSplit(d: Disk)
    ensures |Active(d)| + |Idle(d)| == |d.workers|
  {
    assert d.workers.Keys == Active(d) + Idle(d);
    assert |d.workers| == |d.workers.Keys|;
  }

  /** A slot is free exactly while fewer workers are active than the pool allows. */
  lemma SlotFreeIff(cfg: Config, d: Disk)
    requires |d.workers| <= cfg.maxWorkers
    ensures SlotFree(cfg, d) <==> |Active(d)| < cfg.maxWorkers
  {
    ActiveSplit(d);
  }

  lemma CleanTask(cfg: Config, s: State, t: Task, io: DispatchIo)
    requires Flights(s) && !s.mem.aborted && Ready(cfg, s.disk, t.id) && s.disk.tasks[t.id] == t
    requires OwnWorkers(cfg, s.disk) && CleanDispatch(io)
    ensures var (s1, v) := DispatchTask(cfg, s, t, io);
            && OwnWorkers(cfg, s1.disk)
            && (if !Dispatchable(cfg, t) then v == Skipped && |Active(s1.disk)| == |Active(s.disk)|
                else if SlotFree(cfg, s.disk) then v == Launched && |Active(s1.disk)| == |Active(s.disk)| + 1
                else v == Stop && s1 == s)
  {
    var (s1, v) := DispatchTask(cfg, s, t, io);
    if t.Role() == ESCALATION {
    } else if t.Role() !in cfg.roles {
      EscalateEffect(cfg, s, t, io);
      assert Active(s1.disk) == Active(s.disk);
    } else {
      NextNameIsFresh(cfg, s.disk);
      AllocateEffect(cfg, s, io);
      if SlotFree(cfg, s.disk) {
        CleanLaunch(cfg, s, t, io);
        LaunchedPool(cfg, s, t, io);
      }
    }
  }

  lemma CleanLaunch(cfg: Config, s: State, t: Task, io: DispatchIo)
    requires Flights(s) && !s.mem.aborted && Ready(cfg, s.disk, t.id) && s.disk.tasks[t.id] == t
    requires OwnWorkers(cfg, s.disk) && CleanDispatch(io) && Dispatchable(cfg, t) && SlotFree(cfg, s.disk)
    ensures DispatchTask(cfg, s, t, io).1 == Launched
  {
    NextNameIsFresh(cfg, s.disk);
    AllocateEffect(cfg, s, io);
    var (s1, slot) := Allocate(cfg, s, io);
    AssignEffect(s1, t.id, slot.value, io.assign);
    var (s2, held) := Assign(s1, t.id, slot.value, io.assign);
    assert held;
    BeginClean(cfg, s2, s2.disk.tasks[t.id], slot.value, io);
  }

  lemma BeginClean(cfg: Config, s: State, t: Task, w: string, io: DispatchIo)
    requires CleanDispatch(io) && t.id in s.disk.tasks && w in s.disk.workers
    ensures Begin(cfg, s, t, w, io).1 == Launched
  {
  }

  lemma LaunchedPool(cfg: Config, s: State, t: Task, io: DispatchIo)
    requires Flights(s) && !s.mem.aborted && Ready(cfg, s.disk, t.id) && s.disk.tasks[t.id] == t
    requires OwnWorkers(cfg, s.disk) && CleanDispatch(io) && DispatchTask(cfg, s, t, io).1 == Launched
    ensures var s1 := DispatchTask(cfg, s, t, io).0;
            OwnWorkers(cfg, s1.disk) && |Active(s1.disk)| == |Active(s.disk)| + 1
  {
    var w := LaunchedWorker(cfg, s, t, io);
    ActivatedPool(cfg, s.disk, DispatchTask(cfg, s, t, io).0.disk, w, t.id);
  }

  lemma ActivatedPool(cfg: Config, d: Disk, d1: Disk, w: string, id: string)
    requires OwnWorkers(cfg, d) && w !in Active(d) && d1.workers == d.workers[w := Worker(w, true, id)]
    requires w !in d.workers ==> w == WorkerName(|d.workers| + 1) && |d.workers| < cfg.maxWorkers
    ensures OwnWorkers(cfg, d1) && |Active(d1)| == |Active(d)| + 1
  {
    assert Active(d1) == Active(d) + {w};
    ActivatedCount(d, d1, w);
    forall n | n in d1.workers ensures exists i :: 1 <= i <= |d1.workers| && n == WorkerName(i) {
      if n in d.workers {
        var i :| 1 <= i <= |d.workers| && n == WorkerName(i);
      } else {
        assert n == WorkerName(|d1.workers|);
      }
    }
  }

  lemma ActivatedCount(d: Disk, d1: Disk, w: string)
    requires d1.workers.Keys == d.workers.Keys + {w}
    ensures |d1.workers| == |d.workers| + if w in d.workers then 0 else 1
  {
    assert |d1.workers| == |d1.workers.Keys| && |d.workers| == |d.workers.Keys|;
    if w in d.workers { assert d1.workers.Keys == d.workers.Keys; }
  }

  /** The worker that was launched was idle, or is new and carries the next number. */
  lemma LaunchedWorker(cfg: Config, s: State, t: Task, io: DispatchIo) returns (w: string)
    requires Flights(s) && !s.mem.aborted && Ready(cfg, s.disk, t.id) && s.disk.tasks[t.id] == t
    requires DispatchTask(cfg, s, t, io).1 == Launched
    ensures DispatchTask(cfg, s, t, io).0.disk.workers == s.disk.workers[w := Worker(w, true, t.id)]
    ensures w !in Active(s.disk)
    ensures w !in s.disk.workers ==> w == WorkerName(|s.disk.workers| + 1) && |s.disk.workers| < cfg.maxWorkers
  {
    AllocateEffect(cfg, s, io);
    var (s1, slot) := Allocate(cfg, s, io);
    w := slot.value;
    var launched := AllocatedEffect(cfg, s, s1, t, w, io);
  }

  function KeepDispatchable(cfg: Config, l: seq<Task>): seq<string> {
    if l == [] then [] else
      (if Dispatchable(cfg, l[0]) then [l[0].id] else []) + KeepDispatchable(cfg, l[1..])
  }

  /** The first `k` entries, or all of them. */
  function FirstOf(q: seq<string>, k: int): seq<string> {
    if k <= 0 then [] else if k >= |q| then q else q[..k]
  }

  lemma FirstOfCons(x: string, q: seq<string>, k: int)
    requires k > 0
    ensures FirstOf([x] + q, k) == [x] + FirstOf(q, k - 1)
  {
  }

  lemma {:induction false} WorkConservingLoop(cfg: Config, s: State, l: seq<Task>, io: string -> DispatchIo)
    requires Flights(s) && !s.mem.aborted && Fresh(cfg, s, l) && OwnWorkers(cfg, s.disk)
    requires forall id :: CleanDispatch(io(id))
    ensures Conserves(cfg, s, l, io)
    decreases |l|
  {
    if l != [] {
      var s1, v := WorkConservingStep(cfg, s, l, io);
      if v != Stop { WorkConservingLoop(cfg, s1, l[1..], io); }
      ConservesNext(cfg, s, s1, v, l, io);
    }
  }

  /** Exactly the first dispatchable tasks, as many as there are free slots, are launched. */
  ghost predicate Conserves(cfg: Config, s: State, l: seq<Task>, io: string -> DispatchIo) {
    DispatchAll(cfg, s, l, io).1 == FirstOf(KeepDispatchable(cfg, l), cfg.maxWorkers - |Active(s.disk)|)
  }

  lemma ConservesNext(cfg: Config, s: State, s1: State, v: Verdict, l: seq<Task>, io: string -> DispatchIo)
    requires l != [] && (s1, v) == DispatchTask(cfg, s, l[0], io(l[0].id))
    requires v != Stop ==> Conserves(cfg, s1, l[1..], io)
    requires NextVerdict(cfg, l[0], v, cfg.maxWorkers - |Active(s.disk)|)
    requires |Active(s1.disk)| == |Active(s.disk)| + if v == Launched then 1 else 0
    ensures Conserves(cfg, s, l, io)
  {
    var free := cfg.maxWorkers - |Active(s.disk)|;
    FirstOfNext(cfg, l, v, free, if v == Stop then [] else DispatchAll(cfg, s1, l[1..], io).1);
  }

  /** The first ready task is skipped, launched on a free slot, or stops the loop for want of one. */
  lemma WorkConservingStep(cfg: Config, s: State, l: seq<Task>, io: string -> DispatchIo)
    returns (s1: State, v: Verdict)
    requires Flights(s) && !s.mem.aborted && Fresh(cfg, s, l) && OwnWorkers(cfg, s.disk) && l != []
    requires forall id :: CleanDispatch(io(id))
    ensures (s1, v) == DispatchTask(cfg, s, l[0], io(l[0].id))
    ensures Flights(s1) && !s1.mem.aborted && Fresh(cfg, s1, l[1..]) && OwnWorkers(cfg, s1.disk)
    ensures NextVerdict(cfg, l[0], v, cfg.maxWorkers - |Active(s.disk)|)
    ensures |Active(s1.disk)| == |Active(s.disk)| + if v == Launched then 1 else 0
  {
    var t := l[0];
    assert t in l;
    SlotFreeIff(cfg, s.disk);
    CleanTask(cfg, s, t, io(t.id));
    FreshRest(cfg, s, l, io(t.id));
    s1, v := DispatchTask(cfg, s, t, io(t.id)).0, DispatchTask(cfg, s, t, io(t.id)).1;
  }

  predicate NextVerdict(cfg: Config, t: Task, v: Verdict, free: int) {
    v == if !Dispatchable(cfg, t) then Skipped else if free > 0 then Launched else Stop
  }

  lemma FirstOfNext(cfg: Config, l: seq<Task>, v: Verdict, free: int, rest: seq<string>)
    requires l != [] && NextVerdict(cfg, l[0], v, free)
    requires v == Stop ==> rest == []
    requires v != Stop ==> rest == FirstOf(KeepDispatchable(cfg, l[1..]), if v == Launched then free - 1 else free)
    ensures FirstOf(KeepDispatchable(cfg, l), free) == if v == Launched then [l[0].id] + rest else rest
  {
    if v == Launched {
      FirstOfCons(l[0].id, KeepDispatchable(cfg, l[1..]), free);
    } else if v == Skipped {
      assert KeepDispatchable(cfg, l) == KeepDispatchable(cfg, l[1..]);
    }
  }

  /** A fault-free tick launches as many tasks as there are free workers, first come first served
      in (priority, id) order, and holds none back. */
  lemma WorkConservingDispatch(cfg: Config, s: State, io: string -> DispatchIo)
    requires Flights(s) && !s.mem.aborted && OwnWorkers(cfg, s.disk)
    requires forall id :: CleanDispatch(io(id))
    ensures var ready := Sort(ReadySet(cfg, s.disk));
            var queue := KeepDispatchable(cfg, ready);
            && MostUrgentFirst(ready) && (forall t :: t in ready <==> t in ReadySet(cfg, s.disk))
            && DispatchAll(cfg, s, ready, io).1 == FirstOf(queue, cfg.maxWorkers - |Active(s.disk)|)
            && MostUrgentLaunched(cfg, ready, DispatchAll(cfg, s, ready, io).1)
  {
    var ready := Sort(ReadySet(cfg, s.disk));
    ReadyIsFresh(cfg, s);
    WorkConservingLoop(cfg, s, ready, io);
    SortedMeans(ready);
    forall t, u | t in ready && u in ready ensures t.id == u.id ==> t == u { }
    FirstAreUrgent(cfg, ready, cfg.maxWorkers - |Active(s.disk)|);
  }

  /** Nothing that waits is more urgent than anything launched. */
  ghost predicate MostUrgentLaunched(cfg: Config, ready: seq<Task>, launched: seq<string>) {
    forall t, u | t in ready && u in ready && t.id in launched && u.id !in launched && Dispatchable(cfg, u) ::
      t.priority < u.priority || (t.priority == u.priority && Smaller(t.id, u.id))
  }

  lemma {:induction false} KeptFrom(cfg: Config, l: seq<Task>, id: string)
    requires id in KeepDispatchable(cfg, l)
    ensures exists t :: t in l && t.id == id
  {
    if l[0].id == id { assert l[0] in l; } else { KeptFrom(cfg, l[1..], id); }
  }

  lemma {:induction false} FirstAreUrgent(cfg: Config, l: seq<Task>, k: int)
    requires Sorted(l) && forall t, u :: t in l && u in l && t.id == u.id ==> t == u
    ensures MostUrgentLaunched(cfg, l, FirstOf(KeepDispatchable(cfg, l), k))
    decreases |l|
  {
    var ids := FirstOf(KeepDispatchable(cfg, l), k);
    if l != [] && k > 0 {
      var rest := l[1..];
      assert l == [l[0]] + rest;
      var more := FirstOf(KeepDispatchable(cfg, rest), if Dispatchable(cfg, l[0]) then k - 1 else k);
      FirstAreUrgent(cfg, rest, if Dispatchable(cfg, l[0]) then k - 1 else k);
      assert ids == (if Dispatchable(cfg, l[0]) then [l[0].id] + more else more) by {
        if Dispatchable(cfg, l[0]) { FirstOfCons(l[0].id, KeepDispatchable(cfg, rest), k); }
      }
      forall t, u | t in l && u in l && t.id in ids && u.id !in ids && Dispatchable(cfg, u)
        ensures t.priority < u.priority || (t.priority == u.priority && Smaller(t.id, u.id))
      {
        if t.id in more {
          KeptFrom(cfg, rest, t.id);
          assert u in rest;
        } else {
          assert t == l[0] && u in rest;
          var j :| 0 <= j < |rest| && rest[j] == u;
          assert TaskLess(l[0], l[j + 1]);
          StringLessMeans(t.id, u.id);
        }
      }
    }
  }
}
