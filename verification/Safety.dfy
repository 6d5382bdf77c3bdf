// Safety over whole runs of the watchdog-free dispatcher, whatever its I/O calls return.
module Safety {
  import opened Types
  import opened Graph
  import opened Machine
  import opened Effects

  // ----- outcomes stay with their workers -----

  /** Two flights of one task would be two flights of one worker. */
  lemma OneFlightPerTask(s: State, j: nat, k: nat)
    requires Flights(s) && j in s.inflight && k in s.inflight && s.inflight[j].task.id == s.inflight[k].task.id
    ensures j == k
  {
  }

  lemma FrameKeepsFlight(s: State, s': State, id: string, w: string, f: Flight)
    requires Frame(s, s', id, w) && FlightOk(s.disk, f) && f.task.id != id && f.worker != w
    ensures FlightOk(s'.disk, f)
  {
  }

  lemma FlightsAfterOutcome(cfg: Config, s: State, k: nat, code: int, io: OutcomeIo)
    requires Flights(s) && k in s.inflight
    ensures Flights(Step(cfg, s, Outcome(k, code, io)))
  {
    var s' := Step(cfg, s, Outcome(k, code, io));
    var fate := OutcomeEffect(cfg, s, k, code, io);
    var f, b := s.inflight[k], Base(s, k, s');
    if fate.Reopened? || fate.Ended? {
      if fate.Reopened? { ReopenedFrame(cfg, b, f, s', io.release.Released?); }
      forall j | j in s'.inflight ensures j < s'.next && FlightOk(s'.disk, s'.inflight[j]) {
        if s.inflight[j].task.id == f.task.id { OneFlightPerTask(s, j, k); }
        FrameKeepsFlight(b, s', f.task.id, f.worker, s.inflight[j]);
      }
    } else if fate.Relaunched? {
      RelaunchKeepsFlights(s, k, s');
    }
  }

  lemma RelaunchKeepsFlights(s: State, k: nat, s': State)
    requires Flights(s) && k in s.inflight && SameRecords(s, s')
    requires s'.inflight == (s.inflight - {k})[s.next := s.inflight[k]] && s'.next == s.next + 1
    ensures Flights(s')
  {
  }

  lemma FlightsAfterLaunch(cfg: Config, s: State, id: string, s': State, w: string, launched: bool, released: bool)
    requires Flights(s) && DispatchEnabled(s, id) && DispatchFate(cfg, s, id, s', w, launched, released)
    ensures Flights(s')
  {
    forall j | j in s.inflight ensures FlightOk(s'.disk, s.inflight[j]) && s.inflight[j].worker != w {
      assert s.inflight[j].worker in Active(s.disk);
      FrameKeepsFlight(s, s', id, w, s.inflight[j]);
    }
  }

  lemma FlightsAfterDispatch(cfg: Config, s: State, id: string, io: DispatchIo)
    requires Flights(s) && Enabled(cfg, s, Dispatch(id, io))
    ensures Flights(Step(cfg, s, Dispatch(id, io)))
  {
    var w, launched := DispatchEffect(cfg, s, id, io);
    FlightsAfterLaunch(cfg, s, id, Step(cfg, s, Dispatch(id, io)), w, launched, io.release.Released?);
  }

  lemma FlightsStep(cfg: Config, s: State, a: Action)
    requires Flights(s) && Enabled(cfg, s, a)
    ensures Flights(Step(cfg, s, a))
  {
    match a
    case SessionEnds(_) =>
    case Outcome(k, code, io) => FlightsAfterOutcome(cfg, s, k, code, io);
    case Dispatch(id, io) => FlightsAfterDispatch(cfg, s, id, io);
  }

  lemma ReopenedFrame(cfg: Config, s: State, f: Flight, s': State, released: bool)
    requires ReopenedBy(cfg, s, f, s', released) && Keyed(s.disk) && FlightOk(s.disk, f)
    ensures Frame(s, s', f.task.id, f.worker)
  {
  }

  lemma {:induction false} FlightsAlways(cfg: Config, ss: seq<State>, acts: seq<Action>, i: nat)
    requires IsRun(cfg, ss, acts) && Flights(ss[0]) && i < |ss|
    ensures Flights(ss[i])
  {
    if i > 0 {
      FlightsAlways(cfg, ss, acts, i - 1);
      FlightsStep(cfg, ss[i - 1], acts[i - 1]);
    }
  }

  // ----- terminal irreversibility -----

  /** Terminal records of `d` are untouched in `d'`. */
  ghost predicate TerminalKept(d: Disk, d': Disk) {
    forall id :: id in d.tasks && d.tasks[id].status.Terminal() ==> id in d'.tasks && d'.tasks[id] == d.tasks[id]
  }

  lemma OutcomeKeepsTerminal(cfg: Config, s: State, k: nat, s': State, fate: Fate, released: bool)
    requires Flights(s) && k in s.inflight && OutcomeFate(cfg, s, k, s', fate, released)
    ensures TerminalKept(s.disk, s'.disk)
  {
    assert FlightOk(s.disk, s.inflight[k]);
  }

  lemma DispatchKeepsTerminal(cfg: Config, s: State, id: string, s': State, w: string, launched: bool, released: bool)
    requires id in s.disk.tasks && s.disk.tasks[id].status.Open? && DispatchFate(cfg, s, id, s', w, launched, released)
    ensures TerminalKept(s.disk, s'.disk)
  {
  }

  lemma TerminalKeptStep(cfg: Config, s: State, a: Action)
    requires Flights(s) && Enabled(cfg, s, a)
    ensures TerminalKept(s.disk, Step(cfg, s, a).disk)
  {
    match a
    case SessionEnds(_) =>
    case Outcome(k, code, io) =>
      var fate := OutcomeEffect(cfg, s, k, code, io);
      OutcomeKeepsTerminal(cfg, s, k, Step(cfg, s, a), fate, io.release.Released?);
    case Dispatch(id, io) =>
      var w, launched := DispatchEffect(cfg, s, id, io);
      DispatchKeepsTerminal(cfg, s, id, Step(cfg, s, a), w, launched, io.release.Released?);
  }

  lemma TerminalKeptTrans(d: Disk, d1: Disk, d2: Disk)
    requires TerminalKept(d, d1) && TerminalKept(d1, d2)
    ensures TerminalKept(d, d2)
  {
  }

  // ----- bounded outcomes -----

  lemma {:induction false} DistinctWorkersCount(m: map<nat, Flight>, names: set<string>)
    requires forall k :: k in m ==> m[k].worker in names
    requires forall j, k :: j in m && k in m && m[j].worker == m[k].worker ==> j == k
    ensures |m| <= |names|
    decreases |m|
  {
    if m != map[] {
      var k :| k in m;
      var rest := m - {k};
      assert rest.Keys == m.Keys - {k};
      assert |rest| == |m| - 1;
      DistinctWorkersCount(rest, names - {m[k].worker});
    }
  }

  lemma InflightBounded(s: State)
    requires Flights(s)
    ensures |s.inflight| <= |Active(s.disk)| <= |s.disk.workers|
  {
    DistinctWorkersCount(s.inflight, Active(s.disk));
    SubsetSize(Active(s.disk), s.disk.workers.Keys);
  }

  lemma {:induction false} SubsetSize<T>(a: set<T>, b: set<T>)
    requires a <= b
    ensures |a| <= |b|
  {
    if a != {} {
      var x :| x in a;
      SubsetSize(a - {x}, b - {x});
    }
  }

  lemma PoolBounded(cfg: Config, s: State, a: Action)
    requires Flights(s) && Enabled(cfg, s, a) && |s.disk.workers| <= cfg.maxWorkers
    ensures |Step(cfg, s, a).disk.workers| <= cfg.maxWorkers
  {
    var s' := Step(cfg, s, a);
    match a
    case SessionEnds(_) =>
    case Outcome(k, code, io) =>
      var fate := OutcomeEffect(cfg, s, k, code, io);
      assert s'.disk.workers.Keys == s.disk.workers.Keys;
      assert |s'.disk.workers| == |s'.disk.workers.Keys| == |s.disk.workers.Keys|;
    case Dispatch(id, io) =>
      var w, launched := DispatchEffect(cfg, s, id, io);
      SubsetSize(s'.disk.workers.Keys, s.disk.workers.Keys + {w});
      assert |s'.disk.workers| == |s'.disk.workers.Keys|;
      assert |s.disk.workers| == |s.disk.workers.Keys|;
      if s'.disk.workers.Keys != s.disk.workers.Keys {
        assert |s.disk.workers.Keys + {w}| == |s.disk.workers.Keys| + 1;
      }
  }

  /** The outcomes channel holds `max(4, maxWorkers)` entries, so an agent's send never blocks. */
  function ChannelCapacity(cfg: Config): int { if cfg.maxWorkers < 4 then 4 else cfg.maxWorkers }

  lemma {:induction false} OutcomesFitTheChannel(cfg: Config, ss: seq<State>, acts: seq<Action>, i: nat)
    requires IsRun(cfg, ss, acts) && Flights(ss[0]) && |ss[0].disk.workers| <= cfg.maxWorkers && i < |ss|
    ensures |ss[i].disk.workers| <= cfg.maxWorkers
    ensures |ss[i].inflight| <= |Active(ss[i].disk)| <= cfg.maxWorkers <= ChannelCapacity(cfg)
  {
    FlightsAlways(cfg, ss, acts, i);
    InflightBounded(ss[i]);
    if i > 0 {
      OutcomesFitTheChannel(cfg, ss, acts, i - 1);
      FlightsAlways(cfg, ss, acts, i - 1);
      PoolBounded(cfg, ss[i - 1], acts[i - 1]);
    }
  }

  // ----- single assignment -----

  /** Every active worker's task is assigned or in progress and names that worker. */
  ghost predicate SingleAssignment(d: Disk) {
    forall n :: n in d.workers && d.workers[n].active ==>
      var id := d.workers[n].current;
      && id in d.tasks && d.tasks[id].assignee == n
      && (d.tasks[id].status.Assigned? || d.tasks[id].status.InProgress?)
  }

  lemma NoTwoWorkersHoldOneTask(d: Disk, m: string, n: string)
    requires SingleAssignment(d) && m in d.workers && n in d.workers
    requires d.workers[m].active && d.workers[n].active && d.workers[m].current == d.workers[n].current
    ensures m == n
  {
  }

  /** Task writes, reads, sessions and assignments may fail; a release does not. */
  predicate ReleasesWork(a: Action) {
    match a
    case Outcome(_, _, io) => io.release.Released?
    case Dispatch(_, io) => io.release.Released?
    case SessionEnds(_) => true
  }

  lemma SingleAfterOutcome(cfg: Config, s: State, k: nat, s': State, fate: Fate)
    requires Flights(s) && SingleAssignment(s.disk) && k in s.inflight && OutcomeFate(cfg, s, k, s', fate, true)
    ensures SingleAssignment(s'.disk)
  {
    var f := s.inflight[k];
    assert FlightOk(s.disk, f);
    forall n | n in s'.disk.workers && s'.disk.workers[n].active
      ensures var id := s'.disk.workers[n].current;
              && id in s'.disk.tasks && s'.disk.tasks[id].assignee == n
              && (s'.disk.tasks[id].status.Assigned? || s'.disk.tasks[id].status.InProgress?)
    {
      assert n in s.disk.workers && s'.disk.workers[n] == s.disk.workers[n];
      if fate.Ended? || fate.Reopened? {
        assert n != f.worker;
        assert s.disk.workers[n].current != f.task.id;
      }
    }
  }

  lemma SingleAfterDispatch(cfg: Config, s: State, id: string, s': State, w: string, launched: bool)
    requires Keyed(s.disk) && SingleAssignment(s.disk) && DispatchEnabled(s, id)
    requires DispatchFate(cfg, s, id, s', w, launched, true)
    ensures SingleAssignment(s'.disk)
  {
    forall n | n in s'.disk.workers && s'.disk.workers[n].active
      ensures var id := s'.disk.workers[n].current;
              && id in s'.disk.tasks && s'.disk.tasks[id].assignee == n
              && (s'.disk.tasks[id].status.Assigned? || s'.disk.tasks[id].status.InProgress?)
    {
      if n != w {
        assert n in s.disk.workers && s'.disk.workers[n] == s.disk.workers[n];
        assert s.disk.workers[n].current != id;
      }
    }
  }

  predicate DispatchEnabled(s: State, id: string) { id in s.disk.tasks && s.disk.tasks[id].status.Open? }

  lemma SingleAssignmentStep(cfg: Config, s: State, a: Action)
    requires Flights(s) && SingleAssignment(s.disk) && Enabled(cfg, s, a) && ReleasesWork(a)
    ensures SingleAssignment(Step(cfg, s, a).disk)
  {
    match a
    case SessionEnds(_) =>
    case Outcome(k, code, io) =>
      var fate := OutcomeEffect(cfg, s, k, code, io);
      SingleAfterOutcome(cfg, s, k, Step(cfg, s, a), fate);
    case Dispatch(id, io) =>
      var w, launched := DispatchEffect(cfg, s, id, io);
      SingleAfterDispatch(cfg, s, id, Step(cfg, s, a), w, launched);
  }

  lemma {:induction false} SingleAssignmentAlways(cfg: Config, ss: seq<State>, acts: seq<Action>, i: nat)
    requires IsRun(cfg, ss, acts) && Flights(ss[0]) && SingleAssignment(ss[0].disk) && i < |ss|
    requires forall j :: 0 <= j < |acts| ==> ReleasesWork(acts[j])
    ensures SingleAssignment(ss[i].disk)
  {
    if i > 0 {
      SingleAssignmentAlways(cfg, ss, acts, i - 1);
      FlightsAlways(cfg, ss, acts, i - 1);
      SingleAssignmentStep(cfg, ss[i - 1], acts[i - 1]);
    }
  }

  // ----- gap overshoot -----

  function Max(a: int, b: int): int { if a > b then a else b }

  /** Before the abort the count is below tolerance (or never moved); afterwards each unprocessed
      outcome can add one more. */
  ghost predicate GapPotential(cfg: Config, s: State, g0: nat) {
    if s.mem.aborted
    then |s.mem.gaps| + |s.inflight| <= Max(cfg.tolerance, g0 + 1) + cfg.maxWorkers - 1
    else |s.mem.gaps| <= Max(cfg.tolerance - 1, g0)
  }

  lemma RemoveOne(m: map<nat, Flight>, k: nat)
    requires k in m
    ensures |m - {k}| == |m| - 1
  {
    assert (m - {k}).Keys == m.Keys - {k};
    assert |m - {k}| == |(m - {k}).Keys|;
  }

  lemma InflightAfter(cfg: Config, s: State, k: nat, s': State, fate: Fate, released: bool)
    requires Flights(s) && k in s.inflight && OutcomeFate(cfg, s, k, s', fate, released)
    ensures |s'.inflight| == if fate.Relaunched? then |s.inflight| else |s.inflight| - 1
  {
    RemoveOne(s.inflight, k);
    if fate.Relaunched? {
      assert s.next !in s.inflight;
      assert s'.inflight.Keys == (s.inflight - {k}).Keys + {s.next};
      assert |s'.inflight| == |s'.inflight.Keys| == |(s.inflight - {k}).Keys| + 1;
    } else {
      assert s'.inflight == s.inflight - {k};
    }
  }

  /** An outcome adds no gap, or one; and reaching the tolerance aborts. */
  lemma GapsAfter(cfg: Config, s: State, k: nat, s': State, fate: Fate, released: bool)
    requires k in s.inflight && OutcomeFate(cfg, s, k, s', fate, released)
    ensures s.mem.aborted ==> s'.mem.aborted
    ensures |s'.mem.gaps| <= |s.mem.gaps| + 1 && (fate.Relaunched? ==> s'.mem.gaps == s.mem.gaps)
    ensures |s'.mem.gaps| > |s.mem.gaps| && |s'.mem.gaps| >= cfg.tolerance ==> s'.mem.aborted
  {
  }

  lemma GapAfterOutcome(cfg: Config, s: State, k: nat, s': State, fate: Fate, released: bool, g0: nat)
    requires Flights(s) && k in s.inflight && OutcomeFate(cfg, s, k, s', fate, released)
    requires GapPotential(cfg, s, g0) && |s.inflight| <= cfg.maxWorkers
    ensures GapPotential(cfg, s', g0)
  {
    InflightAfter(cfg, s, k, s', fate, released);
    GapsAfter(cfg, s, k, s', fate, released);
    GapArithmetic(cfg, s, s', g0);
  }

  lemma GapArithmetic(cfg: Config, s: State, s': State, g0: nat)
    requires GapPotential(cfg, s, g0) && |s.inflight| <= cfg.maxWorkers && (s.mem.aborted ==> s'.mem.aborted)
    requires |s'.mem.gaps| <= |s.mem.gaps| + 1 && |s'.inflight| <= |s.inflight|
    requires |s'.inflight| < |s.inflight| || |s'.mem.gaps| <= |s.mem.gaps|
    requires |s'.mem.gaps| > |s.mem.gaps| && |s'.mem.gaps| >= cfg.tolerance ==> s'.mem.aborted
    requires s'.mem.aborted && !s.mem.aborted ==> |s'.inflight| < |s.inflight|
    ensures GapPotential(cfg, s', g0)
  {
  }

  lemma GapStepBound(cfg: Config, s: State, a: Action, g0: nat)
    requires Flights(s) && Enabled(cfg, s, a) && GapPotential(cfg, s, g0)
    requires |s.inflight| <= cfg.maxWorkers
    ensures GapPotential(cfg, Step(cfg, s, a), g0)
  {
    match a
    case SessionEnds(_) =>
    case Outcome(k, code, io) =>
      var fate := OutcomeEffect(cfg, s, k, code, io);
      GapAfterOutcome(cfg, s, k, Step(cfg, s, a), fate, io.release.Released?, g0);
    case Dispatch(id, io) =>
      var w, launched := DispatchEffect(cfg, s, id, io);
      assert Step(cfg, s, a).mem == s.mem;
  }

  lemma {:induction false} GapPotentialAlways(cfg: Config, ss: seq<State>, acts: seq<Action>, i: nat)
    requires IsRun(cfg, ss, acts) && Flights(ss[0]) && i < |ss|
    requires |ss[0].disk.workers| <= cfg.maxWorkers && ss[0].inflight == map[]
    ensures GapPotential(cfg, ss[i], |ss[0].mem.gaps|)
  {
    OutcomesFitTheChannel(cfg, ss, acts, i);
    if i > 0 {
      GapPotentialAlways(cfg, ss, acts, i - 1);
      OutcomesFitTheChannel(cfg, ss, acts, i - 1);
      FlightsAlways(cfg, ss, acts, i - 1);
      GapStepBound(cfg, ss[i - 1], acts[i - 1], |ss[0].mem.gaps|);
    }
  }

  /** The gap count overshoots by at most the workers that were still busy. */
  lemma GapOvershootBound(cfg: Config, ss: seq<State>, acts: seq<Action>, i: nat)
    requires IsRun(cfg, ss, acts) && Flights(ss[0]) && i < |ss|
    requires |ss[0].disk.workers| <= cfg.maxWorkers && ss[0].inflight == map[]
    ensures |ss[i].mem.gaps| <= Max(cfg.tolerance, |ss[0].mem.gaps| + 1) + cfg.maxWorkers - 1
  {
    GapPotentialAlways(cfg, ss, acts, i);
  }

  // ----- abort finality -----

  /** From the abort in `s` to any later `s'`. */
  ghost predicate AfterAbort(cfg: Config, s: State, s': State) {
    && s'.mem.aborted && (s.mem.reason != "" ==> s'.mem.reason == s.mem.reason)
    && Active(s'.disk) <= Active(s.disk)
    && s.disk.tasks.Keys <= s'.disk.tasks.Keys
    && (forall j :: j in s'.inflight ==> InFlight(s, s'.inflight[j]))
    && (forall id :: id in s.disk.tasks && s'.disk.tasks[id].status.Open? ==>
          || s.disk.tasks[id].status.Open?
          || (cfg.maxRetries > 0 && exists k :: k in s.inflight && s.inflight[k].task.id == id))
  }

  ghost predicate InFlight(s: State, f: Flight) {
    exists k :: k in s.inflight && s.inflight[k] == f
  }

  lemma ActiveShrinks(cfg: Config, s: State, k: nat, s': State, fate: Fate, released: bool)
    requires Flights(s) && k in s.inflight && OutcomeFate(cfg, s, k, s', fate, released)
    ensures Active(s'.disk) <= Active(s.disk)
  {
    assert FlightOk(s.disk, s.inflight[k]);
  }

  /** Only the outcome's own task can become open, and only as its retry. */
  lemma OnlyRetriesOpen(cfg: Config, s: State, k: nat, s': State, fate: Fate, released: bool)
    requires Flights(s) && k in s.inflight && OutcomeFate(cfg, s, k, s', fate, released)
    ensures s.disk.tasks.Keys <= s'.disk.tasks.Keys
    ensures forall id :: id in s.disk.tasks && s'.disk.tasks[id].status.Open? && !s.disk.tasks[id].status.Open? ==>
                           id == s.inflight[k].task.id && cfg.maxRetries > 0
  {
    assert FlightOk(s.disk, s.inflight[k]);
  }

  lemma FlownBefore(cfg: Config, s: State, k: nat, s': State, fate: Fate, released: bool)
    requires k in s.inflight && OutcomeFate(cfg, s, k, s', fate, released)
    ensures forall j :: j in s'.inflight ==>
              s'.inflight[j] == s.inflight[k] || (j in s.inflight && s'.inflight[j] == s.inflight[j])
    ensures (s.mem.aborted ==> s'.mem.aborted) && (s.mem.reason != "" ==> s'.mem.reason == s.mem.reason)
  {
  }

  lemma AfterAbortFate(cfg: Config, s: State, s1: State, k: nat, s2: State, fate: Fate, released: bool)
    requires Flights(s1) && AfterAbort(cfg, s, s1) && k in s1.inflight && OutcomeFate(cfg, s1, k, s2, fate, released)
    ensures AfterAbort(cfg, s, s2)
  {
    ActiveShrinks(cfg, s1, k, s2, fate, released);
    OnlyRetriesOpen(cfg, s1, k, s2, fate, released);
    FlownBefore(cfg, s1, k, s2, fate, released);
    var f := s1.inflight[k];
    assert InFlight(s, f);
    var j :| j in s.inflight && s.inflight[j] == f;
    assert s.inflight[j].task.id == f.task.id;
  }

  lemma AfterAbortOutcome(cfg: Config, s: State, s1: State, k: nat, code: int, io: OutcomeIo)
    requires Flights(s1) && s.mem.aborted && AfterAbort(cfg, s, s1) && k in s1.inflight
    ensures AfterAbort(cfg, s, Step(cfg, s1, Outcome(k, code, io)))
  {
    var fate := OutcomeEffect(cfg, s1, k, code, io);
    AfterAbortFate(cfg, s, s1, k, Step(cfg, s1, Outcome(k, code, io)), fate, io.release.Released?);
  }

  /** Once aborted: no dispatch, no new active worker, no lost reason, and a task reopens only as
      the retry of an outcome that was in flight at the abort. */
  lemma {:induction false} AbortIsFinal(cfg: Config, ss: seq<State>, acts: seq<Action>, i: nat, j: nat)
    requires IsRun(cfg, ss, acts) && Flights(ss[0]) && i <= j < |ss| && ss[i].mem.aborted
    ensures AfterAbort(cfg, ss[i], ss[j])
    ensures j < |acts| ==> !acts[j].Dispatch?
    decreases j
  {
    if i < j {
      AbortIsFinal(cfg, ss, acts, i, j - 1);
      FlightsAlways(cfg, ss, acts, j - 1);
      match acts[j - 1]
      case Outcome(k, code, io) => AfterAbortOutcome(cfg, ss[i], ss[j - 1], k, code, io);
      case SessionEnds(n) => AfterAbortSession(cfg, ss[i], ss[j - 1], n);
    } else {
      AfterAbortSelf(cfg, ss[i]);
    }
  }

  lemma AfterAbortSelf(cfg: Config, s: State)
    requires s.mem.aborted
    ensures AfterAbort(cfg, s, s)
  {
    forall j | j in s.inflight ensures InFlight(s, s.inflight[j]) { }
  }

  lemma AfterAbortSession(cfg: Config, s: State, s1: State, n: string)
    requires AfterAbort(cfg, s, s1)
    ensures AfterAbort(cfg, s, KillSession(s1, n))
  {
    assert Active(KillSession(s1, n).disk) == Active(s1.disk);
  }

  // ----- dependency closure and gate ordering -----

  /** Every task that has left the queue has only terminal dependencies. */
  ghost predicate DepsClosed(cfg: Config, d: Disk) {
    forall id :: id in d.tasks && !d.tasks[id].status.Open? ==> DepsTerminal(cfg.deps, d, id)
  }

  lemma DepsTerminalKept(cfg: Config, d: Disk, d': Disk, id: string)
    requires TerminalKept(d, d') && DepsTerminal(cfg.deps, d, id)
    ensures DepsTerminal(cfg.deps, d', id)
  {
  }

  lemma ClosedAfterOutcome(cfg: Config, s: State, k: nat, s': State, fate: Fate, released: bool)
    requires Flights(s) && k in s.inflight && OutcomeFate(cfg, s, k, s', fate, released)
    requires DepsClosed(cfg, s.disk) && !s'.mem.aborted
    ensures DepsClosed(cfg, s'.disk)
  {
    OutcomeKeepsTerminal(cfg, s, k, s', fate, released);
    assert FlightOk(s.disk, s.inflight[k]);
    forall id | id in s'.disk.tasks && !s'.disk.tasks[id].status.Open? ensures DepsTerminal(cfg.deps, s'.disk, id) {
      assert id in s.disk.tasks && !s.disk.tasks[id].status.Open?;
      DepsTerminalKept(cfg, s.disk, s'.disk, id);
    }
  }

  lemma ClosedAfterDispatch(cfg: Config, s: State, id0: string, s': State, w: string, launched: bool, released: bool)
    requires Ready(cfg, s.disk, id0) && DispatchFate(cfg, s, id0, s', w, launched, released)
    requires DepsClosed(cfg, s.disk) && !s'.mem.aborted
    ensures DepsClosed(cfg, s'.disk)
  {
    DispatchKeepsTerminal(cfg, s, id0, s', w, launched, released);
    forall id | id in s'.disk.tasks && !s'.disk.tasks[id].status.Open? ensures DepsTerminal(cfg.deps, s'.disk, id) {
      assert id in s.disk.tasks;
      DepsTerminalKept(cfg, s.disk, s'.disk, id);
    }
  }

  lemma DepsClosedStep(cfg: Config, s: State, a: Action)
    requires Flights(s) && Enabled(cfg, s, a) && DepsClosed(cfg, s.disk)
    ensures var s' := Step(cfg, s, a); s'.mem.aborted || DepsClosed(cfg, s'.disk)
  {
    var s' := Step(cfg, s, a);
    if !s'.mem.aborted {
      match a
      case SessionEnds(n) => assert s'.disk.tasks == s.disk.tasks;
      case Outcome(k, code, io) =>
        var fate := OutcomeEffect(cfg, s, k, code, io);
        ClosedAfterOutcome(cfg, s, k, s', fate, io.release.Released?);
      case Dispatch(id, io) =>
        var w, launched := DispatchEffect(cfg, s, id, io);
        ClosedAfterDispatch(cfg, s, id, s', w, launched, io.release.Released?);
    }
  }

  lemma {:induction false} DepsClosedUntilAbort(cfg: Config, ss: seq<State>, acts: seq<Action>, i: nat)
    requires IsRun(cfg, ss, acts) && Flights(ss[0]) && DepsClosed(cfg, ss[0].disk) && i < |ss|
    ensures ss[i].mem.aborted || DepsClosed(cfg, ss[i].disk)
  {
    if i > 0 {
      DepsClosedUntilAbort(cfg, ss, acts, i - 1);
      FlightsAlways(cfg, ss, acts, i - 1);
      if ss[i - 1].mem.aborted {
        AbortIsFinal(cfg, ss, acts, i - 1, i);
      } else {
        DepsClosedStep(cfg, ss[i - 1], acts[i - 1]);
      }
    }
  }

  // ----- stranded tasks -----

  /** In progress in the store, with no agent whose outcome could still move it. */
  ghost predicate Unattended(s: State, id: string) {
    && id in s.disk.tasks && s.disk.tasks[id].status.InProgress?
    && forall k :: k in s.inflight ==> s.inflight[k].task.id != id
  }

  /** A failure that can neither be retried nor recorded. */
  predicate FailureLost(cfg: Config, m: Memory, id: string, io: OutcomeIo) {
    !(Count(m.retries, id) < cfg.maxRetries && io.retryWrite) && !io.finalWrite
  }

  /** The outcomes after which nobody waits for the task any more although it is still in progress: a terminal
      write that failed, or a handoff outside test mode that restarted the session without a monitor. */
  predicate Strands(cfg: Config, m: Memory, id: string, code: int, io: OutcomeIo) {
    match DetermineOutcome(code)
    case Success => !io.finalWrite
    case Block => !io.finalWrite
    case Failure => FailureLost(cfg, m, id, io)
    case Handoff =>
      if Count(m.handoffs, id) >= cfg.maxHandoffs then FailureLost(cfg, m, id, io)
      else !cfg.testMode && ((io.restartKill && io.spawn.SpawnOk?) || FailureLost(cfg, m, id, io))
  }

  lemma OthersElsewhere(s: State, k: nat)
    requires Flights(s) && k in s.inflight
    ensures forall j :: j in s.inflight - {k} ==> s.inflight[j].task.id != s.inflight[k].task.id
  {
    forall j | j in s.inflight - {k} ensures s.inflight[j].task.id != s.inflight[k].task.id {
      if s.inflight[j].task.id == s.inflight[k].task.id { OneFlightPerTask(s, j, k); }
    }
  }

  lemma FailureStrands(cfg: Config, s: State, f: Flight, io: OutcomeIo)
    requires Keyed(s.disk) && FlightOk(s.disk, f)
    ensures var s' := HandleFailure(cfg, s, f, io);
            && s'.inflight == s.inflight && f.task.id in s'.disk.tasks
            && (s'.disk.tasks[f.task.id].status.InProgress? <==> FailureLost(cfg, s.mem, f.task.id, io))
  {
    FailureEffect(cfg, s, f, io);
  }

  lemma HandoffStrands(cfg: Config, s: State, f: Flight, io: OutcomeIo)
    requires Keyed(s.disk) && FlightOk(s.disk, f)
    requires !(cfg.testMode && Count(s.mem.handoffs, f.task.id) < cfg.maxHandoffs)
    ensures var s' := HandleHandoff(cfg, s, f, io);
            && s'.inflight == s.inflight && f.task.id in s'.disk.tasks
            && (s'.disk.tasks[f.task.id].status.InProgress? <==> Strands(cfg, s.mem, f.task.id, 3, io))
  {
    if Count(s.mem.handoffs, f.task.id) >= cfg.maxHandoffs {
      FailureStrands(cfg, Emit(s, HandoffLimitReached, f.task.id), f, io);
    } else {
      var s1 := s.(mem := s.mem.(handoffs := Bump(s.mem.handoffs, f.task.id)));
      RestartEffect(s1, f, io);
      var (s2, ok) := Restart(s1, f.worker, f.task, io.restartKill, io.spawn);
      assert ok <==> io.restartKill && io.spawn.SpawnOk?;
      if !ok { FailureStrands(cfg, s2, f, io); }
    }
  }

  /** Exactly these outcomes strand their task. */
  lemma StrandedExactly(cfg: Config, s: State, k: nat, code: int, io: OutcomeIo)
    requires Flights(s) && k in s.inflight
    ensures Unattended(Step(cfg, s, Outcome(k, code, io)), s.inflight[k].task.id) <==>
            Strands(cfg, s.mem, s.inflight[k].task.id, code, io)
  {
    var f, s0 := s.inflight[k], Taken(s, k);
    OthersElsewhere(s, k);
    assert FlightOk(s0.disk, f);
    match DetermineOutcome(code)
    case Success => SuccessEffect(cfg, s0, f, io);
    case Block => FinalEffect(cfg, s0, f, Blocked, TaskBlocked, io);
    case Failure => FailureStrands(cfg, s0, f, io);
    case Handoff =>
      if cfg.testMode && Count(s.mem.handoffs, f.task.id) < cfg.maxHandoffs {
        var s' := Step(cfg, s, Outcome(k, code, io));
        assert s.next in s'.inflight && s'.inflight[s.next] == f;
      } else {
        HandoffStrands(cfg, s0, f, io);
      }
  }

  /** Without a watchdog a stranded task keeps its record for ever, and the lifecycle never finishes. */
  lemma {:induction false} UnattendedForEver(cfg: Config, ss: seq<State>, acts: seq<Action>, i: nat, j: nat, id: string)
    requires IsRun(cfg, ss, acts) && Flights(ss[0]) && i <= j < |ss| && Unattended(ss[i], id)
    ensures Unattended(ss[j], id) && ss[j].disk.tasks[id] == ss[i].disk.tasks[id]
    ensures ss[i].disk.tasks[id].Branch() == cfg.branch ==> !Finished(cfg, ss[j].disk)
    decreases j
  {
    if i < j {
      UnattendedForEver(cfg, ss, acts, i, j - 1, id);
      FlightsAlways(cfg, ss, acts, j - 1);
      UnattendedStep(cfg, ss[j - 1], acts[j - 1], id);
    }
    if ss[i].disk.tasks[id].Branch() == cfg.branch {
      assert ss[j].disk.tasks[id] in BranchTasks(cfg, ss[j].disk);
    }
  }

  lemma UnattendedDispatch(cfg: Config, s: State, id0: string, s': State, w: string, launched: bool,
                           released: bool, id: string)
    requires Unattended(s, id) && DispatchEnabled(s, id0) && Keyed(s.disk)
    requires DispatchFate(cfg, s, id0, s', w, launched, released)
    ensures Unattended(s', id) && s'.disk.tasks[id] == s.disk.tasks[id]
  {
  }

  lemma UnattendedStep(cfg: Config, s: State, a: Action, id: string)
    requires Flights(s) && Enabled(cfg, s, a) && Unattended(s, id)
    ensures Unattended(Step(cfg, s, a), id) && Step(cfg, s, a).disk.tasks[id] == s.disk.tasks[id]
  {
    match a
    case SessionEnds(_) =>
    case Outcome(k, code, io) =>
      var fate := OutcomeEffect(cfg, s, k, code, io);
      UnattendedOutcome(cfg, s, k, Step(cfg, s, a), fate, io.release.Released?, id);
    case Dispatch(id0, io) =>
      var w, launched := DispatchEffect(cfg, s, id0, io);
      UnattendedDispatch(cfg, s, id0, Step(cfg, s, a), w, launched, io.release.Released?, id);
  }

  lemma UnattendedOutcome(cfg: Config, s: State, k: nat, s': State, fate: Fate, released: bool, id: string)
    requires Flights(s) && k in s.inflight && Unattended(s, id) && OutcomeFate(cfg, s, k, s', fate, released)
    ensures Unattended(s', id) && s'.disk.tasks[id] == s.disk.tasks[id]
  {
    var f := s.inflight[k];
    assert f.task.id != id;
    forall j | j in s'.inflight ensures s'.inflight[j].task.id != id {
      assert s'.inflight[j] == f || j in s.inflight;
    }
  }
}
