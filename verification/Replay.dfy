// Rebuilding the in-memory counters from the event log (orch/resume.go recoverFromEventLog).
module Replay {
  import opened Types
  import opened Machine
  import opened Effects
  import opened Safety
  import opened Crash
  import opened Resume

  // ----- what a log says -----

  /** The tasks of the gap events, in order. */
  function GapsOf(log: seq<Event>): seq<string> {
    if log == [] then [] else
      var rest, last := GapsOf(log[..|log| - 1]), log[|log| - 1];
      if last.kind.GapRecorded? then rest + [last.task] else rest
  }

  function CountOf(log: seq<Event>, kind: EventKind, id: string): nat {
    if log == [] then 0 else
      var rest, last := CountOf(log[..|log| - 1], kind, id), log[|log| - 1];
      if last.kind == kind && last.task == id then rest + 1 else rest
  }

  /** The last end reported for the task. */
  function LastEnd(log: seq<Event>, id: string): Option<Status> {
    if log == [] then None else
      var last := log[|log| - 1];
      if last.task == id && EndKind(last.kind)
      then Some(if last.kind.TaskCompleted? then Completed else if last.kind.TaskFailed? then Failed else Blocked)
      else LastEnd(log[..|log| - 1], id)
  }

  predicate GraphKind(k: EventKind) { k.GraphValidated? || k.GraphInvalid? }

  /** A graph verdict that no later re-open has voided. */
  ghost predicate VerdictStands(log: seq<Event>, id: string) {
    exists i :: 0 <= i < |log| && log[i].task == id && GraphKind(log[i].kind) &&
      forall j :: i < j < |log| ==> log[j] != Event(EscalationResolved, id)
  }

  // ----- the scan -----

  /** One line of the log file. */
  datatype Line = Corrupt | Record(event: Event)

  function Events(lines: seq<Line>): seq<Event> {
    if lines == [] then [] else
      var rest, last := Events(lines[..|lines| - 1]), lines[|lines| - 1];
      if last.Corrupt? || last.event.task == "" then rest else rest + [last.event]
  }

  function CorruptLines(lines: seq<Line>): nat {
    if lines == [] then 0 else
      CorruptLines(lines[..|lines| - 1]) + if lines[|lines| - 1].Corrupt? then 1 else 0
  }

  datatype Recovery = Recovery(gaps: seq<string>, retries: map<string, nat>, handoffs: map<string, nat>,
                               terminal: map<string, Status>, graphSeen: set<string>, corrupt: nat)

  /** The counters say exactly what the readable lines say. */
  ghost predicate Recovers(rec: Recovery, log: seq<Event>) {
    && rec.gaps == GapsOf(log)
    && (forall id :: Count(rec.retries, id) == CountOf(log, TaskRetried, id))
    && (forall id :: Count(rec.handoffs, id) == CountOf(log, TaskHandoff, id))
    && (forall id :: LastEnd(log, id) == if id in rec.terminal then Some(rec.terminal[id]) else None)
    && Verdicts(rec.graphSeen, log)
  }

  ghost predicate Verdicts(seen: set<string>, log: seq<Event>) {
    forall id :: id in seen <==> VerdictStands(log, id)
  }

  function Scan(rec: Recovery, e: Event): Recovery {
    match e.kind
    case GapRecorded => rec.(gaps := rec.gaps + [e.task])
    case TaskRetried => rec.(retries := Bump(rec.retries, e.task))
    case TaskHandoff => rec.(handoffs := Bump(rec.handoffs, e.task))
    case TaskCompleted => rec.(terminal := rec.terminal[e.task := Completed])
    case TaskFailed => rec.(terminal := rec.terminal[e.task := Failed])
    case TaskBlocked => rec.(terminal := rec.terminal[e.task := Blocked])
    case GraphValidated => rec.(graphSeen := rec.graphSeen + {e.task})
    case GraphInvalid => rec.(graphSeen := rec.graphSeen + {e.task})
    case EscalationResolved => rec.(graphSeen := rec.graphSeen - {e.task})
    case _ => rec
  }

  lemma VerdictSnoc(log: seq<Event>, e: Event, id: string)
    ensures VerdictStands(log + [e], id) <==>
            (e.task == id && GraphKind(e.kind)) || (VerdictStands(log, id) && e != Event(EscalationResolved, id))
  {
    var l := log + [e];
    if VerdictStands(log, id) && e != Event(EscalationResolved, id) {
      var i :| 0 <= i < |log| && log[i].task == id && GraphKind(log[i].kind) &&
        forall j :: i < j < |log| ==> log[j] != Event(EscalationResolved, id);
      assert l[i] == log[i];
      assert forall j :: i < j < |l| ==> l[j] != Event(EscalationResolved, id);
    }
    if e.task == id && GraphKind(e.kind) { assert l[|log|] == e; }
    if VerdictStands(l, id) {
      var i :| 0 <= i < |l| && l[i].task == id && GraphKind(l[i].kind) &&
        forall j :: i < j < |l| ==> l[j] != Event(EscalationResolved, id);
      if i < |log| {
        assert log[i] == l[i] && l[|log|] == e;
        assert forall j :: i < j < |log| ==> log[j] == l[j];
      }
    }
  }

  lemma ScanVerdicts(rec: Recovery, log: seq<Event>, e: Event)
    requires Verdicts(rec.graphSeen, log)
    ensures Verdicts(Scan(rec, e).graphSeen, log + [e])
  {
    forall id ensures id in Scan(rec, e).graphSeen <==> VerdictStands(log + [e], id) {
      VerdictSnoc(log, e, id);
    }
  }

  lemma ScanEnds(rec: Recovery, log: seq<Event>, e: Event, id: string)
    requires LastEnd(log, id) == if id in rec.terminal then Some(rec.terminal[id]) else None
    ensures var r := Scan(rec, e); LastEnd(log + [e], id) == if id in r.terminal then Some(r.terminal[id]) else None
  {
    assert (log + [e])[..|log|] == log;
  }

  lemma CountSnoc(log: seq<Event>, e: Event, kind: EventKind, id: string)
    ensures CountOf(log + [e], kind, id) == CountOf(log, kind, id) + if e.kind == kind && e.task == id then 1 else 0
  {
    assert (log + [e])[..|log|] == log;
  }

  lemma ScanCounts(rec: Recovery, log: seq<Event>, e: Event, id: string)
    requires Count(rec.retries, id) == CountOf(log, TaskRetried, id)
    requires Count(rec.handoffs, id) == CountOf(log, TaskHandoff, id)
    ensures var r := Scan(rec, e);
            && Count(r.retries, id) == CountOf(log + [e], TaskRetried, id)
            && Count(r.handoffs, id) == CountOf(log + [e], TaskHandoff, id)
  {
    CountSnoc(log, e, TaskRetried, id);
    CountSnoc(log, e, TaskHandoff, id);
  }

  lemma ScanRecovers(rec: Recovery, log: seq<Event>, e: Event)
    requires Recovers(rec, log)
    ensures Recovers(Scan(rec, e), log + [e])
  {
    var r, l := Scan(rec, e), log + [e];
    ScanVerdicts(rec, log, e);
    assert r.gaps == GapsOf(l) by { Snoc(log, e); }
    forall id
      ensures Count(r.retries, id) == CountOf(l, TaskRetried, id)
      ensures Count(r.handoffs, id) == CountOf(l, TaskHandoff, id)
    {
      ScanCounts(rec, log, e, id);
    }
    forall id ensures LastEnd(l, id) == if id in r.terminal then Some(r.terminal[id]) else None {
      ScanEnds(rec, log, e, id);
    }
  }

  lemma NothingScanned()
    ensures Recovers(Recovery([], map[], map[], map[], {}, 0), [])
  {
    assert forall id :: !VerdictStands([], id);
  }

  method RecoverFromEventLog(lines: seq<Line>) returns (rec: Recovery)
    ensures Recovers(rec, Events(lines)) && rec.corrupt == CorruptLines(lines)
  {
    rec := Recovery([], map[], map[], map[], {}, 0);
    NothingScanned();
    for i := 0 to |lines|
      invariant ScannedTo(rec, lines, i)
    {
      rec := ScanLine(rec, lines, lines[i], i);
    }
    assert lines[..|lines|] == lines;
  }

  lemma LineSaysMore(lines: seq<Line>, i: nat)
    requires i < |lines|
    ensures var line, events := lines[i], Events(lines[..i]);
            && Events(lines[..i + 1]) ==
               (if line.Corrupt? || line.event.task == "" then events else events + [line.event])
            && CorruptLines(lines[..i + 1]) == CorruptLines(lines[..i]) + if line.Corrupt? then 1 else 0
  {
    assert lines[..i + 1][..i] == lines[..i];
  }

  /** The recovery says what the first `i` lines say. */
  ghost predicate ScannedTo(rec: Recovery, lines: seq<Line>, i: nat)
    requires i <= |lines|
  {
    Recovers(rec, Events(lines[..i])) && rec.corrupt == CorruptLines(lines[..i])
  }

  lemma CorruptScanned(rec: Recovery, lines: seq<Line>, i: nat)
    requires i < |lines| && lines[i].Corrupt? && ScannedTo(rec, lines, i)
    ensures ScannedTo(rec.(corrupt := rec.corrupt + 1), lines, i + 1)
  {
    LineSaysMore(lines, i);
  }

  lemma UnnamedScanned(rec: Recovery, lines: seq<Line>, i: nat)
    requires i < |lines| && lines[i].Record? && lines[i].event.task == "" && ScannedTo(rec, lines, i)
    ensures ScannedTo(rec, lines, i + 1)
  {
    LineSaysMore(lines, i);
  }

  lemma EventScanned(rec: Recovery, lines: seq<Line>, i: nat)
    requires i < |lines| && lines[i].Record? && lines[i].event.task != "" && ScannedTo(rec, lines, i)
    ensures ScannedTo(Scan(rec, lines[i].event), lines, i + 1)
  {
    var log, e := Events(lines[..i]), lines[i].event;
    assert Recovers(Scan(rec, e), log + [e]) by { ScanRecovers(rec, log, e); }
    assert Events(lines[..i + 1]) == log + [e] && CorruptLines(lines[..i + 1]) == CorruptLines(lines[..i]) by {
      LineSaysMore(lines, i);
    }
  }

  /** One iteration of the scan. */
  method ScanLine(before: Recovery, ghost lines: seq<Line>, line: Line, ghost i: nat) returns (rec: Recovery)
    requires i < |lines| && lines[i] == line && ScannedTo(before, lines, i)
    ensures ScannedTo(rec, lines, i + 1)
  {
    if line.Corrupt? {
      CorruptScanned(before, lines, i);
      return before.(corrupt := before.corrupt + 1);
    }
    if line.event.task == "" {
      UnnamedScanned(before, lines, i);
      return before;
    }
    EventScanned(before, lines, i);
    return Scan(before, line.event);
  }

  // ----- what a recovery says about the lines of the file -----

  /** A readable line with this event. */
  predicate Says(lines: seq<Line>, i: nat, kind: EventKind, id: string)
    requires i < |lines|
  {
    lines[i] == Record(Event(kind, id)) && id != ""
  }

  /** How many of the first `n` lines have this event. */
  function Tally(lines: seq<Line>, n: nat, kind: EventKind, id: string): nat
    requires n <= |lines|
  {
    if n == 0 then 0 else Tally(lines, n - 1, kind, id) + if Says(lines, n - 1, kind, id) then 1 else 0
  }

  lemma {:induction false} TallyIsCount(lines: seq<Line>, n: nat, kind: EventKind, id: string)
    requires n <= |lines|
    ensures CountOf(Events(lines[..n]), kind, id) == Tally(lines, n, kind, id)
  {
    if n > 0 {
      TallyIsCount(lines, n - 1, kind, id);
      OneLineCounted(lines, n - 1, kind, id);
    }
  }

  lemma {:induction false} TallyIsSize(lines: seq<Line>, n: nat, kind: EventKind, id: string)
    requires n <= |lines|
    ensures Tally(lines, n, kind, id) == |Saying(lines, n, kind, id)|
  {
    if n > 0 {
      TallyIsSize(lines, n - 1, kind, id);
      OneLineSaid(lines, n - 1, kind, id);
    }
  }

  lemma LinesCounted(lines: seq<Line>, n: nat, kind: EventKind, id: string)
    requires n <= |lines|
    ensures CountOf(Events(lines[..n]), kind, id) == |Saying(lines, n, kind, id)|
  {
    TallyIsCount(lines, n, kind, id);
    TallyIsSize(lines, n, kind, id);
  }

  lemma OneLineSaid(lines: seq<Line>, n: nat, kind: EventKind, id: string)
    requires n < |lines|
    ensures |Saying(lines, n + 1, kind, id)| == |Saying(lines, n, kind, id)| + if Says(lines, n, kind, id) then 1 else 0
  {
    if Says(lines, n, kind, id) {
      assert Saying(lines, n + 1, kind, id) == Saying(lines, n, kind, id) + {n};
    } else {
      assert Saying(lines, n + 1, kind, id) == Saying(lines, n, kind, id);
    }
  }

  /** The lines among the first `n` with this event. */
  ghost function Saying(lines: seq<Line>, n: nat, kind: EventKind, id: string): set<int>
    requires n <= |lines|
  {
    set i | 0 <= i < n && Says(lines, i, kind, id)
  }

  lemma OneLineCounted(lines: seq<Line>, n: nat, kind: EventKind, id: string)
    requires n < |lines|
    ensures CountOf(Events(lines[..n + 1]), kind, id) ==
            CountOf(Events(lines[..n]), kind, id) + if Says(lines, n, kind, id) then 1 else 0
  {
    var log := Events(lines[..n]);
    if lines[n].Record? && lines[n].event.task != "" {
      assert Events(lines[..n + 1]) == log + [lines[n].event] by { LineSaysMore(lines, n); }
      CountSnoc(log, lines[n].event, kind, id);
    } else {
      assert Events(lines[..n + 1]) == log by { LineSaysMore(lines, n); }
    }
  }

  lemma {:induction false} CorruptCounted(lines: seq<Line>, n: nat)
    requires n <= |lines|
    ensures CorruptLines(lines[..n]) == |set i | 0 <= i < n && lines[i] == Corrupt|
  {
    if n > 0 {
      CorruptCounted(lines, n - 1);
      LineSaysMore(lines, n - 1);
      var before := set i | 0 <= i < n - 1 && lines[i] == Corrupt;
      var now := set i | 0 <= i < n && lines[i] == Corrupt;
      if lines[n - 1] == Corrupt { assert now == before + {n - 1}; } else { assert now == before; }
    }
  }

  /** Line `i` is the last that reports an end of the task. */
  ghost predicate LastSaysEnd(lines: seq<Line>, i: nat, id: string)
    requires i < |lines|
  {
    SaysEnd(lines, i, id) && forall j :: i < j < |lines| ==> !SaysEnd(lines, j, id)
  }

  predicate SaysEnd(lines: seq<Line>, i: nat, id: string)
    requires i < |lines|
  {
    Says(lines, i, TaskCompleted, id) || Says(lines, i, TaskFailed, id) || Says(lines, i, TaskBlocked, id)
  }

  function EndSaid(lines: seq<Line>, i: nat, id: string): Status
    requires i < |lines|
  {
    if Says(lines, i, TaskCompleted, id) then Completed else if Says(lines, i, TaskFailed, id) then Failed else Blocked
  }

  lemma SaysEndMeans(lines: seq<Line>, i: nat, id: string)
    requires i < |lines| && lines[i].Record? && lines[i].event.task != ""
    ensures lines[i].event.task == id && EndKind(lines[i].event.kind) <==> SaysEnd(lines, i, id)
  {
    var e := lines[i].event;
    assert lines[i] == Record(Event(e.kind, e.task));
  }

  lemma {:induction false} EndFollowsLastLine(lines: seq<Line>, n: nat, i: nat, id: string)
    requires i < n <= |lines| && LastSaysEnd(lines, i, id)
    ensures LastEnd(Events(lines[..n]), id) == Some(EndSaid(lines, i, id))
    decreases n
  {
    EndAfterLine(lines, n - 1, id);
    if i < n - 1 { EndFollowsLastLine(lines, n - 1, i, id); }
  }

  /** One more line reports the last end itself or leaves it. */
  lemma EndAfterLine(lines: seq<Line>, n: nat, id: string)
    requires n < |lines|
    ensures SaysEnd(lines, n, id) ==> LastEnd(Events(lines[..n + 1]), id) == Some(EndSaid(lines, n, id))
    ensures !SaysEnd(lines, n, id) ==> LastEnd(Events(lines[..n + 1]), id) == LastEnd(Events(lines[..n]), id)
  {
    var log := Events(lines[..n]);
    if lines[n].Record? && lines[n].event.task != "" {
      assert Events(lines[..n + 1]) == log + [lines[n].event] by { LineSaysMore(lines, n); }
      assert (log + [lines[n].event])[..|log|] == log;
      SaysEndMeans(lines, n, id);
    } else {
      assert Events(lines[..n + 1]) == log by { LineSaysMore(lines, n); }
    }
  }

  lemma {:induction false} NoEndLine(lines: seq<Line>, n: nat, id: string)
    requires n <= |lines| && forall i :: 0 <= i < n ==> !SaysEnd(lines, i, id)
    ensures LastEnd(Events(lines[..n]), id) == None
  {
    if n > 0 {
      NoEndLine(lines, n - 1, id);
      EndAfterLine(lines, n - 1, id);
    }
  }

  predicate SaysGap(line: Line) { line.Record? && line.event.kind == GapRecorded && line.event.task != "" }

  /** The tasks of the gap lines, from the first line on. */
  function GapTasks(lines: seq<Line>): seq<string> {
    if lines == [] then [] else
      (if SaysGap(lines[0]) then [lines[0].event.task] else []) + GapTasks(lines[1..])
  }

  lemma {:induction false} GapTasksSnoc(lines: seq<Line>, line: Line)
    ensures GapTasks(lines + [line]) == GapTasks(lines) + GapTasks([line])
  {
    if lines != [] {
      assert (lines + [line])[1..] == lines[1..] + [line];
      GapTasksSnoc(lines[1..], line);
    }
  }

  lemma {:induction false} GapsInOrder(lines: seq<Line>, n: nat)
    requires n <= |lines|
    ensures GapsOf(Events(lines[..n])) == GapTasks(lines[..n])
  {
    if n > 0 {
      GapsInOrder(lines, n - 1);
      var log, line := Events(lines[..n - 1]), lines[n - 1];
      assert lines[..n] == lines[..n - 1] + [line];
      GapTasksSnoc(lines[..n - 1], line);
      assert GapTasks([line]) == if SaysGap(line) then [line.event.task] else [];
      LineSaysMore(lines, n - 1);
      if line.Record? && line.event.task != "" { Snoc(log, line.event); }
    }
  }

  /** Counters, corrupt lines and ends, counted on the lines of the file; events without a task count for nothing. */
  lemma RecoveryMeans(lines: seq<Line>, rec: Recovery, id: string)
    requires Recovers(rec, Events(lines)) && rec.corrupt == CorruptLines(lines)
    ensures Count(rec.retries, id) == |Saying(lines, |lines|, TaskRetried, id)|
    ensures Count(rec.handoffs, id) == |Saying(lines, |lines|, TaskHandoff, id)|
    ensures rec.gaps == GapTasks(lines)
    ensures rec.corrupt == |set i | 0 <= i < |lines| && lines[i] == Corrupt|
    ensures forall i | 0 <= i < |lines| && LastSaysEnd(lines, i, id) ::
              id in rec.terminal && rec.terminal[id] == EndSaid(lines, i, id)
    ensures (forall i :: 0 <= i < |lines| ==> !SaysEnd(lines, i, id)) ==> id !in rec.terminal
  {
    assert lines[..|lines|] == lines;
    LinesCounted(lines, |lines|, TaskRetried, id);
    LinesCounted(lines, |lines|, TaskHandoff, id);
    CorruptCounted(lines, |lines|);
    GapsInOrder(lines, |lines|);
    assert LastEnd(Events(lines), id) == if id in rec.terminal then Some(rec.terminal[id]) else None;
    forall i | 0 <= i < |lines| && LastSaysEnd(lines, i, id)
      ensures id in rec.terminal && rec.terminal[id] == EndSaid(lines, i, id)
    {
      EndFollowsLastLine(lines, |lines|, i, id);
    }
    if forall i :: 0 <= i < |lines| ==> !SaysEnd(lines, i, id) {
      NoEndLine(lines, |lines|, id);
    }
  }

  // ----- the log keeps up with memory -----

  /** Gaps and retries are all logged; handoffs too when `exact`, and never more than were counted. */
  ghost predicate Logged(s: State, exact: bool) {
    && s.mem.gaps == GapsOf(s.disk.log)
    && (forall id :: Count(s.mem.retries, id) == CountOf(s.disk.log, TaskRetried, id))
    && (forall id :: CountOf(s.disk.log, TaskHandoff, id) <= Count(s.mem.handoffs, id))
    && (exact ==> forall id :: Count(s.mem.handoffs, id) == CountOf(s.disk.log, TaskHandoff, id))
  }

  /** The log only grew on the way from `s0` to `s`, and every cut in between lies in that growth. */
  ghost predicate Grown(s0: State, s: State) {
    && s0.cuts <= s.cuts && s0.disk.log <= s.disk.log
    && forall i :: |s0.cuts| <= i < |s.cuts| ==> s0.disk.log <= s.cuts[i].log <= s.disk.log
  }

  lemma GrownWrite(s0: State, s: State, d: Disk)
    requires Grown(s0, s) && s.disk.log <= d.log
    ensures Grown(s0, Write(s, d))
  {
  }

  ghost predicate Tracked(s0: State, s: State, exact: bool) { Grown(s0, s) && Logged(s, exact) }

  predicate Neutral(k: EventKind) { !k.GapRecorded? && !k.TaskRetried? && !k.TaskHandoff? }

  lemma Snoc(log: seq<Event>, e: Event)
    ensures GapsOf(log + [e]) == if e.kind.GapRecorded? then GapsOf(log) + [e.task] else GapsOf(log)
    ensures forall k, id ::
              CountOf(log + [e], k, id) == CountOf(log, k, id) + if e.kind == k && e.task == id then 1 else 0
  {
    assert (log + [e])[..|log|] == log;
  }

  lemma EmitTracked(s0: State, s: State, kind: EventKind, id: string, exact: bool)
    requires Tracked(s0, s, exact) && Neutral(kind)
    ensures Tracked(s0, Emit(s, kind, id), exact)
  {
    Snoc(s.disk.log, Event(kind, id));
    GrownWrite(s0, s, Emit(s, kind, id).disk);
  }

  /** A counter bumped in memory, other writes, then the matching event. */
  lemma EmitCounted(s0: State, s: State, s2: State, kind: EventKind, id: string, exact: bool)
    requires Tracked(s0, s, exact) && Grown(s0, s2) && s2.disk.log == s.disk.log
    requires s2.mem == match kind
             case GapRecorded => s.mem.(gaps := s.mem.gaps + [id])
             case TaskRetried => s.mem.(retries := Bump(s.mem.retries, id))
             case TaskHandoff => s.mem.(handoffs := Bump(s.mem.handoffs, id))
             case _ => s.mem
    requires !Neutral(kind)
    ensures Tracked(s0, Emit(s2, kind, id), exact)
  {
    Snoc(s.disk.log, Event(kind, id));
    GrownWrite(s0, s2, Emit(s2, kind, id).disk);
  }

  lemma ReleaseGrown(s0: State, s: State, w: string, io: ReleaseIo)
    requires Grown(s0, s)
    ensures var s' := Release(s, w, io); Grown(s0, s') && s'.disk.log == s.disk.log && s'.mem == s.mem
  {
    GrownWrite(s0, s, KillSession(s, w).disk);
    var s1 := KillSession(s, w);
    GrownWrite(s0, s1, PutWorker(s1, Worker(w, false, "")).disk);
  }

  lemma {:induction false} BlockOpenGrown(s0: State, s: State, l: seq<Task>, unblocked: set<string>)
    requires Grown(s0, s)
    ensures var s' := BlockOpen(s, l, unblocked); Grown(s0, s') && s'.disk.log == s.disk.log && s'.mem == s.mem
    decreases |l|
  {
    if l != [] {
      GrownWrite(s0, s, PutTask(s, l[0].(status := Blocked)).disk);
      var s1 := if l[0].status.Open? && l[0].id !in unblocked && l[0].id in s.disk.tasks
                then PutTask(s, l[0].(status := Blocked)) else s;
      BlockOpenGrown(s0, s1, l[1..], unblocked);
    }
  }

  lemma AbortTracked(cfg: Config, s0: State, s: State, reason: string, io: OutcomeIo, exact: bool)
    requires Tracked(s0, s, exact)
    ensures Tracked(s0, Abort(cfg, s, reason, io), exact)
  {
    var s1 := s.(mem := SetReason(s.mem, reason).(aborted := true));
    BlockOpenGrown(s0, s1, Sort(BranchTasks(cfg, s1.disk)), io.unblocked);
  }

  lemma TerminalFailureTracked(cfg: Config, s0: State, s: State, t: Task, io: OutcomeIo, exact: bool)
    requires Tracked(s0, s, exact)
    ensures Tracked(s0, TerminalFailure(cfg, s, t, io), exact)
  {
    if t.IsCritical() {
      AbortTracked(cfg, s0, s, "critical_task_failure:" + t.id, io, exact);
      EmitTracked(s0, Abort(cfg, s, "critical_task_failure:" + t.id, io), EscalationCreated, t.id, exact);
    } else {
      var s1 := s.(mem := s.mem.(gaps := s.mem.gaps + [t.id]));
      EmitCounted(s0, s, s1, GapRecorded, t.id, exact);
      var s2 := Emit(s1, GapRecorded, t.id);
      AbortTracked(cfg, s0, s2, "gap_tolerance_exceeded", io, exact);
      EmitTracked(s0, Abort(cfg, s2, "gap_tolerance_exceeded", io), EscalationCreated, t.id, exact);
    }
  }

  lemma TerminateTracked(s0: State, s: State, f: Flight, status: Status, kind: EventKind, io: OutcomeIo, exact: bool)
    requires Tracked(s0, s, exact) && Neutral(kind)
    ensures Tracked(s0, Terminate(s, f, status, kind, io).0, exact)
  {
    var s1 := PutTask(s, f.task.(status := status));
    GrownWrite(s0, s, s1.disk);
    ReleaseGrown(s0, s1, f.worker, io.release);
    EmitTracked(s0, Release(s1, f.worker, io.release), kind, f.task.id, exact);
  }

  lemma FinalTracked(cfg: Config, s0: State, s: State, f: Flight, status: Status, kind: EventKind,
                     io: OutcomeIo, exact: bool)
    requires Tracked(s0, s, exact) && Neutral(kind)
    ensures Tracked(s0, Final(cfg, s, f, status, kind, io), exact)
  {
    TerminateTracked(s0, s, f, status, kind, io, exact);
    TerminalFailureTracked(cfg, s0, Terminate(s, f, status, kind, io).0, f.task, io, exact);
  }

  lemma FailureTracked(cfg: Config, s0: State, s: State, f: Flight, io: OutcomeIo, exact: bool)
    requires Tracked(s0, s, exact)
    ensures Tracked(s0, HandleFailure(cfg, s, f, io), exact)
  {
    var s1 := PutTask(s, f.task.(status := Open, assignee := ""));
    GrownWrite(s0, s, s1.disk);
    var s2 := s1.(mem := s1.mem.(retries := Bump(s1.mem.retries, f.task.id)));
    ReleaseGrown(s0, s2, f.worker, io.release);
    EmitCounted(s0, s, Release(s2, f.worker, io.release), TaskRetried, f.task.id, exact);
    FinalTracked(cfg, s0, s, f, Failed, TaskFailed, io, exact);
  }

  lemma SuccessTracked(cfg: Config, s0: State, s: State, f: Flight, io: OutcomeIo, exact: bool)
    requires Tracked(s0, s, exact)
    ensures Tracked(s0, HandleSuccess(cfg, s, f, io), exact)
  {
    TerminateTracked(s0, s, f, Completed, TaskCompleted, io, exact);
    var s1 := Terminate(s, f, Completed, TaskCompleted, io).0;
    EmitTracked(s0, s1, GraphValidated, f.task.id, exact);
    if io.hook.Rejects? {
      var t := EscalationTask("escalation-graph-" + f.task.id, f.task.Branch());
      GrownWrite(s0, s1, PutTask(s1, t).disk);
      var s2 := CreateTask(s1, t, io.hook.created);
      EmitTracked(s0, s2, GraphInvalid, f.task.id, exact);
      AbortTracked(cfg, s0, Emit(s2, GraphInvalid, f.task.id), io.hook.reason, io, exact);
    }
  }

  lemma SpawnGrown(s0: State, s: State, w: string, t: Task, io: SpawnIo)
    requires Grown(s0, s)
    ensures var s' := Spawn(s, w, t, io).0; Grown(s0, s') && s'.disk.log == s.disk.log && s'.mem == s.mem
  {
    GrownWrite(s0, s, KillSession(s, w).disk);
    var s1 := StartSession(s, w, t.id);
    GrownWrite(s0, s, s1.disk);
    GrownWrite(s0, s1, KillSession(s1, w).disk);
    var s2 := PutWorker(s1, Worker(w, true, t.id));
    GrownWrite(s0, s1, s2.disk);
    GrownWrite(s0, s2, KillSession(s2, w).disk);
    if io.TaskUnwritten? && w in s.disk.workers {
      var s3 := KillIf(s2, w, io.killed);
      GrownWrite(s0, s3, PutWorker(s3, s.disk.workers[w]).disk);
    }
    GrownWrite(s0, s2, PutTask(s2, t.(status := InProgress)).disk);
  }

  lemma RestartGrown(s0: State, s: State, f: Flight, io: OutcomeIo)
    requires Grown(s0, s)
    ensures var s' := Restart(s, f.worker, f.task, io.restartKill, io.spawn).0;
            Grown(s0, s') && s'.disk.log == s.disk.log && s'.mem == s.mem
  {
    GrownWrite(s0, s, KillSession(s, f.worker).disk);
    SpawnGrown(s0, KillSession(s, f.worker), f.worker, f.task, io.spawn);
  }

  lemma HandoffTracked(cfg: Config, s0: State, s: State, f: Flight, io: OutcomeIo, exact: bool)
    requires Tracked(s0, s, exact)
    requires var s1 := s.(mem := s.mem.(handoffs := Bump(s.mem.handoffs, f.task.id)));
             exact ==> cfg.testMode || Restart(s1, f.worker, f.task, io.restartKill, io.spawn).1
    ensures Tracked(s0, HandleHandoff(cfg, s, f, io), exact)
  {
    var id := f.task.id;
    if Count(s.mem.handoffs, id) >= cfg.maxHandoffs {
      EmitTracked(s0, s, HandoffLimitReached, id, exact);
      FailureTracked(cfg, s0, Emit(s, HandoffLimitReached, id), f, io, exact);
    } else {
      var s1 := s.(mem := s.mem.(handoffs := Bump(s.mem.handoffs, id)));
      if cfg.testMode {
        EmitCounted(s0, s, s1, TaskHandoff, id, exact);
      } else {
        RestartGrown(s0, s1, f, io);
        var (s2, ok) := Restart(s1, f.worker, f.task, io.restartKill, io.spawn);
        if ok {
          EmitCounted(s0, s, s2, TaskHandoff, id, exact);
        } else {
          assert Logged(s2, false);
          FailureTracked(cfg, s0, s2, f, io, exact);
        }
      }
    }
  }

  lemma FailTaskTracked(s0: State, s: State, t: Task, w: string, io: DispatchIo, exact: bool)
    requires Tracked(s0, s, exact)
    ensures Tracked(s0, FailTask(s, t, w, io), exact)
  {
    GrownWrite(s0, s, PutTask(s, t.(status := Failed)).disk);
    var s1 := if io.failWrite && t.id in s.disk.tasks then PutTask(s, t.(status := Failed)) else s;
    ReleaseGrown(s0, s1, w, io.release);
    EmitTracked(s0, Release(s1, w, io.release), TaskFailed, t.id, exact);
  }

  lemma BeginTracked(cfg: Config, s0: State, s: State, t: Task, w: string, io: DispatchIo, exact: bool)
    requires Tracked(s0, s, exact)
    ensures Tracked(s0, Begin(cfg, s, t, w, io).0, exact)
  {
    var t1 := t.(status := InProgress);
    if cfg.testMode {
      FailTaskTracked(s0, s, t1, w, io, exact);
      var s1 := PutTask(s, t1);
      GrownWrite(s0, s, s1.disk);
      FailTaskTracked(s0, s1, t1, w, io, exact);
      var s2 := PutWorker(s1, Worker(w, true, t.id));
      GrownWrite(s0, s1, s2.disk);
      EmitTracked(s0, s2, TaskDispatched, t.id, exact);
    } else {
      SpawnGrown(s0, s, w, t, io.spawn);
      var (s1, ok) := Spawn(s, w, t, io.spawn);
      FailTaskTracked(s0, s1, t, w, io, exact);
      FailTaskTracked(s0, s1, t1, w, io, exact);
      EmitTracked(s0, s1, TaskDispatched, t.id, exact);
    }
  }

  lemma DispatchTracked(cfg: Config, s: State, t: Task, io: DispatchIo, exact: bool)
    requires Logged(s, exact)
    ensures Tracked(s, DispatchTask(cfg, s, t, io).0, exact)
  {
    if t.Role() == ESCALATION {
    } else if t.Role() !in cfg.roles {
      EscalateTracked(s, t, io, exact);
    } else {
      var name := WorkerName(|s.disk.workers| + 1);
      GrownWrite(s, s, PutWorker(s, Worker(name, false, "")).disk);
      var (s1, slot) := Allocate(cfg, s, io);
      assert Tracked(s, s1, exact);
      if slot.Some? { AssignedTracked(cfg, s, s1, t, slot.value, io, exact); }
    }
  }

  lemma EscalateTracked(s: State, t: Task, io: DispatchIo, exact: bool)
    requires Logged(s, exact)
    ensures Tracked(s, Escalate(s, t, io), exact)
  {
    var esc := EscalationTask("escalation-" + t.id, t.Branch());
    GrownWrite(s, s, PutTask(s, esc).disk);
    var s1 := CreateTask(s, esc, io.escalationCreated);
    GrownWrite(s, s1, PutTask(s1, t.(status := Blocked)).disk);
    var s2 := if io.blockWrite && t.id in s1.disk.tasks then PutTask(s1, t.(status := Blocked)) else s1;
    EmitTracked(s, s2, EscalationCreated, t.id, exact);
  }

  lemma AssignGrown(s0: State, s: State, id: string, w: string, io: AssignIo)
    requires Grown(s0, s)
    ensures var s' := Assign(s, id, w, io).0; Grown(s0, s') && s'.disk.log == s.disk.log && s'.mem == s.mem
  {
    if id in s.disk.tasks {
      var t0 := s.disk.tasks[id];
      var a := PutTask(s, t0.(status := Assigned, assignee := w));
      GrownWrite(s0, s, a.disk);
      GrownWrite(s0, a, PutWorker(a, Worker(w, true, id)).disk);
      GrownWrite(s0, a, PutTask(a, t0).disk);
    }
  }

  lemma AssignedTracked(cfg: Config, s0: State, s: State, t: Task, w: string, io: DispatchIo, exact: bool)
    requires Tracked(s0, s, exact)
    ensures var (s1, held) := Assign(s, t.id, w, io.assign);
            && Tracked(s0, Release(s1, w, io.release), exact)
            && Tracked(s0, FailTask(s1, Stub(cfg, t), w, io), exact)
            && (held ==> Tracked(s0, Begin(cfg, s1, s1.disk.tasks[t.id], w, io).0, exact))
  {
    var (s1, held) := Assign(s, t.id, w, io.assign);
    AssignGrown(s0, s, t.id, w, io.assign);
    ReleaseGrown(s0, s1, w, io.release);
    FailTaskTracked(s0, s1, Stub(cfg, t), w, io, exact);
    if held { BeginTracked(cfg, s0, s1, s1.disk.tasks[t.id], w, io, exact); }
  }

  /** A production restart that goes through. */
  predicate RestartsWork(cfg: Config, a: Action) {
    a.Outcome? ==> cfg.testMode || (a.outcomeIo.restartKill && a.outcomeIo.spawn.SpawnOk?)
  }

  lemma TrackedStep(cfg: Config, s: State, a: Action, exact: bool)
    requires Flights(s) && Enabled(cfg, s, a) && Logged(s, exact) && (exact ==> RestartsWork(cfg, a))
    ensures Tracked(s, Step(cfg, s, a), exact)
  {
    match a
    case SessionEnds(n) => GrownWrite(s, s, KillSession(s, n).disk);
    case Dispatch(id, io) => DispatchTracked(cfg, s, s.disk.tasks[id], io, exact);
    case Outcome(k, code, io) =>
      var f, s0 := s.inflight[k], Taken(s, k);
      assert Tracked(s, s0, exact) && FlightOk(s0.disk, f);
      match DetermineOutcome(code) {
        case Success => SuccessTracked(cfg, s, s0, f, io, exact);
        case Failure => FailureTracked(cfg, s, s0, f, io, exact);
        case Block => FinalTracked(cfg, s, s0, f, Blocked, TaskBlocked, io, exact);
        case Handoff => HandoffTracked(cfg, s, s0, f, io, exact);
      }
  }

  /** At every step boundary the log folds back to the counters held in memory. */
  lemma {:induction false} LogReplayRefinesMemory(cfg: Config, ss: seq<State>, acts: seq<Action>, i: nat, exact: bool)
    requires IsRun(cfg, ss, acts) && Flights(ss[0]) && Logged(ss[0], exact) && i < |ss|
    requires exact ==> forall j :: 0 <= j < |acts| ==> RestartsWork(cfg, acts[j])
    ensures Logged(ss[i], exact)
  {
    if i > 0 {
      LogReplayRefinesMemory(cfg, ss, acts, i - 1, exact);
      FlightsAlways(cfg, ss, acts, i - 1);
      TrackedStep(cfg, ss[i - 1], acts[i - 1], exact);
    }
  }

  /** The scan of the log file gives the memory back. */
  lemma RecoveredMemory(s: State, rec: Recovery)
    requires Logged(s, true) && Recovers(rec, s.disk.log)
    ensures rec.gaps == s.mem.gaps
    ensures forall id :: Count(rec.retries, id) == Count(s.mem.retries, id)
    ensures forall id :: Count(rec.handoffs, id) == Count(s.mem.handoffs, id)
  {
  }

  // ----- a crash inside a step -----

  lemma {:induction false} PrefixCounts(a: seq<Event>, b: seq<Event>)
    requires a <= b
    ensures GapsOf(a) <= GapsOf(b)
    ensures forall k, id :: CountOf(a, k, id) <= CountOf(b, k, id)
    decreases |b|
  {
    if a != b {
      PrefixCounts(a, b[..|b| - 1]);
    }
  }

  /** `log` lacks at most one increment of `m`. */
  ghost predicate LacksAtMostOne(log: seq<Event>, m: Memory) {
    exists id :: LacksOnly(log, m, id)
  }

  ghost predicate LacksOnly(log: seq<Event>, m: Memory, id: string) {
    && (forall x :: x != id ==> Count(m.retries, x) == CountOf(log, TaskRetried, x))
    && (forall x :: x != id ==> Count(m.handoffs, x) == CountOf(log, TaskHandoff, x))
    && var r := Count(m.retries, id) - CountOf(log, TaskRetried, id);
       var h := Count(m.handoffs, id) - CountOf(log, TaskHandoff, id);
       && r >= 0 && h >= 0
       && ((m.gaps == GapsOf(log) && r + h <= 1) || (m.gaps == GapsOf(log) + [id] && r == h == 0))
  }

  /** Cut inside one step, the log is at most one increment behind the memory that was lost. */
  lemma CrashLosesAtMostOne(cfg: Config, s: State, a: Action, c: nat)
    requires Flights(s) && Enabled(cfg, s, a) && Logged(s, true) && RestartsWork(cfg, a)
    requires |s.cuts| <= c < |Step(cfg, s, a).cuts|
    ensures LacksAtMostOne(Step(cfg, s, a).cuts[c].log, Step(cfg, s, a).mem)
  {
    var s' := Step(cfg, s, a);
    TrackedStep(cfg, s, a, true);
    var id := MovedBy(cfg, s, a);
    CutBetween(s, s', c, id);
  }

  /** The one task whose counters a step may move. */
  lemma MovedBy(cfg: Config, s: State, a: Action) returns (id: string)
    requires Flights(s) && Enabled(cfg, s, a) && RestartsWork(cfg, a)
    ensures OneMore(s.mem, Step(cfg, s, a).mem, id)
  {
    match a
    case SessionEnds(_) => id := "";
    case Dispatch(x, io) =>
      var w, launched := DispatchEffect(cfg, s, x, io);
      id := x;
    case Outcome(k, code, io) =>
      OneIncrement(cfg, s, k, code, io);
      id := s.inflight[k].task.id;
  }

  lemma CutBetween(s: State, s': State, c: nat, id: string)
    requires Logged(s, true) && Tracked(s, s', true) && OneMore(s.mem, s'.mem, id)
    requires |s.cuts| <= c < |s'.cuts|
    ensures LacksOnly(s'.cuts[c].log, s'.mem, id)
  {
    var log := s'.cuts[c].log;
    PrefixCounts(s.disk.log, log);
    PrefixCounts(log, s'.disk.log);
    Squeeze(s.disk.log, log, s.mem, s'.mem, id);
  }

  /** `m'` has one more gap, retry or handoff of `id` than `m`, or none. */
  ghost predicate OneMore(m: Memory, m': Memory, id: string) {
    || (m'.gaps == m.gaps && m'.retries == m.retries && m'.handoffs == m.handoffs)
    || (m'.gaps == m.gaps + [id] && m'.retries == m.retries && m'.handoffs == m.handoffs)
    || (m'.gaps == m.gaps && m'.retries == Bump(m.retries, id) && m'.handoffs == m.handoffs)
    || (m'.gaps == m.gaps && m'.retries == m.retries && m'.handoffs == Bump(m.handoffs, id))
  }

  lemma Squeeze(old_: seq<Event>, log: seq<Event>, m: Memory, m': Memory, id: string)
    requires OneMore(m, m', id)
    requires m.gaps == GapsOf(old_) && m.gaps <= GapsOf(log) <= m'.gaps
    requires forall x :: Count(m.retries, x) <= CountOf(log, TaskRetried, x) <= Count(m'.retries, x)
    requires forall x :: Count(m.handoffs, x) <= CountOf(log, TaskHandoff, x) <= Count(m'.handoffs, x)
    ensures LacksOnly(log, m', id)
  {
  }

  lemma FailureIncrement(cfg: Config, s: State, f: Flight, io: OutcomeIo)
    requires Keyed(s.disk) && FlightOk(s.disk, f)
    ensures OneMore(s.mem, HandleFailure(cfg, s, f, io).mem, f.task.id)
  {
    FailureEffect(cfg, s, f, io);
  }

  lemma HandoffIncrement(cfg: Config, s: State, f: Flight, io: OutcomeIo)
    requires Keyed(s.disk) && FlightOk(s.disk, f)
    requires Count(s.mem.handoffs, f.task.id) < cfg.maxHandoffs && !cfg.testMode ==> io.restartKill && io.spawn.SpawnOk?
    ensures OneMore(s.mem, HandleHandoff(cfg, s, f, io).mem, f.task.id)
  {
    if Count(s.mem.handoffs, f.task.id) >= cfg.maxHandoffs {
      FailureIncrement(cfg, Emit(s, HandoffLimitReached, f.task.id), f, io);
    } else if !cfg.testMode {
      var s1 := s.(mem := s.mem.(handoffs := Bump(s.mem.handoffs, f.task.id)));
      RestartEffect(s1, f, io);
      assert Restart(s1, f.worker, f.task, io.restartKill, io.spawn).1;
    }
  }

  lemma OneIncrement(cfg: Config, s: State, k: nat, code: int, io: OutcomeIo)
    requires Flights(s) && k in s.inflight && RestartsWork(cfg, Outcome(k, code, io))
    ensures OneMore(s.mem, Step(cfg, s, Outcome(k, code, io)).mem, s.inflight[k].task.id)
  {
    var f, s0 := s.inflight[k], Taken(s, k);
    assert FlightOk(s0.disk, f);
    match DetermineOutcome(code)
    case Success => SuccessEffect(cfg, s0, f, io);
    case Failure => FailureIncrement(cfg, s0, f, io);
    case Block => FinalEffect(cfg, s0, f, Blocked, TaskBlocked, io);
    case Handoff => HandoffIncrement(cfg, s0, f, io);
  }

  // ----- human re-opens -----

  /** The tasks Reconcile would report as re-opened by a human. */
  ghost function HumanReopens(d: Disk): set<string> {
    set id | id in d.tasks && d.tasks[id].status.Open? && LastEnd(d.log, id).Some?
  }

  lemma {:induction false} LastEndReported(log: seq<Event>, id: string)
    requires LastEnd(log, id).Some?
    ensures exists e :: e in log && EndKind(e.kind) && e.task == id
  {
    if !(log[|log| - 1].task == id && EndKind(log[|log| - 1].kind)) {
      LastEndReported(log[..|log| - 1], id);
    }
  }

  lemma {:induction false} LastEndIsAnEvent(log: seq<Event>, id: string) returns (e: Event)
    requires LastEnd(log, id).Some?
    ensures e in log && e.task == id && EndKind(e.kind)
    ensures LastEnd(log, id) == Some(EndStatus(e.kind))
  {
    var last := log[|log| - 1];
    if last.task == id && EndKind(last.kind) { e := last; } else { e := LastEndIsAnEvent(log[..|log| - 1], id); }
  }

  /** What a recovery learns about ends is what the store holds: cut a run after any write, and the last end the log
      reports for a task is the task's status. */
  lemma RecoveredEnds(cfg: Config, ss: seq<State>, acts: seq<Action>, i: nat, cut: Disk, rec: Recovery, id: string)
    requires IsRun(cfg, ss, acts) && Consistent(cfg, ss[0]) && i < |ss|
    requires forall j :: 0 <= j < |acts| ==> Recorded(acts[j])
    requires cut in ss[i].cuts && Recovers(rec, cut.log) && id in rec.terminal
    ensures id in cut.tasks && cut.tasks[id].status == rec.terminal[id]
  {
    EveryCutIsRecoverable(cfg, ss, acts, i);
    assert LastEnd(cut.log, id) == Some(rec.terminal[id]);
    var e := LastEndIsAnEvent(cut.log, id);
  }

  /** Resetting stale tasks opens none that the log reports ended. */
  lemma RecoverableHasNoReopens(branch: string, d: Disk, unkilled: set<string>)
    requires Recoverable(branch, d)
    ensures HumanReopens(d) == {} && HumanReopens(Reconciled(branch, d, unkilled)) == {}
  {
    var r := Reconciled(branch, d, unkilled);
    forall id | LastEnd(d.log, id).Some? && id in d.tasks
      ensures d.tasks[id].status.Terminal() && r.tasks[id] == d.tasks[id]
    {
      LastEndReported(d.log, id);
    }
  }

  /** Without an outside writer, cut a run after any of its writes and let any agents die with it: the Reconcile
      that follows reports no re-open. */
  lemma NoPhantomReopens(cfg: Config, ss: seq<State>, acts: seq<Action>, i: nat,
                         cut: Disk, lost: set<string>, unkilled: set<string>)
    requires IsRun(cfg, ss, acts) && Consistent(cfg, ss[0]) && i < |ss|
    requires forall j :: 0 <= j < |acts| ==> Recorded(acts[j])
    requires cut in ss[i].cuts
    ensures HumanReopens(Reconciled(cfg.branch, cut.(sessions := cut.sessions - lost), unkilled)) == {}
  {
    EveryCutIsRecoverable(cfg, ss, acts, i);
    LostSessionsRecoverable(cfg.branch, cut, lost);
    RecoverableHasNoReopens(cfg.branch, cut.(sessions := cut.sessions - lost), unkilled);
  }
}
