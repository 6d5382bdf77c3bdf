// The dispatcher as a state machine (orch/dispatch.go, orch/session.go, orch/ledger_fs.go).
//
// A `State` holds what is persisted (`disk`), what lives in memory (`mem`) and the agents
// whose outcome has not been processed (`inflight`). `cuts` records the disk after every
// single write, so a crash at any point leaves one of the recorded disks behind; `started` counts the
// sessions created for each task.
// The results of I/O calls are inputs (`OutcomeIo`, `DispatchIo`): a failed call has no effect.
module Machine {
  import opened Types
  import opened Graph
  import opened Ordering

  datatype EventKind =
    | TaskDispatched | TaskCompleted | TaskFailed | TaskRetried | TaskBlocked | TaskHandoff
    | GapRecorded | EscalationCreated | EscalationResolved | HandoffLimitReached
    | GraphValidated | GraphInvalid | LifecycleStarted | LifecycleCompleted

  datatype Event = Event(kind: EventKind, task: string)

  datatype Disk = Disk(tasks: map<string, Task>, workers: map<string, Worker>, sessions: set<string>, log: seq<Event>)

  datatype Memory = Memory(aborted: bool, reason: string, gaps: seq<string>,
                           retries: map<string, nat>, handoffs: map<string, nat>)

  /** A launched agent: the task copy it was given and the worker it occupies. */
  datatype Flight = Flight(task: Task, worker: string)

  datatype State = State(disk: Disk, mem: Memory, inflight: map<nat, Flight>, next: nat, cuts: seq<Disk>,
                         started: map<string, nat>)

  datatype Config = Config(branch: string, roles: set<string>, deps: Graph, maxWorkers: int,
                           maxRetries: int, maxHandoffs: int, tolerance: int, testMode: bool)

  // ----- results of I/O calls -----

  /** A release may fail before it touches anything, or after killing the session. */
  datatype ReleaseIo = Released | NotReached | KilledOnly

  /** Where SpawnSession fails, and which parts of its rollback succeed. */
  datatype SpawnIo =
    | SpawnOk
    | NotCreated(killed: bool)
    | WorkerUnwritten(killed: bool)
    | TaskUnwritten(killed: bool, restored: bool)

  datatype AssignIo = AssignOk | AssignRejected | WorkerFailed(rolledBack: bool)

  /** What the post-success hook does: nothing, accept the graph, or reject it and abort. */
  datatype Hook = Silent | Accepts | Rejects(reason: string, created: bool)

  /** `unblocked` are the tasks whose blocking write fails during abort cleanup. */
  datatype OutcomeIo = OutcomeIo(retryWrite: bool, finalWrite: bool, release: ReleaseIo, restartKill: bool,
                                 spawn: SpawnIo, listed: bool, unblocked: set<string>, hook: Hook)

  datatype DispatchIo = DispatchIo(escalationCreated: bool, blockWrite: bool, workersListed: bool, workerCreated: bool,
                                   assign: AssignIo, reread: bool, startWrite: bool, activeWrite: bool,
                                   spawn: SpawnIo, workerReread: bool, failWrite: bool, release: ReleaseIo)

  // ----- single writes -----

  function Count(m: map<string, nat>, id: string): nat { if id in m then m[id] else 0 }

  function Bump(m: map<string, nat>, id: string): map<string, nat> { m[id := Count(m, id) + 1] }

  function Write(s: State, d: Disk): State { s.(disk := d, cuts := s.cuts + [d]) }

  function PutTask(s: State, t: Task): State { Write(s, s.disk.(tasks := s.disk.tasks[t.id := t])) }

  function PutWorker(s: State, w: Worker): State { Write(s, s.disk.(workers := s.disk.workers[w.name := w])) }

  function KillSession(s: State, name: string): State { Write(s, s.disk.(sessions := s.disk.sessions - {name})) }

  function StartSession(s: State, name: string, id: string): State {
    Write(s, s.disk.(sessions := s.disk.sessions + {name})).(started := Bump(s.started, id))
  }

  function Emit(s: State, kind: EventKind, id: string): State {
    Write(s, s.disk.(log := s.disk.log + [Event(kind, id)]))
  }

  function Launch(s: State, f: Flight): State {
    s.(inflight := s.inflight[s.next := f], next := s.next + 1)
  }

  // ----- worker pool -----

  function Digits(n: nat): string {
    if n < 10 then [('0' as int + n) as char] else Digits(n / 10) + [('0' as int + n % 10) as char]
  }

  /** w-01, w-02, ... */
  function WorkerName(n: nat): string {
    "w-" + if n < 10 then "0" + Digits(n) else Digits(n)
  }

  ghost function Least(names: set<string>): (r: string)
    requires names != {}
    ensures r in names && forall n :: n in names ==> n == r || StringLess(r, n)
  {
    var x :| x in names;
    if names == {x} then x else
      var r := Least(names - {x});
      StringLessTotal(x, r);
      assert forall n :: n in names - {x} && n != r && StringLess(x, r) ==> StringLess(x, n) by {
        forall n | n in names - {x} && n != r && StringLess(x, r) ensures StringLess(x, n) { StringLessTrans(x, r, n); }
      }
      if StringLess(x, r) then x else r
  }

  /** The names in order. */
  ghost function Names(names: set<string>): seq<string> {
    if names == {} then [] else [Least(names)] + Names(names - {Least(names)})
  }

  lemma {:induction false} NamesInOrder(names: set<string>)
    ensures var r := Names(names);
            && (forall n :: n in r <==> n in names)
            && (forall i, j :: 0 <= i < j < |r| ==> StringLess(r[i], r[j]))
  {
    if names != {} {
      var rest := Names(names - {Least(names)});
      NamesInOrder(names - {Least(names)});
      assert forall i :: 0 <= i < |rest| ==> rest[i] in rest;
    }
  }

  ghost function Records(d: Disk, names: seq<string>): (l: seq<Worker>)
    requires forall n :: n in names ==> n in d.workers
    ensures |l| == |names| && forall i :: 0 <= i < |l| ==> l[i] == d.workers[names[i]]
  {
    if names == [] then [] else [d.workers[names[0]]] + Records(d, names[1..])
  }

  /** The worker records by name. */
  ghost function Roster(d: Disk): seq<Worker> {
    NamesInOrder(d.workers.Keys);
    Records(d, Names(d.workers.Keys))
  }

  function Idle(d: Disk): set<string> { set n | n in d.workers && !d.workers[n].active }

  function Active(d: Disk): set<string> { set n | n in d.workers && d.workers[n].active }

  /** The first idle worker by name, or a new one while the pool is not full. */
  ghost function Allocate(cfg: Config, s: State, io: DispatchIo): (State, Option<string>) {
    if !io.workersListed then (s, None)
    else if Idle(s.disk) != {} then (s, Some(Least(Idle(s.disk))))
    else if |s.disk.workers| >= cfg.maxWorkers then (s, None)
    else
      var name := WorkerName(|s.disk.workers| + 1);
      if !io.workerCreated || name in s.disk.workers then (s, None)
      else (PutWorker(s, Worker(name, false, "")), Some(name))
  }

  function Release(s: State, w: string, io: ReleaseIo): State {
    if w !in s.disk.workers || io.NotReached? then s else
      var s1 := KillSession(s, w);
      if io.KilledOnly? then s1 else PutWorker(s1, Worker(w, false, ""))
  }

  function KillIf(s: State, w: string, killed: bool): State { if killed then KillSession(s, w) else s }

  /** Session first, then the worker record, then the task record; undone in reverse on failure. */
  function Spawn(s: State, w: string, t: Task, io: SpawnIo): (State, bool) {
    if io.NotCreated? then (KillIf(s, w, io.killed), false) else
      var s1, killed := StartSession(s, w, t.id), io.SpawnOk? || io.killed;
      if io.WorkerUnwritten? || w !in s.disk.workers then (KillIf(s1, w, killed), false)
      else
        var s2 := PutWorker(s1, Worker(w, true, t.id));
        if io.TaskUnwritten? || t.id !in s.disk.tasks then
          var s3 := KillIf(s2, w, killed);
          (if io.SpawnOk? || io.restored then PutWorker(s3, s.disk.workers[w]) else s3, false)
        else (PutTask(s2, t.(status := InProgress)), true)
  }

  /** Task record then worker record, with the task restored when the second write fails. */
  function Assign(s: State, id: string, w: string, io: AssignIo): (State, bool) {
    if id !in s.disk.tasks || s.disk.tasks[id].assignee != "" || !s.disk.tasks[id].status.Open? then (s, false)
    else if w !in s.disk.workers || s.disk.workers[w].active || io.AssignRejected? then (s, false)
    else
      var t := s.disk.tasks[id];
      var s1 := PutTask(s, t.(status := Assigned, assignee := w));
      if io.AssignOk? then (PutWorker(s1, Worker(w, true, id)), true)
      else if io.rolledBack then (PutTask(s1, t), false)
      else (s1, false)
  }

  // ----- outcomes -----

  datatype AgentOutcome = Success | Failure | Block | Handoff

  function DetermineOutcome(exitCode: int): AgentOutcome {
    match exitCode
    case 0 => Success
    case 1 => Failure
    case 2 => Block
    case 3 => Handoff
    case _ => Failure
  }

  function BranchTasks(cfg: Config, d: Disk): set<Task> {
    set id | id in d.tasks && d.tasks[id].Branch() == cfg.branch :: d.tasks[id]
  }

  /** The sorted listing of a set of tasks; ids are distinct in every keyed ledger. */
  ghost function Sort(s: set<Task>): seq<Task> { if DistinctTasks(s) then Listing(s) else [] }

  function BlockOpen(s: State, l: seq<Task>, unblocked: set<string>): State
    decreases |l|
  {
    if l == [] then s else
      var t := l[0];
      var s1 := if t.status.Open? && t.id !in unblocked && t.id in s.disk.tasks
                then PutTask(s, t.(status := Blocked)) else s;
      BlockOpen(s1, l[1..], unblocked)
  }

  ghost function AbortCleanup(cfg: Config, s: State, io: OutcomeIo): State {
    if io.listed then BlockOpen(s, Sort(BranchTasks(cfg, s.disk)), io.unblocked) else s
  }

  /** The first non-empty reason wins. */
  function SetReason(m: Memory, reason: string): Memory {
    if reason != "" && m.reason == "" then m.(reason := reason) else m
  }

  ghost function Abort(cfg: Config, s: State, reason: string, io: OutcomeIo): State {
    AbortCleanup(cfg, s.(mem := SetReason(s.mem, reason).(aborted := true)), io)
  }

  ghost function TerminalFailure(cfg: Config, s: State, t: Task, io: OutcomeIo): State {
    if t.IsCritical() then
      Emit(Abort(cfg, s, "critical_task_failure:" + t.id, io), EscalationCreated, t.id)
    else
      var s1 := Emit(s.(mem := s.mem.(gaps := s.mem.gaps + [t.id])), GapRecorded, t.id);
      if |s1.mem.gaps| >= cfg.tolerance
      then Emit(Abort(cfg, s1, "gap_tolerance_exceeded", io), EscalationCreated, t.id)
      else s1
  }

  function Terminate(s: State, f: Flight, status: Status, kind: EventKind, io: OutcomeIo): (State, bool) {
    if !io.finalWrite || f.task.id !in s.disk.tasks then (s, false) else
      (Emit(Release(PutTask(s, f.task.(status := status)), f.worker, io.release), kind, f.task.id), true)
  }

  ghost function Final(cfg: Config, s: State, f: Flight, status: Status, kind: EventKind, io: OutcomeIo): State {
    var (s1, persisted) := Terminate(s, f, status, kind, io);
    if persisted then TerminalFailure(cfg, s1, f.task, io) else s1
  }

  ghost function HandleFailure(cfg: Config, s: State, f: Flight, io: OutcomeIo): State {
    if Count(s.mem.retries, f.task.id) < cfg.maxRetries && io.retryWrite && f.task.id in s.disk.tasks then
      var s1 := PutTask(s, f.task.(status := Open, assignee := ""));
      var s2 := s1.(mem := s1.mem.(retries := Bump(s1.mem.retries, f.task.id)));
      Emit(Release(s2, f.worker, io.release), TaskRetried, f.task.id)
    else
      Final(cfg, s, f, Failed, TaskFailed, io)
  }

  function EscalationTask(id: string, branch: string): Task {
    Task(id, Open, "", 0, map[LABEL_BRANCH := branch, LABEL_ROLE := ESCALATION, LABEL_CRITICALITY := "critical"])
  }

  function CreateTask(s: State, t: Task, created: bool): State {
    if created && t.id !in s.disk.tasks then PutTask(s, t) else s
  }

  ghost function RunHook(cfg: Config, s: State, t: Task, io: OutcomeIo): State {
    match io.hook
    case Silent => s
    case Accepts => Emit(s, GraphValidated, t.id)
    case Rejects(reason, created) =>
      var s1 := CreateTask(s, EscalationTask("escalation-graph-" + t.id, t.Branch()), created);
      Abort(cfg, Emit(s1, GraphInvalid, t.id), reason, io)
  }

  ghost function HandleSuccess(cfg: Config, s: State, f: Flight, io: OutcomeIo): State {
    var (s1, persisted) := Terminate(s, f, Completed, TaskCompleted, io);
    if persisted then RunHook(cfg, s1, f.task, io) else s1
  }

  function Restart(s: State, w: string, t: Task, kill: bool, io: SpawnIo): (State, bool) {
    if !kill then (s, false) else Spawn(KillSession(s, w), w, t, io)
  }

  ghost function HandleHandoff(cfg: Config, s: State, f: Flight, io: OutcomeIo): State {
    if Count(s.mem.handoffs, f.task.id) < cfg.maxHandoffs then
      var s1 := s.(mem := s.mem.(handoffs := Bump(s.mem.handoffs, f.task.id)));
      if cfg.testMode then Launch(Emit(s1, TaskHandoff, f.task.id), f)
      else
        var (s2, restarted) := Restart(s1, f.worker, f.task, io.restartKill, io.spawn);
        if restarted then Emit(s2, TaskHandoff, f.task.id) else HandleFailure(cfg, s2, f, io)
    else
      HandleFailure(cfg, Emit(s, HandoffLimitReached, f.task.id), f, io)
  }

  ghost function ProcessOutcome(cfg: Config, s: State, f: Flight, exitCode: int, io: OutcomeIo): State {
    match DetermineOutcome(exitCode)
    case Success => HandleSuccess(cfg, s, f, io)
    case Failure => HandleFailure(cfg, s, f, io)
    case Block => Final(cfg, s, f, Blocked, TaskBlocked, io)
    case Handoff => HandleHandoff(cfg, s, f, io)
  }

  // ----- dispatch -----

  ghost predicate DepsTerminal(deps: Graph, d: Disk, id: string) {
    forall dep :: dep in Succ(deps, id) ==> dep in d.tasks && d.tasks[dep].status.Terminal()
  }

  ghost predicate Ready(cfg: Config, d: Disk, id: string) {
    && id in d.tasks && d.tasks[id].status.Open? && d.tasks[id].assignee == ""
    && d.tasks[id].Branch() == cfg.branch
    && DepsTerminal(cfg.deps, d, id)
  }

  ghost function ReadySet(cfg: Config, d: Disk): set<Task> {
    set id | id in d.tasks && Ready(cfg, d, id) :: d.tasks[id]
  }

  function Escalate(s: State, t: Task, io: DispatchIo): State {
    var s1 := CreateTask(s, EscalationTask("escalation-" + t.id, t.Branch()), io.escalationCreated);
    var s2 := if io.blockWrite && t.id in s1.disk.tasks then PutTask(s1, t.(status := Blocked)) else s1;
    Emit(s2, EscalationCreated, t.id)
  }

  function FailTask(s: State, t: Task, w: string, io: DispatchIo): State {
    var s1 := if io.failWrite && t.id in s.disk.tasks then PutTask(s, t.(status := Failed)) else s;
    Emit(Release(s1, w, io.release), TaskFailed, t.id)
  }

  datatype Verdict = Skipped | Launched | Stop

  function Begin(cfg: Config, s: State, t: Task, w: string, io: DispatchIo): (State, Verdict) {
    var t1 := t.(status := InProgress);
    if cfg.testMode then
      if !io.startWrite || t.id !in s.disk.tasks then (FailTask(s, t1, w, io), Skipped) else
        var s1 := PutTask(s, t1);
        if !io.activeWrite || w !in s1.disk.workers then (FailTask(s1, t1, w, io), Skipped) else
          (Launch(Emit(PutWorker(s1, Worker(w, true, t.id)), TaskDispatched, t.id), Flight(t1, w)), Launched)
    else
      var (s1, spawned) := Spawn(s, w, t, io.spawn);
      if !spawned then (FailTask(s1, t, w, io), Skipped)
      else if !io.workerReread then (FailTask(s1, t1, w, io), Skipped)
      else (Launch(Emit(s1, TaskDispatched, t.id), Flight(t1, w)), Launched)
  }

  /** The stand-in record used when the task cannot be read back after assignment. */
  function Stub(cfg: Config, t: Task): Task {
    Task(t.id, Open, "", 0, map[LABEL_ROLE := t.Role(), LABEL_BRANCH := cfg.branch])
  }

  /** Assign the task to the worker, and start it. */
  function DispatchTo(cfg: Config, s: State, t: Task, w: string, io: DispatchIo): (State, Verdict) {
    var (s1, held) := Assign(s, t.id, w, io.assign);
    if !held then (Release(s1, w, io.release), Skipped)
    else if !io.reread then (FailTask(s1, Stub(cfg, t), w, io), Skipped)
    else Begin(cfg, s1, s1.disk.tasks[t.id], w, io)
  }

  ghost function DispatchTask(cfg: Config, s: State, t: Task, io: DispatchIo): (State, Verdict) {
    if t.Role() == ESCALATION then (s, Skipped)
    else if t.Role() !in cfg.roles then (Escalate(s, t, io), Skipped)
    else
      var (s1, w) := Allocate(cfg, s, io);
      if w.None? then (s1, Stop) else DispatchTo(cfg, s1, t, w.value, io)
  }

  // ----- the end -----

  /** Every branch task is terminal, at least one exists, and no worker is active. */
  ghost predicate Finished(cfg: Config, d: Disk) {
    && BranchTasks(cfg, d) != {} && Active(d) == {}
    && forall t :: t in BranchTasks(cfg, d) ==> t.status.Terminal()
  }

  // ----- runs -----

  datatype Action =
    | Outcome(ticket: nat, exitCode: int, outcomeIo: OutcomeIo)
    | Dispatch(id: string, dispatchIo: DispatchIo)
    | SessionEnds(name: string)

  ghost predicate Enabled(cfg: Config, s: State, a: Action) {
    match a
    case Outcome(k, _, _) => k in s.inflight
    case Dispatch(id, _) => !s.mem.aborted && Ready(cfg, s.disk, id)
    case SessionEnds(_) => true
  }

  function Taken(s: State, k: nat): State { s.(inflight := s.inflight - {k}) }

  ghost function Step(cfg: Config, s: State, a: Action): State
    requires Enabled(cfg, s, a)
  {
    match a
    case Outcome(k, code, io) => ProcessOutcome(cfg, Taken(s, k), s.inflight[k], code, io)
    case Dispatch(id, io) => DispatchTask(cfg, s, s.disk.tasks[id], io).0
    case SessionEnds(n) => KillSession(s, n)
  }

  /** `ss` are the states met while performing `acts` one after the other. */
  ghost predicate IsRun(cfg: Config, ss: seq<State>, acts: seq<Action>) {
    && |ss| == |acts| + 1
    && forall i :: 0 <= i < |acts| ==> Enabled(cfg, ss[i], acts[i]) && ss[i + 1] == Step(cfg, ss[i], acts[i])
  }

  /** Records are filed under their own name, and no name is empty. */
  ghost predicate Keyed(d: Disk) {
    && (forall id :: id in d.tasks ==> d.tasks[id].id == id)
    && (forall n :: n in d.workers ==> d.workers[n].name == n)
    && "" !in d.workers && "" !in d.tasks
  }
}
