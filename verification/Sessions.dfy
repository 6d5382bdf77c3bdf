// The dispatcher and the watchdog as two interleaved writers (orch/dispatch.go, orch/watchdog.go).
//
// Every step is one atomic call: a store call under the store's mutex, a counter call under the
// handoff mutex, or the creation of a session. Both threads may act on stale task copies, and late
// outcomes carry arbitrary ones.
module Sessions {
  import opened Types
  import opened Machine

  /** The dispatcher between two calls: about to record an attempt, to create a session it owes, or to
      write the record of one. */
  datatype DispatcherAt =
    | Resting | Recording(task: Task)
    | Spawning(task: Task) | Spawned(task: Task) | Restarting(task: Task) | Restarted(task: Task)

  /** The watchdog, likewise, after it has seen a dead session. */
  datatype WatchdogAt = Watching | Seen(task: Task) | Reviving(task: Task) | Revived(task: Task)

  datatype Shared = Shared(tasks: map<string, Task>, attempts: map<string, nat>, handoffs: map<string, nat>,
                           started: map<string, nat>, dispatcher: DispatcherAt, watchdog: WatchdogAt)

  datatype Limits = Limits(maxRetries: int, maxHandoffs: int)

  datatype Call =
    // dispatcher
    | Settle(task: Task)                 // any write of a record that is not open
    | Reopen(task: Task)                 // the retry write
    | RecordAttempt
    | File(task: Task)                   // a new escalation task
    | AssignTo(id: string, worker: string)
    | AssignLost(id: string, worker: string) // worker write and rollback both failed
    | DispatcherTryRecord(task: Task)
    | DispatcherSession(created: bool)
    | DispatcherInProgress(written: bool)
    // watchdog
    | WatchdogRead(id: string)
    | WatchdogTryRecord
    | WatchdogSession(created: bool)
    | WatchdogInProgress(written: bool)

  predicate Possible(lim: Limits, s: Shared, c: Call) {
    match c
    case Settle(t) => s.dispatcher.Resting? && t.id in s.tasks && !t.status.Open?
    case Reopen(t) => s.dispatcher.Resting? && t.id in s.tasks && Count(s.attempts, t.id) < lim.maxRetries
    case RecordAttempt => s.dispatcher.Recording?
    case File(t) => s.dispatcher.Resting? && t.id !in s.tasks
    case AssignTo(id, _) =>
      s.dispatcher.Resting? && id in s.tasks && s.tasks[id].status.Open? && s.tasks[id].assignee == ""
    case AssignLost(id, _) =>
      s.dispatcher.Resting? && id in s.tasks && s.tasks[id].status.Open? && s.tasks[id].assignee == ""
    case DispatcherTryRecord(t) => s.dispatcher.Resting? && Count(s.handoffs, t.id) < lim.maxHandoffs
    case DispatcherSession(_) => s.dispatcher.Spawning? || s.dispatcher.Restarting?
    case DispatcherInProgress(written) =>
      (s.dispatcher.Spawned? || s.dispatcher.Restarted?) && (written ==> s.dispatcher.task.id in s.tasks)
    case WatchdogRead(id) => s.watchdog.Watching? && id in s.tasks && !s.tasks[id].status.Terminal()
    case WatchdogTryRecord => s.watchdog.Seen?
    case WatchdogSession(_) => s.watchdog.Reviving?
    case WatchdogInProgress(written) => s.watchdog.Revived? && (written ==> s.watchdog.task.id in s.tasks)
  }

  function Put(s: Shared, t: Task): Shared { s.(tasks := s.tasks[t.id := t]) }

  function Start(s: Shared, id: string): Shared { s.(started := Bump(s.started, id)) }

  function Perform(lim: Limits, s: Shared, c: Call): Shared
    requires Possible(lim, s, c)
  {
    match c
    case Settle(t) => Put(s, t)
    case Reopen(t) => Put(s, t.(status := Open, assignee := "")).(dispatcher := Recording(t))
    case RecordAttempt => s.(attempts := Bump(s.attempts, s.dispatcher.task.id), dispatcher := Resting)
    case File(t) => Put(s, t.(status := Open))
    case AssignTo(id, w) =>
      var t := s.tasks[id].(id := id, status := Assigned, assignee := w);
      Put(s, t).(dispatcher := Spawning(t))
    case AssignLost(id, w) => Put(s, s.tasks[id].(id := id, status := Assigned, assignee := w))
    case DispatcherTryRecord(t) => s.(handoffs := Bump(s.handoffs, t.id), dispatcher := Restarting(t))
    case DispatcherSession(created) =>
      var t := s.dispatcher.task;
      if !created then s.(dispatcher := Resting)
      else Start(s, t.id).(dispatcher := if s.dispatcher.Spawning? then Spawned(t) else Restarted(t))
    case DispatcherInProgress(written) =>
      (if written then Put(s, s.dispatcher.task.(status := InProgress)) else s).(dispatcher := Resting)
    case WatchdogRead(id) => s.(watchdog := Seen(s.tasks[id].(id := id)))
    case WatchdogTryRecord =>
      var t := s.watchdog.task;
      if Count(s.handoffs, t.id) < lim.maxHandoffs
      then s.(handoffs := Bump(s.handoffs, t.id), watchdog := Reviving(t))
      else s.(watchdog := Watching)
    case WatchdogSession(created) =>
      var t := s.watchdog.task;
      if created then Start(s, t.id).(watchdog := Revived(t)) else s.(watchdog := Watching)
    case WatchdogInProgress(written) =>
      (if written then Put(s, s.watchdog.task.(status := InProgress)) else s).(watchdog := Watching)
  }

  /** A session the dispatcher has paid for and not created yet. */
  function Owed(s: Shared, id: string): nat {
    (if (s.dispatcher.Spawning? || s.dispatcher.Restarting?) && s.dispatcher.task.id == id then 1 else 0) +
    (if s.watchdog.Reviving? && s.watchdog.task.id == id then 1 else 0)
  }

  /** Recorded attempts, and the one a finished retry write is about to record. */
  function Attempts(s: Shared, id: string): nat {
    Count(s.attempts, id) + if s.dispatcher.Recording? && s.dispatcher.task.id == id then 1 else 0
  }

  /** A task in the queue, or not filed yet, can be dispatched once more. */
  function Credit(s: Shared, id: string): nat { if id !in s.tasks || s.tasks[id].status.Open? then 1 else 0 }

  /** Every session, owed session and place in the queue is paid for by the first dispatch, a recorded
      attempt or a recorded handoff. */
  ghost predicate PaidFor(s: Shared, id: string) {
    Count(s.started, id) + Owed(s, id) + Credit(s, id) <= 1 + Attempts(s, id) + Count(s.handoffs, id)
  }

  function Cap(n: int): nat { if n > 0 then n else 0 }

  ghost predicate WithinBudget(lim: Limits, s: Shared, id: string) {
    && PaidFor(s, id)
    && Attempts(s, id) <= Cap(lim.maxRetries) && Count(s.handoffs, id) <= Cap(lim.maxHandoffs)
  }

  lemma BudgetStep(lim: Limits, s: Shared, c: Call, id: string)
    requires Possible(lim, s, c) && WithinBudget(lim, s, id)
    ensures WithinBudget(lim, Perform(lim, s, c), id)
  {
    var s' := Perform(lim, s, c);
    match c
    case Settle(_) | Reopen(_) | RecordAttempt | File(_) | AssignTo(_, _) | AssignLost(_, _) =>
      QueueStep(lim, s, c, id);
    case DispatcherTryRecord(_) | DispatcherSession(_) | DispatcherInProgress(_) => DispatcherStep(lim, s, c, id);
    case WatchdogRead(_) | WatchdogTryRecord | WatchdogSession(_) | WatchdogInProgress(_) =>
      WatchdogStep(lim, s, c, id);
  }

  lemma QueueStep(lim: Limits, s: Shared, c: Call, id: string)
    requires Possible(lim, s, c) && WithinBudget(lim, s, id)
    requires c.Settle? || c.Reopen? || c.RecordAttempt? || c.File? || c.AssignTo? || c.AssignLost?
    ensures WithinBudget(lim, Perform(lim, s, c), id)
  {
    var s' := Perform(lim, s, c);
    assert s'.started == s.started && s'.handoffs == s.handoffs && s'.watchdog == s.watchdog;
    assert c.Settle? || c.File? || c.AssignLost? ==> s'.dispatcher == s.dispatcher;
    assert !c.RecordAttempt? ==> s'.attempts == s.attempts;
  }

  lemma DispatcherStep(lim: Limits, s: Shared, c: Call, id: string)
    requires Possible(lim, s, c) && WithinBudget(lim, s, id)
    requires c.DispatcherTryRecord? || c.DispatcherSession? || c.DispatcherInProgress?
    ensures WithinBudget(lim, Perform(lim, s, c), id)
  {
    match c
    case DispatcherTryRecord(t) => DispatcherPays(lim, s, t, id);
    case DispatcherSession(created) => DispatcherRestarts(lim, s, created, id);
    case DispatcherInProgress(written) =>
      var s' := Perform(lim, s, c);
      assert s'.handoffs == s.handoffs && s'.started == s.started && Attempts(s', id) == Attempts(s, id);
      assert Credit(s', id) <= Credit(s, id) && Owed(s', id) <= Owed(s, id);
  }

  lemma DispatcherPays(lim: Limits, s: Shared, t: Task, id: string)
    requires Possible(lim, s, DispatcherTryRecord(t)) && WithinBudget(lim, s, id)
    ensures WithinBudget(lim, Perform(lim, s, DispatcherTryRecord(t)), id)
  {
    var s' := Perform(lim, s, DispatcherTryRecord(t));
    assert Attempts(s', id) == Attempts(s, id);
    assert Count(s'.handoffs, id) - Count(s.handoffs, id) == Owed(s', id) - Owed(s, id);
  }

  lemma DispatcherRestarts(lim: Limits, s: Shared, created: bool, id: string)
    requires Possible(lim, s, DispatcherSession(created)) && WithinBudget(lim, s, id)
    ensures WithinBudget(lim, Perform(lim, s, DispatcherSession(created)), id)
  {
    var s' := Perform(lim, s, DispatcherSession(created));
    assert Attempts(s', id) == Attempts(s, id);
    assert created ==> Count(s'.started, id) - Count(s.started, id) == Owed(s, id) - Owed(s', id);
  }

  lemma WatchdogStep(lim: Limits, s: Shared, c: Call, id: string)
    requires Possible(lim, s, c) && WithinBudget(lim, s, id)
    requires c.WatchdogRead? || c.WatchdogTryRecord? || c.WatchdogSession? || c.WatchdogInProgress?
    ensures WithinBudget(lim, Perform(lim, s, c), id)
  {
    var s' := Perform(lim, s, c);
    assert Attempts(s', id) == Attempts(s, id);
    match c
    case WatchdogInProgress(_) =>
      assert s'.handoffs == s.handoffs && s'.started == s.started;
      assert Credit(s', id) <= Credit(s, id);
      assert Owed(s', id) <= Owed(s, id);
    case WatchdogRead(_) => assert Owed(s', id) == Owed(s, id) && s'.tasks == s.tasks;
    case WatchdogTryRecord => WatchdogPays(lim, s, id);
    case WatchdogSession(created) => WatchdogRestarts(lim, s, created, id);
  }

  lemma WatchdogPays(lim: Limits, s: Shared, id: string)
    requires s.watchdog.Seen? && WithinBudget(lim, s, id)
    ensures WithinBudget(lim, Perform(lim, s, WatchdogTryRecord), id)
  {
    var s' := Perform(lim, s, WatchdogTryRecord);
    assert Count(s'.handoffs, id) - Count(s.handoffs, id) == Owed(s', id) - Owed(s, id);
  }

  lemma WatchdogRestarts(lim: Limits, s: Shared, created: bool, id: string)
    requires s.watchdog.Reviving? && WithinBudget(lim, s, id)
    ensures WithinBudget(lim, Perform(lim, s, WatchdogSession(created)), id)
  {
    var s' := Perform(lim, s, WatchdogSession(created));
    assert created ==> Count(s'.started, id) - Count(s.started, id) == Owed(s, id) - Owed(s', id);
  }

  ghost predicate Interleaving(lim: Limits, ss: seq<Shared>, calls: seq<Call>) {
    && |ss| == |calls| + 1
    && forall i :: 0 <= i < |calls| ==> Possible(lim, ss[i], calls[i]) && ss[i + 1] == Perform(lim, ss[i], calls[i])
  }

  ghost predicate FreshRun(s: Shared) {
    s.attempts == map[] && s.handoffs == map[] && s.started == map[] && s.dispatcher.Resting? && s.watchdog.Watching?
  }

  lemma {:induction false} BudgetAlways(lim: Limits, ss: seq<Shared>, calls: seq<Call>, i: nat, id: string)
    requires Interleaving(lim, ss, calls) && WithinBudget(lim, ss[0], id) && i < |ss|
    ensures WithinBudget(lim, ss[i], id)
  {
    if i > 0 {
      BudgetAlways(lim, ss, calls, i - 1, id);
      BudgetStep(lim, ss[i - 1], calls[i - 1], id);
    }
  }

  /** However the two writers interleave, a task gets at most 1 + MaxRetries + MaxHandoffs sessions. */
  lemma SessionBound(lim: Limits, ss: seq<Shared>, calls: seq<Call>, i: nat, id: string)
    requires Interleaving(lim, ss, calls) && FreshRun(ss[0]) && i < |ss|
    ensures Count(ss[i].started, id) <= 1 + Cap(lim.maxRetries) + Cap(lim.maxHandoffs)
  {
    BudgetAlways(lim, ss, calls, i, id);
  }

  // ----- terminal records under the interleaving -----

  /** The task record a call writes, if any. */
  function Written(lim: Limits, s: Shared, c: Call): Option<Task>
    requires Possible(lim, s, c)
  {
    match c
    case Settle(t) => Some(t)
    case Reopen(t) => Some(t.(status := Open, assignee := ""))
    case File(t) => Some(t.(status := Open))
    case AssignTo(id, w) => Some(s.tasks[id].(id := id, status := Assigned, assignee := w))
    case AssignLost(id, w) => Some(s.tasks[id].(id := id, status := Assigned, assignee := w))
    case DispatcherInProgress(written) => if written then Some(s.dispatcher.task.(status := InProgress)) else None
    case WatchdogInProgress(written) => if written then Some(s.watchdog.task.(status := InProgress)) else None
    case _ => None
  }

  ghost predicate EndsKept(m: map<string, Task>, m': map<string, Task>) {
    forall id :: id in m && m[id].status.Terminal() ==> id in m' && m'[id] == m[id]
  }

  /** A call of either writer respects terminal records exactly when the stored record of the id it writes is not
      terminal or equals what is written. Nothing in either writer checks that: both go by a copy. */
  lemma CallKeepsTerminalIff(lim: Limits, s: Shared, c: Call)
    requires Possible(lim, s, c)
    ensures var w := Written(lim, s, c);
            EndsKept(s.tasks, Perform(lim, s, c).tasks) <==>
            || w.None? || w.value.id !in s.tasks || !s.tasks[w.value.id].status.Terminal()
            || s.tasks[w.value.id] == w.value
  {
    var s', w := Perform(lim, s, c), Written(lim, s, c);
    assert s'.tasks == if w.Some? then s.tasks[w.value.id := w.value] else s.tasks;
  }

  lemma OneMoreCall(lim: Limits, ss: seq<Shared>, calls: seq<Call>, c: Call)
    requires Interleaving(lim, ss, calls) && Possible(lim, ss[|calls|], c)
    ensures Interleaving(lim, ss + [Perform(lim, ss[|calls|], c)], calls + [c])
  {
    var tt, more := ss + [Perform(lim, ss[|calls|], c)], calls + [c];
    forall i | 0 <= i < |more| ensures Possible(lim, tt[i], more[i]) && tt[i + 1] == Perform(lim, tt[i], more[i]) {
      if i < |calls| { assert more[i] == calls[i] && tt[i] == ss[i] && tt[i + 1] == ss[i + 1]; }
    }
  }

  /** A watchdog that has read `t` restarts its session and writes its copy, whatever the store holds by then. */
  lemma StaleRestart(lim: Limits, ss: seq<Shared>, calls: seq<Call>, t: Task) returns (tt: seq<Shared>, more: seq<Call>)
    requires Interleaving(lim, ss, calls) && ss[|calls|].watchdog == Seen(t) && t.id in ss[|calls|].tasks
    requires Count(ss[|calls|].handoffs, t.id) < lim.maxHandoffs
    ensures Interleaving(lim, tt, more) && ss <= tt && |tt| == |ss| + 3
    ensures tt[|more|].tasks == ss[|calls|].tasks[t.id := t.(status := InProgress)]
  {
    var a := ss[|calls|];
    var b := a.(handoffs := Bump(a.handoffs, t.id), watchdog := Reviving(t));
    var c := b.(started := Bump(b.started, t.id), watchdog := Revived(t));
    OneMoreCall(lim, ss, calls, WatchdogTryRecord);
    tt, more := ss + [b], calls + [WatchdogTryRecord];
    OneMoreCall(lim, tt, more, WatchdogSession(true));
    tt, more := tt + [c], more + [WatchdogSession(true)];
    OneMoreCall(lim, tt, more, WatchdogInProgress(true));
    tt, more := tt + [Perform(lim, c, WatchdogInProgress(true))], more + [WatchdogInProgress(true)];
  }

  /** The race: the watchdog reads a task in progress, the dispatcher records its completion, and the watchdog's
      restart writes the record back to in progress. */
  lemma WatchdogCanReverse(lim: Limits, s: Shared, id: string) returns (ss: seq<Shared>, calls: seq<Call>)
    requires s.dispatcher.Resting? && s.watchdog.Watching? && id in s.tasks && s.tasks[id].id == id
    requires s.tasks[id].status.InProgress? && Count(s.handoffs, id) < lim.maxHandoffs
    ensures Interleaving(lim, ss, calls) && ss[0] == s && |ss| == 6
    ensures id in ss[2].tasks && ss[2].tasks[id].status.Completed?
    ensures id in ss[5].tasks && ss[5].tasks[id].status.InProgress?
  {
    var t := s.tasks[id];
    var s1 := s.(watchdog := Seen(t));
    OneMoreCall(lim, [s], [], WatchdogRead(id));
    ss, calls := [s] + [s1], [] + [WatchdogRead(id)];
    OneMoreCall(lim, ss, calls, Settle(t.(status := Completed)));
    ss, calls := ss + [Put(s1, t.(status := Completed))], calls + [Settle(t.(status := Completed))];
    ss, calls := StaleRestart(lim, ss, calls, t);
  }
}
