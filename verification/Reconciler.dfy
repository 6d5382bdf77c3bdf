// Reconcile as the code runs it (orch/resume.go): seven steps of reads and writes.
module Reconciler {
  import opened Types
  import opened Ordering
  import opened Machine
  import opened Resume
  import opened Replay
  import opened Persistence

  /** Which reads and writes of the seven steps succeed. */
  datatype ReconcileIo = ReconcileIo(tasksListed: bool, unprobed: set<string>, unreset: set<string>,
                                     sessionsListed: bool, unkilled: set<string>, logRead: bool, unread: set<string>,
                                     workersListed: bool, unidled: set<string>)

  datatype ResumeResult = ResumeResult(reconciled: nat, orphaned: nat, failedKills: set<string>,
                                       recovery: Recovery, humanReopens: set<string>)

  /** Every disk since the start of Reconcile, the present one included, is a halfway disk of `d`. */
  ghost predicate Halfway(branch: string, d: Disk, before: seq<Disk>, store: World)
    reads store
  {
    && Between(branch, d, store.D())
    && before <= store.cuts
    && forall i :: |before| <= i < |store.cuts| ==> Between(branch, d, store.cuts[i])
  }

  lemma BetweenSelf(branch: string, d: Disk)
    ensures Between(branch, d, d)
  {
  }

  /** The tasks in `done` are settled, the others as they were; nothing else has changed. */
  ghost predicate PartlyReset(branch: string, d: Disk, c: Disk, done: set<string>) {
    && c.workers == d.workers && c.sessions == d.sessions && c.log == d.log && c.tasks.Keys == d.tasks.Keys
    && forall id :: id in d.tasks ==> c.tasks[id] == if id in done then Settled(branch, d, d.tasks[id]) else d.tasks[id]
  }

  /** The tasks step 1 resets. */
  ghost function StaleIds(branch: string, d: Disk): set<string> {
    set id | id in d.tasks && Stale(branch, d, d.tasks[id])
  }

  /** A task changes when it is settled exactly if it is stale. */
  lemma StaleOneMore(branch: string, d: Disk, done: set<string>, t: Task)
    requires t.id in d.tasks && d.tasks[t.id] == t && t.id !in done
    ensures |StaleIds(branch, d) * (done + {t.id})| ==
            |StaleIds(branch, d) * done| + if Settled(branch, d, t) != t then 1 else 0
  {
    var stale := StaleIds(branch, d);
    if t.id in stale {
      assert stale * (done + {t.id}) == stale * done + {t.id};
    } else {
      assert stale * (done + {t.id}) == stale * done;
    }
  }

  /** What a successful Reconcile of `d` leaves in the store and reports. */
  ghost predicate IsResult(branch: string, d: Disk, d': Disk, io: ReconcileIo, r: ResumeResult) {
    && d' == Reconciled(branch, d, io.unkilled) && Rebuilt(branch, d, d', io.unkilled)
    && Recovers(r.recovery, d'.log)
    && r.humanReopens == HumanReopens(d')
    && r.reconciled == |StaleIds(branch, d)|
    && r.orphaned == |Unexpected(branch, d) - io.unkilled|
    && r.failedKills == Unexpected(branch, d) * io.unkilled
  }

  /** The reads and writes that Reconcile depends on succeed; a failed kill does not stop it. */
  ghost predicate Undisturbed(branch: string, d: Disk, io: ReconcileIo) {
    && io.tasksListed && AllSettle(branch, d, io)
    && io.sessionsListed && io.logRead && EndsReadable(d.log, io) && io.workersListed && AllIdle(branch, d, io)
  }

  /** Every task the log reports ended can be read back. */
  ghost predicate EndsReadable(log: seq<Event>, io: ReconcileIo) {
    forall id :: LastEnd(log, id).Some? ==> id !in io.unread
  }

  /** The workers that may stay as they are or can be written. */
  ghost function Writable(branch: string, d: Disk, io: ReconcileIo): set<string> {
    set n | n in d.workers && (SettledWorker(branch, d, d.workers[n]) != d.workers[n] ==> n !in io.unidled)
  }

  lemma WritableMeans(branch: string, d: Disk, io: ReconcileIo)
    ensures AllIdle(branch, d, io) <==> d.workers.Keys <= Writable(branch, d, io)
  {
  }

  /** Every worker that has to become idle can be written. */
  ghost predicate AllIdle(branch: string, d: Disk, io: ReconcileIo) {
    forall n :: n in d.workers && SettledWorker(branch, d, d.workers[n]) != d.workers[n] ==> n !in io.unidled
  }

  ghost predicate AllSettle(branch: string, d: Disk, io: ReconcileIo) {
    forall id :: id in d.tasks && d.tasks[id].Branch() == branch ==> Settles(branch, d, id, io)
  }

  ghost function Settling(branch: string, d: Disk, io: ReconcileIo): set<string> {
    set id | id in d.tasks && Settles(branch, d, id, io)
  }

  lemma SomeoneUnsettled(branch: string, d: Disk, t: Task, io: ReconcileIo)
    requires t.id in d.tasks && d.tasks[t.id] == t && t.Branch() == branch && t.id !in Settling(branch, d, io)
    ensures !AllSettle(branch, d, io)
  {
  }

  lemma EveryoneSettled(branch: string, d: Disk, l: seq<Task>, done: set<string>, io: ReconcileIo)
    requires IsListing(l, set id | id in d.tasks && d.tasks[id].Branch() == branch :: d.tasks[id]) && Keyed(d)
    requires forall id :: id in done <==> exists j :: 0 <= j < |l| && l[j].id == id
    requires done <= Settling(branch, d, io)
    ensures AllSettle(branch, d, io)
  {
    forall id | id in d.tasks && d.tasks[id].Branch() == branch ensures Settles(branch, d, id, io) {
      assert d.tasks[id] in l;
      assert id in done;
    }
  }

  /** The session of a held task can be probed, and a stale task can be written. */
  predicate Settles(branch: string, d: Disk, id: string, io: ReconcileIo)
    requires id in d.tasks
  {
    var t := d.tasks[id];
    (Held(t) ==> t.assignee !in io.unprobed) && (Stale(branch, d, t) ==> id !in io.unreset)
  }

  /** Step 1: held tasks without a live session go back to the queue. */
  method ResetStale(store: World, branch: string, io: ReconcileIo)
    returns (ok: bool, settled: seq<Task>, live: set<string>, reconciled: nat)
    requires Keyed(store.D())
    modifies store
    ensures Halfway(branch, old(store.D()), old(store.cuts), store)
    ensures ok <==> io.tasksListed && AllSettle(branch, old(store.D()), io)
    ensures ok ==> store.D() == old(store.D()).(tasks := Reconciled(branch, old(store.D()), {}).tasks)
    ensures ok ==> live == LiveIds(branch, old(store.D())) && reconciled == |StaleIds(branch, old(store.D()))|
    ensures ok ==> forall t :: t in settled <==> t.id in store.tasks && store.tasks[t.id] == t && t.Branch() == branch
  {
    ghost var d, before := store.D(), store.cuts;
    BetweenSelf(branch, d);
    if !io.tasksListed { return false, [], {}, 0; }
    var l := store.ListTasks(branch);
    ok, settled, live, reconciled := SettleAll(store, branch, l, d, before, io);
  }

  method SettleAll(store: World, branch: string, l: seq<Task>, ghost d: Disk, ghost before: seq<Disk>, io: ReconcileIo)
    returns (ok: bool, settled: seq<Task>, live: set<string>, reconciled: nat)
    requires Keyed(d) && store.D() == d && Halfway(branch, d, before, store)
    requires IsListing(l, set id | id in d.tasks && d.tasks[id].Branch() == branch :: d.tasks[id])
    modifies store
    ensures Halfway(branch, d, before, store)
    ensures ok <==> AllSettle(branch, d, io)
    ensures ok ==> store.D() == d.(tasks := Reconciled(branch, d, {}).tasks)
    ensures ok ==> live == LiveIds(branch, d) && reconciled == |StaleIds(branch, d)|
    ensures ok ==> forall t :: t in settled <==> t.id in store.tasks && store.tasks[t.id] == t && t.Branch() == branch
  {
    live, reconciled, settled := {}, 0, [];
    ghost var done: set<string> := {};
    for i := 0 to |l|
      invariant Halfway(branch, d, before, store) && PartlyReset(branch, d, store.D(), done)
      invariant SoFar(branch, d, l, i, done, settled, live) && reconciled == |StaleIds(branch, d) * done|
      invariant done <= Settling(branch, d, io)
    {
      assert l[i] in l;
      NotYetDone(l, d, i, done);
      StaleOneMore(branch, d, done, l[i]);
      var written, t', alive := SettleTask(store, branch, l[i], d, before, done, io);
      if !written {
        SomeoneUnsettled(branch, d, l[i], io);
        return false, [], {}, 0;
      }
      SoFarStep(branch, d, l, i, done, settled, live);
      if alive { live := live + {l[i].id}; }
      if t' != l[i] { reconciled := reconciled + 1; }
      settled := settled + [t'];
      done := done + {l[i].id};
    }
    StepOneDone(branch, d, store.D(), l, done, settled, live, io);
    ok := true;
  }

  /** The first `i` tasks of the listing have been seen. */
  ghost predicate SoFar(branch: string, d: Disk, l: seq<Task>, i: nat, done: set<string>, settled: seq<Task>,
                        live: set<string>)
    requires i <= |l|
  {
    && (forall id :: id in done <==> exists j :: 0 <= j < i && l[j].id == id)
    && |settled| == i && (forall j :: 0 <= j < i ==> settled[j] == Settled(branch, d, l[j]))
    && (forall id :: id in live <==> exists j :: 0 <= j < i && l[j].id == id && Live(d, l[j]))
  }

  lemma SoFarStep(branch: string, d: Disk, l: seq<Task>, i: nat, done: set<string>, settled: seq<Task>,
                  live: set<string>)
    requires i < |l| && SoFar(branch, d, l, i, done, settled, live)
    ensures SoFar(branch, d, l, i + 1, done + {l[i].id}, settled + [Settled(branch, d, l[i])],
                  if Live(d, l[i]) then live + {l[i].id} else live)
  {
  }

  lemma StepOneDone(branch: string, d: Disk, c: Disk, l: seq<Task>, done: set<string>, settled: seq<Task>,
                    live: set<string>, io: ReconcileIo)
    requires Keyed(d) && PartlyReset(branch, d, c, done)
    requires IsListing(l, set id | id in d.tasks && d.tasks[id].Branch() == branch :: d.tasks[id])
    requires SoFar(branch, d, l, |l|, done, settled, live)
    ensures c == d.(tasks := Reconciled(branch, d, {}).tasks) && live == LiveIds(branch, d)
    ensures StaleIds(branch, d) * done == StaleIds(branch, d)
    ensures done <= Settling(branch, d, io) ==> AllSettle(branch, d, io)
    ensures forall t :: t in settled <==> t.id in c.tasks && c.tasks[t.id] == t && t.Branch() == branch
  {
    AllDone(branch, d, c, l, done);
    if done <= Settling(branch, d, io) { EveryoneSettled(branch, d, l, done, io); }
    forall t ensures t in settled <==> t.id in c.tasks && c.tasks[t.id] == t && t.Branch() == branch {
      SettledMembers(branch, d, c, l, settled, done, t);
    }
    LiveMembers(branch, d, l, live);
  }

  /** One task of step 1: kept if its session runs, reset otherwise. */
  method SettleTask(store: World, branch: string, t: Task, ghost d: Disk, ghost before: seq<Disk>,
                    ghost done: set<string>, io: ReconcileIo)
    returns (ok: bool, t': Task, alive: bool)
    requires Halfway(branch, d, before, store) && PartlyReset(branch, d, store.D(), done)
    requires t.id in d.tasks && d.tasks[t.id] == t && t.Branch() == branch && t.id !in done
    modifies store
    ensures Halfway(branch, d, before, store)
    ensures ok <==> t.id in Settling(branch, d, io)
    ensures ok ==> PartlyReset(branch, d, store.D(), done + {t.id})
    ensures ok ==> t' == Settled(branch, d, t) && alive == Live(d, t)
  {
    if !Stale(branch, d, t) { LeftAsIs(branch, d, store.D(), done, t); }
    if !Held(t) { return true, t, false; }
    if t.assignee in io.unprobed { return false, t, false; }
    if t.assignee in store.sessions && t.status == InProgress { return true, t, true; }
    t' := Reset(t);
    StaleWrite(branch, d, store.D(), done, t);
    ok := store.UpdateTask(t', t.id !in io.unreset);
    alive := false;
  }

  lemma LiveMembers(branch: string, d: Disk, l: seq<Task>, live: set<string>)
    requires Keyed(d) && IsListing(l, set id | id in d.tasks && d.tasks[id].Branch() == branch :: d.tasks[id])
    requires forall id :: id in live <==> exists j :: 0 <= j < |l| && l[j].id == id && Live(d, l[j])
    ensures live == LiveIds(branch, d)
  {
    forall id ensures id in live <==> id in LiveIds(branch, d) {
      if id in LiveIds(branch, d) {
        assert d.tasks[id] in l;
        var j :| 0 <= j < |l| && l[j] == d.tasks[id];
      }
      if id in live {
        var j :| 0 <= j < |l| && l[j].id == id && Live(d, l[j]);
        assert l[j] in l;
      }
    }
  }

  lemma NotYetDone(l: seq<Task>, d: Disk, i: nat, done: set<string>)
    requires Sorted(l) && i < |l| && (forall t :: t in l ==> t.id in d.tasks && d.tasks[t.id] == t)
    requires forall id :: id in done <==> exists j :: 0 <= j < i && l[j].id == id
    ensures l[i].id !in done
  {
    if l[i].id in done {
      var j :| 0 <= j < i && l[j].id == l[i].id;
      assert l[j] in l && l[i] in l;
      assert TaskLess(l[j], l[i]);
      TaskLessTotal(l[j], l[j]);
    }
  }

  lemma LeftAsIs(branch: string, d: Disk, c: Disk, done: set<string>, t: Task)
    requires PartlyReset(branch, d, c, done) && !Stale(branch, d, t) && t.id in d.tasks && d.tasks[t.id] == t
    ensures PartlyReset(branch, d, c, done + {t.id})
  {
  }

  lemma StaleWrite(branch: string, d: Disk, c: Disk, done: set<string>, t: Task)
    requires PartlyReset(branch, d, c, done) && Stale(branch, d, t) && t.id in d.tasks && d.tasks[t.id] == t
    ensures var c' := c.(tasks := c.tasks[t.id := Reset(t)]);
            PartlyReset(branch, d, c', done + {t.id}) && Between(branch, d, c')
  {
  }

  lemma AllDone(branch: string, d: Disk, c: Disk, l: seq<Task>, done: set<string>)
    requires Keyed(d) && PartlyReset(branch, d, c, done)
    requires IsListing(l, set id | id in d.tasks && d.tasks[id].Branch() == branch :: d.tasks[id])
    requires forall id :: id in done <==> exists j :: 0 <= j < |l| && l[j].id == id
    ensures c == d.(tasks := Reconciled(branch, d, {}).tasks) && StaleIds(branch, d) <= done
  {
    forall id | id in d.tasks
      ensures c.tasks[id] == Settled(branch, d, d.tasks[id]) && (d.tasks[id].Branch() == branch ==> id in done)
    {
      if d.tasks[id].Branch() == branch {
        assert d.tasks[id] in l;
        var j :| 0 <= j < |l| && l[j] == d.tasks[id];
        assert id in done;
      }
    }
    assert c.tasks == Reconciled(branch, d, {}).tasks;
  }

  lemma SettledMembers(branch: string, d: Disk, c: Disk, l: seq<Task>, settled: seq<Task>, done: set<string>, t: Task)
    requires Keyed(d) && PartlyReset(branch, d, c, done)
    requires IsListing(l, set id | id in d.tasks && d.tasks[id].Branch() == branch :: d.tasks[id])
    requires forall id :: id in done <==> exists j :: 0 <= j < |l| && l[j].id == id
    requires |settled| == |l| && forall j :: 0 <= j < |l| ==> settled[j] == Settled(branch, d, l[j])
    ensures t in settled <==> t.id in c.tasks && c.tasks[t.id] == t && t.Branch() == branch
  {
    if t in settled {
      var j :| 0 <= j < |l| && settled[j] == t;
      assert l[j] in l && l[j].id in done;
    }
    if t.id in c.tasks && c.tasks[t.id] == t && t.Branch() == branch {
      assert d.tasks[t.id].Branch() == branch;
      assert d.tasks[t.id] in l;
      var j :| 0 <= j < |l| && l[j] == d.tasks[t.id];
      assert settled[j] == t;
    }
  }

  /** The sessions of the tasks still in progress. */
  method ExpectedSessions(settled: seq<Task>) returns (expected: set<string>)
    ensures forall n :: n in expected <==>
              exists t :: t in settled && t.status.InProgress? && t.assignee != "" && t.assignee == n
  {
    expected := {};
    for i := 0 to |settled|
      invariant forall n :: n in expected <==>
                  exists j :: 0 <= j < i && settled[j].status.InProgress? && n != "" && settled[j].assignee == n
    {
      if settled[i].status == InProgress && settled[i].assignee != "" { expected := expected + {settled[i].assignee}; }
    }
  }

  /** After step 1 a branch task in progress is a live one. */
  lemma ExpectedIs(branch: string, d: Disk, settled: seq<Task>, expected: set<string>)
    requires Keyed(d)
    requires var r := Reconciled(branch, d, {}).tasks;
             forall t :: t in settled <==> t.id in r && r[t.id] == t && t.Branch() == branch
    requires forall n :: n in expected <==>
               exists t :: t in settled && t.status.InProgress? && t.assignee != "" && t.assignee == n
    ensures expected == Expected(branch, d)
  {
    var r := Reconciled(branch, d, {}).tasks;
    forall n | n in expected ensures n in Expected(branch, d) {
      var t :| t in settled && t.status.InProgress? && t.assignee != "" && t.assignee == n;
      assert t.id in LiveIds(branch, d) && d.tasks[t.id].assignee == n;
    }
    forall n | n in Expected(branch, d) ensures n in expected {
      var id :| id in LiveIds(branch, d) && d.tasks[id].assignee == n;
      assert r[id] == d.tasks[id] && r[id] in settled;
    }
  }

  /** Step 2: sessions that belong to no task in progress are killed. */
  method KillOrphans(store: World, branch: string, ghost d: Disk, ghost before: seq<Disk>, expected: set<string>,
                     io: ReconcileIo)
    returns (orphaned: nat, failed: set<string>)
    requires Halfway(branch, d, before, store) && expected == Expected(branch, d)
    requires store.D() == d.(tasks := Reconciled(branch, d, {}).tasks)
    modifies store
    ensures Halfway(branch, d, before, store)
    ensures store.D() == Reconciled(branch, d, io.unkilled).(workers := d.workers)
    ensures orphaned == |Unexpected(branch, d) - io.unkilled| && failed == Unexpected(branch, d) * io.unkilled
  {
    orphaned, failed := 0, {};
    var rest := store.sessions;
    ghost var doomed, spared := Unexpected(branch, d) - io.unkilled, Unexpected(branch, d) * io.unkilled;
    while rest != {}
      invariant rest <= d.sessions && Halfway(branch, d, before, store) && Killed(branch, d, store.D(), doomed - rest)
      invariant orphaned == |doomed - rest| && failed == spared - rest
      decreases |rest|
    {
      var n :| n in rest;
      DropOne(doomed, rest, n);
      DropOne(spared, rest, n);
      if n !in expected {
        var killed := KillOne(store, branch, d, before, doomed - rest, n, n in io.unkilled);
        if killed { orphaned := orphaned + 1; } else { failed := failed + {n}; }
      }
      rest := rest - {n};
    }
    AllKilled(branch, d, store.D(), io.unkilled, doomed - rest, spared - rest);
  }

  lemma AllKilled(branch: string, d: Disk, c: Disk, unkilled: set<string>, killed: set<string>, spared: set<string>)
    requires Killed(branch, d, c, killed)
    requires killed == Unexpected(branch, d) - unkilled - {} && spared == Unexpected(branch, d) * unkilled - {}
    ensures c == Reconciled(branch, d, unkilled).(workers := d.workers)
    ensures killed == Unexpected(branch, d) - unkilled && spared == Unexpected(branch, d) * unkilled
  {
    assert d.sessions - killed == Reconciled(branch, d, unkilled).sessions;
  }

  lemma DropOne(u: set<string>, rest: set<string>, n: string)
    requires n in rest
    ensures u - (rest - {n}) == (if n in u then (u - rest) + {n} else u - rest)
    ensures |u - (rest - {n})| == |u - rest| + if n in u then 1 else 0
    ensures n in u ==> (u - rest) + {n} <= u
  {
    var more := u - (rest - {n});
    if n in u { assert more == (u - rest) + {n}; } else { assert more == u - rest; }
  }

  /** Step 1 is done and these sessions are gone. */
  ghost predicate Killed(branch: string, d: Disk, c: Disk, killed: set<string>) {
    c == d.(tasks := Reconciled(branch, d, {}).tasks, sessions := d.sessions - killed)
  }

  /** One unexpected session: gone, or reported as a failed kill. */
  method KillOne(store: World, branch: string, ghost d: Disk, ghost before: seq<Disk>, ghost gone: set<string>,
                 n: string, fails: bool)
    returns (killed: bool)
    requires Halfway(branch, d, before, store) && Killed(branch, d, store.D(), gone)
    requires n in Unexpected(branch, d) && gone <= Unexpected(branch, d)
    modifies store
    ensures killed == !fails && Halfway(branch, d, before, store)
    ensures Killed(branch, d, store.D(), if killed then gone + {n} else gone)
  {
    if fails { return false; }
    KilledBetween(branch, d, Reconciled(branch, d, {}).tasks, gone + {n});
    assert d.sessions - gone - {n} == d.sessions - (gone + {n});
    store.KillSession(n);
    return true;
  }

  /** The sessions that belong to no task in progress. */
  ghost function Unexpected(branch: string, d: Disk): set<string> { d.sessions - Expected(branch, d) }

  lemma KilledBetween(branch: string, d: Disk, tasks: map<string, Task>, killed: set<string>)
    requires tasks == Reconciled(branch, d, {}).tasks && killed <= Unexpected(branch, d)
    ensures Between(branch, d, d.(tasks := tasks, sessions := d.sessions - killed))
  {
  }

  /** Step 6: tasks the log reports as ended but the store holds open. */
  method FindReopens(store: World, rec: Recovery, io: ReconcileIo) returns (ok: bool, reopened: set<string>)
    requires Recovers(rec, store.log)
    ensures ok <==> EndsReadable(store.log, io)
    ensures ok ==> reopened == HumanReopens(store.D())
  {
    reopened := {};
    var rest := rec.terminal.Keys;
    while rest != {}
      invariant rest <= rec.terminal.Keys && forall id :: id in rec.terminal && id !in rest ==> id !in io.unread
      invariant forall id :: id in reopened <==>
                  id in rec.terminal && id !in rest && id in store.tasks && store.tasks[id].status.Open?
      decreases |rest|
    {
      var id :| id in rest;
      if id in io.unread {
        assert LastEnd(store.log, id).Some?;
        return false, {};
      }
      rest := rest - {id};
      if id in store.tasks && store.tasks[id].status == Open { reopened := reopened + {id}; }
    }
    ok := true;
  }

  /** A worker that is active without a live task becomes idle. */
  method ResetWorker(store: World, branch: string, ghost d: Disk, ghost before: seq<Disk>, live: set<string>,
                     n: string, io: ReconcileIo)
    returns (written: bool)
    requires Keyed(d) && Halfway(branch, d, before, store) && live == LiveIds(branch, d)
    requires n in d.workers && n in store.workers && store.workers[n] == d.workers[n]
    modifies store
    ensures Halfway(branch, d, before, store)
    ensures written <==> n in Writable(branch, d, io)
    ensures written ==>
              store.D() == old(store.D()).(workers := old(store.workers)[n := SettledWorker(branch, d, d.workers[n])])
    ensures !written ==> store.D() == old(store.D())
  {
    var w := store.workers[n];
    written := true;
    if w.active && !(w.current != "" && w.current in live) {
      written := store.UpdateWorker(Worker(w.name, false, ""), n !in io.unidled);
    }
  }

  /** Step 7: workers without a live task become idle. */
  method ResetWorkers(store: World, branch: string, ghost d: Disk, ghost before: seq<Disk>, live: set<string>,
                      io: ReconcileIo)
    returns (ok: bool)
    requires Keyed(d) && Halfway(branch, d, before, store) && live == LiveIds(branch, d)
    requires store.D() == Reconciled(branch, d, io.unkilled).(workers := d.workers)
    modifies store
    ensures Halfway(branch, d, before, store)
    ensures ok <==> io.workersListed && AllIdle(branch, d, io)
    ensures ok ==> store.D() == Reconciled(branch, d, io.unkilled)
  {
    if !io.workersListed { return false; }
    WritableMeans(branch, d, io);
    var rest := store.workers.Keys;
    ghost var target := Reconciled(branch, d, io.unkilled);
    while rest != {}
      invariant rest <= d.workers.Keys && Halfway(branch, d, before, store)
      invariant store.D() == target.(workers := store.workers) && store.workers.Keys == d.workers.Keys
      invariant d.workers.Keys - rest <= Writable(branch, d, io)
      invariant forall n :: n in d.workers ==>
                  store.workers[n] == if n in rest then d.workers[n] else SettledWorker(branch, d, d.workers[n])
      decreases |rest|
    {
      var n :| n in rest;
      var written := ResetWorker(store, branch, d, before, live, n, io);
      if !written { return false; }
      rest := rest - {n};
    }
    assert store.workers == target.workers;
    ok := true;
  }

  /** The whole of Reconcile. On success the disk is the reconciled one; on an error, and after a crash at
      any of its writes, reconciling again still leads there. */
  method Reconcile(store: World, branch: string, lines: seq<Line>, io: ReconcileIo) returns (r: Option<ResumeResult>)
    requires Keyed(store.D()) && Events(lines) == store.log
    modifies store
    ensures r.Some? <==> Undisturbed(branch, old(store.D()), io)
    ensures r.Some? ==> IsResult(branch, old(store.D()), store.D(), io, r.value)
    ensures old(store.cuts) <= store.cuts
    ensures Reconciled(branch, store.D(), {}) == Reconciled(branch, old(store.D()), {})
    ensures forall i :: |old(store.cuts)| <= i < |store.cuts| ==>
              Reconciled(branch, store.cuts[i], {}) == Reconciled(branch, old(store.D()), {})
  {
    ghost var d, before := store.D(), store.cuts;
    r := Steps(store, branch, lines, io);
    ReconcileRestartable(branch, d, store.D());
    forall i | |before| <= i < |store.cuts| ensures Reconciled(branch, store.cuts[i], {}) == Reconciled(branch, d, {}) {
      ReconcileRestartable(branch, d, store.cuts[i]);
    }
  }

  method Steps(store: World, branch: string, lines: seq<Line>, io: ReconcileIo) returns (r: Option<ResumeResult>)
    requires Keyed(store.D()) && Events(lines) == store.log
    modifies store
    ensures Halfway(branch, old(store.D()), old(store.cuts), store)
    ensures r.Some? <==> Undisturbed(branch, old(store.D()), io)
    ensures r.Some? ==> IsResult(branch, old(store.D()), store.D(), io, r.value)
  {
    ghost var d, before := store.D(), store.cuts;
    var ok, settled, live, reconciled := ResetStale(store, branch, io);
    if !ok || !io.sessionsListed { return None; }
    var expected := ExpectedSessions(settled);
    ExpectedIs(branch, d, settled, expected);
    var orphaned, failed := KillOrphans(store, branch, d, before, expected, io);
    if !io.logRead { return None; }
    var rec := RecoverFromEventLog(lines);
    var reopened;
    ok, reopened := FindReopens(store, rec, io);
    if !ok { return None; }
    ghost var tasks := store.tasks;
    ok := ResetWorkers(store, branch, d, before, live, io);
    if !ok { return None; }
    assert store.tasks == tasks;
    ReconciledMeans(branch, d, io.unkilled);
    return Some(ResumeResult(reconciled, orphaned, failed, rec, reopened));
  }
}
