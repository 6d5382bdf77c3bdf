// The persisted state as an object: ledger, sessions and event log, with every write recorded.
module Persistence {
  import opened Types
  import opened Graph
  import opened Ordering
  import opened Machine

  class World {
    var tasks: map<string, Task>
    var workers: map<string, Worker>
    var sessions: set<string>
    var log: seq<Event>
    /** The disk after each write, for cutting a run short. */
    ghost var cuts: seq<Disk>
    /** The sessions created for each task. */
    ghost var started: map<string, nat>

    constructor (tasks: map<string, Task>, workers: map<string, Worker>)
      ensures D() == Disk(tasks, workers, {}, []) && cuts == [] && started == map[]
    {
      this.tasks, this.workers, sessions, log, cuts, started := tasks, workers, {}, [], [], map[];
    }

    ghost function D(): Disk reads this { Disk(tasks, workers, sessions, log) }

    method UpdateTask(t: Task, io: bool) returns (ok: bool)
      modifies this`tasks, this`cuts
      ensures ok <==> io && t.id in old(tasks)
      ensures if ok then D() == old(D()).(tasks := old(tasks)[t.id := t]) && cuts == old(cuts) + [D()]
                else unchanged(this)
    {
      ok := io && t.id in tasks;
      if ok { tasks := tasks[t.id := t]; cuts := cuts + [D()]; }
    }

    method CreateTask(t: Task, io: bool) returns (ok: bool)
      modifies this`tasks, this`cuts
      ensures ok <==> io && t.id !in old(tasks)
      ensures if ok then D() == old(D()).(tasks := old(tasks)[t.id := t]) && cuts == old(cuts) + [D()]
                else unchanged(this)
    {
      ok := io && t.id !in tasks;
      if ok { tasks := tasks[t.id := t]; cuts := cuts + [D()]; }
    }

    method UpdateWorker(w: Worker, io: bool) returns (ok: bool)
      modifies this`workers, this`cuts
      ensures ok <==> io && w.name in old(workers)
      ensures if ok then D() == old(D()).(workers := old(workers)[w.name := w]) && cuts == old(cuts) + [D()]
                else unchanged(this)
    {
      ok := io && w.name in workers;
      if ok { workers := workers[w.name := w]; cuts := cuts + [D()]; }
    }

    method CreateWorker(w: Worker, io: bool) returns (ok: bool)
      modifies this`workers, this`cuts
      ensures ok <==> io && w.name !in old(workers)
      ensures if ok then D() == old(D()).(workers := old(workers)[w.name := w]) && cuts == old(cuts) + [D()]
                else unchanged(this)
    {
      ok := io && w.name !in workers;
      if ok { workers := workers[w.name := w]; cuts := cuts + [D()]; }
    }

    method KillSession(name: string)
      modifies this`sessions, this`cuts
      ensures D() == old(D()).(sessions := old(sessions) - {name}) && cuts == old(cuts) + [D()]
    {
      sessions := sessions - {name};
      cuts := cuts + [D()];
    }

    method CreateSession(name: string, ghost id: string)
      modifies this`sessions, this`cuts, this`started
      ensures D() == old(D()).(sessions := old(sessions) + {name}) && cuts == old(cuts) + [D()]
      ensures started == Bump(old(started), id)
    {
      sessions := sessions + {name};
      started := Bump(started, id);
      cuts := cuts + [D()];
    }

    method Emit(kind: EventKind, id: string)
      modifies this`log, this`cuts
      ensures D() == old(D()).(log := old(log) + [Event(kind, id)]) && cuts == old(cuts) + [D()]
    {
      log := log + [Event(kind, id)];
      cuts := cuts + [D()];
    }

    /** Assign (orch/ledger_fs.go): both records, or the task restored. */
    method Assign(ghost s: State, id: string, w: string, io: AssignIo) returns (ok: bool)
      requires s.disk == D() && s.cuts == cuts
      modifies this`tasks, this`workers, this`cuts
      ensures Machine.Assign(s, id, w, io) == (s.(disk := D(), cuts := cuts), ok)
    {
      if id !in tasks || tasks[id].assignee != "" || tasks[id].status != Open { return false; }
      if w !in workers || workers[w].active || io.AssignRejected? { return false; }
      var orig := tasks[id];
      var t := orig.(status := Assigned, assignee := w);
      tasks := tasks[t.id := t];
      cuts := cuts + [D()];
      if io.AssignOk? {
        workers := workers[w := Worker(w, true, id)];
        cuts := cuts + [D()];
        return true;
      }
      if io.rolledBack {
        tasks := tasks[orig.id := orig];
        cuts := cuts + [D()];
      }
      return false;
    }

    /** The tasks of a branch in canonical order, whatever order the directory gives them in. */
    method ListTasks(branch: string) returns (l: seq<Task>)
      requires Keyed(D())
      ensures IsListing(l, set id | id in tasks && tasks[id].Branch() == branch :: tasks[id]) && MostUrgentFirst(l)
    {
      var found: seq<Task> := [];
      var rest := tasks.Keys;
      while rest != {}
        invariant rest <= tasks.Keys
        invariant forall t :: t in found <==> t.id in tasks && t.id !in rest && tasks[t.id] == t && t.Branch() == branch
        invariant forall i, j :: 0 <= i < j < |found| ==> found[i].id != found[j].id
        decreases |rest|
      {
        var id :| id in rest;
        if tasks[id].Branch() == branch {
          assert forall i :: 0 <= i < |found| ==> found[i] in found;
          found := found + [tasks[id]];
        }
        rest := rest - {id};
      }
      SortTasksSorted(found);
      l := SortTasks(found);
    }

    method DepsTerminal(deps: Graph, id: string) returns (r: bool)
      ensures r <==> Machine.DepsTerminal(deps, D(), id)
    {
      var edges := Succ(deps, id);
      for i := 0 to |edges|
        invariant forall j :: 0 <= j < i ==> edges[j] in tasks && tasks[edges[j]].status.Terminal()
      {
        if edges[i] !in tasks || !tasks[edges[i]].status.Terminal() {
          assert edges[i] in Succ(deps, id);
          return false;
        }
      }
      return true;
    }

    /** ReadyTasks with the branch filter. */
    method ReadyTasks(cfg: Config) returns (l: seq<Task>)
      requires Keyed(D())
      ensures l == Sort(ReadySet(cfg, D())) && MostUrgentFirst(l)
    {
      var all := ListTasks(cfg.branch);
      var found: seq<Task> := [];
      for i := 0 to |all|
        invariant forall t :: t in found <==> t in all[..i] && Ready(cfg, D(), t.id)
        invariant forall m, n :: 0 <= m < n < |found| ==> found[m].id != found[n].id
      {
        var t := all[i];
        assert all[..i + 1] == all[..i] + [t];
        assert t in all;
        if t.status == Open && t.assignee == "" {
          var done := DepsTerminal(cfg.deps, t.id);
          if done {
            forall m | 0 <= m < |found| ensures found[m].id != t.id {
              assert found[m] in all[..i];
              var j :| 0 <= j < i && all[j] == found[m];
              assert all[j] in all && tasks[all[j].id] == all[j] && tasks[t.id] == t;
              assert TaskLess(all[j], all[i]);
              TaskLessTotal(all[j], all[j]);
            }
            found := found + [t];
          }
        }
      }
      assert all[..|all|] == all;
      SortTasksSorted(found);
      l := SortTasks(found);
      assert DistinctTasks(ReadySet(cfg, D()));
      assert IsListing(l, ReadySet(cfg, D()));
      ListingUnique(l, Listing(ReadySet(cfg, D())), ReadySet(cfg, D()));
    }

    /** The first idle worker by name. */
    method FirstIdle() returns (r: Option<string>)
      ensures r == if Idle(D()) == {} then None else Some(Least(Idle(D())))
    {
      var idle := set n | n in workers && !workers[n].active;
      if idle == {} { return None; }
      var n := LeastName(idle);
      return Some(n);
    }

    /** All workers by name. */
    method ListWorkers() returns (l: seq<Worker>)
      ensures l == Roster(D())
    {
      var names := InOrder(workers.Keys);
      NamesInOrder(workers.Keys);
      l := [];
      for i := 0 to |names|
        invariant |l| == i && forall j :: 0 <= j < i ==> names[j] in workers && l[j] == workers[names[j]]
      {
        assert names[i] in names;
        l := l + [workers[names[i]]];
      }
    }

    /** SpawnSession (orch/session.go): session, worker record, task record, with rollback. */
    method SpawnSession(ghost s: State, w: string, t: Task, io: SpawnIo) returns (ok: bool)
      requires s.disk == D() && s.cuts == cuts && s.started == started
      requires w in workers ==> workers[w].name == w
      modifies this
      ensures Machine.Spawn(s, w, t, io) == (s.(disk := D(), cuts := cuts, started := started), ok)
    {
      if io.NotCreated? {
        if io.killed { KillSession(w); }
        return false;
      }
      CreateSession(w, t.id);
      var killed := io.SpawnOk? || io.killed;
      if io.WorkerUnwritten? || w !in workers {
        if killed { KillSession(w); }
        return false;
      }
      var snapshot := workers[w];
      var written := UpdateWorker(Worker(w, true, t.id), true);
      ok := UpdateTask(t.(status := InProgress), io.SpawnOk?);
      if !ok {
        if killed { KillSession(w); }
        if io.SpawnOk? || io.restored { written := UpdateWorker(snapshot, true); }
      }
    }

    /** RestartSession (orch/session.go): kill, then spawn for the same task. */
    method RestartSession(ghost s: State, w: string, t: Task, kill: bool, io: SpawnIo) returns (ok: bool)
      requires s.disk == D() && s.cuts == cuts && s.started == started
      requires w in workers ==> workers[w].name == w
      modifies this
      ensures Machine.Restart(s, w, t, kill, io) == (s.(disk := D(), cuts := cuts, started := started), ok)
    {
      if !kill { return false; }
      KillSession(w);
      ok := SpawnSession(Machine.KillSession(s, w), w, t, io);
    }
  }

  method InOrder(names: set<string>) returns (r: seq<string>)
    ensures r == Names(names)
  {
    r := [];
    var rest := names;
    while rest != {}
      invariant r + Names(rest) == Names(names)
      decreases |rest|
    {
      var n := LeastName(rest);
      assert r + ([n] + Names(rest - {n})) == (r + [n]) + Names(rest - {n});
      r, rest := r + [n], rest - {n};
    }
  }

  method LeastName(names: set<string>) returns (r: string)
    requires names != {}
    ensures r == Least(names)
  {
    r :| r in names;
    var rest := names - {r};
    while rest != {}
      invariant r in names && rest <= names
      invariant forall n :: n in names && n !in rest ==> n == r || StringLess(r, n)
      decreases |rest|
    {
      var n :| n in rest;
      rest := rest - {n};
      StringLessTotal(n, r);
      if StringLess(n, r) {
        forall m | m in names && m !in rest ensures m == n || StringLess(n, m) {
          if m != n && m != r { StringLessTrans(n, r, m); }
        }
        r := n;
      }
    }
    StringLessTotal(r, Least(names));
  }
}
