// Label filters and the local readiness query (orch/ledger.go, orch/ledger_fs.go).
module Readiness {
  import opened Types
  import opened Graph
  import opened Ordering

  /** strings.Cut at the first colon. */
  function Cut(s: string): (r: (string, string, bool))
    ensures r.2 ==> s == r.0 + ":" + r.1
    ensures r.2 <==> ':' in s
    ensures ':' !in r.0
  {
    if s == [] then ("", "", false)
    else if s[0] == ':' then
      assert s == "" + ":" + s[1..];
      ("", s[1..], true)
    else
      var r := Cut(s[1..]);
      assert s == [s[0]] + s[1..];
      ([s[0]] + r.0, r.1, r.2)
  }

  lemma {:induction false} CutJoin(k: string, v: string)
    requires ':' !in k
    ensures Cut(k + ":" + v) == (k, v, true)
  {
    if k != [] {
      CutJoin(k[1..], v);
      assert (k + ":" + v)[1..] == k[1..] + ":" + v;
      assert k == [k[0]] + k[1..];
    }
  }

  predicate ValidFilters(filters: seq<string>) {
    forall f :: f in filters ==> ':' in f
  }

  predicate FilterMatches(t: Task, f: string) {
    Lookup(t.labels, Cut(f).0) == Cut(f).1
  }

  /** The task carries the value of every filter. */
  predicate Matches(t: Task, filters: seq<string>) {
    forall f :: f in filters ==> FilterMatches(t, f)
  }

  method LabelsMatch(t: Task, filters: seq<string>) returns (r: bool)
    ensures r == Matches(t, filters)
  {
    for i := 0 to |filters|
      invariant forall j :: 0 <= j < i ==> FilterMatches(t, filters[j])
    {
      if !FilterMatches(t, filters[i]) { return false; }
    }
    return true;
  }

  /** The branch filter of the dispatcher compares the branch label, even when the branch contains colons. */
  lemma BranchFilter(t: Task, branch: string)
    ensures Matches(t, ["branch:" + branch]) <==> t.Branch() == branch
  {
    assert "branch:" + branch == "branch" + ":" + branch;
    CutJoin("branch", branch);
    assert Matches(t, ["branch:" + branch]) <==> FilterMatches(t, "branch:" + branch);
  }

  ghost predicate Distinct(ts: seq<Task>) {
    forall i, j :: 0 <= i < j < |ts| ==> ts[i].id != ts[j].id
  }

  /** The task with this id exists and is terminal. */
  ghost predicate Done(ts: seq<Task>, id: string) {
    exists t :: t in ts && t.id == id && t.status.Terminal()
  }

  /** Open, unassigned, every dependency present and terminal, every filter matched. */
  ghost predicate Ready(ts: seq<Task>, deps: Graph, filters: seq<string>, t: Task) {
    && t in ts && t.status.Open? && t.assignee == ""
    && (forall d :: d in Succ(deps, t.id) ==> Done(ts, d))
    && Matches(t, filters)
  }

  ghost function ReadySet(ts: seq<Task>, deps: Graph, filters: seq<string>): set<Task> {
    set t | t in ts && Ready(ts, deps, filters, t)
  }

  method StatusMap(ts: seq<Task>) returns (m: map<string, Status>)
    requires Distinct(ts)
    ensures forall id :: id in m <==> exists t :: t in ts && t.id == id
    ensures forall t :: t in ts ==> t.id in m && m[t.id] == t.status
  {
    m := map[];
    for i := 0 to |ts|
      invariant forall id :: id in m <==> exists j :: 0 <= j < i && ts[j].id == id
      invariant forall j :: 0 <= j < i ==> ts[j].id in m && m[ts[j].id] == ts[j].status
    {
      m := m[ts[i].id := ts[i].status];
    }
  }

  method DepsDone(ts: seq<Task>, statuses: map<string, Status>, edges: seq<string>) returns (r: bool)
    requires forall id :: id in statuses <==> exists t :: t in ts && t.id == id
    requires forall t :: t in ts ==> t.id in statuses && statuses[t.id] == t.status
    ensures r <==> forall d :: d in edges ==> Done(ts, d)
  {
    for i := 0 to |edges|
      invariant forall j :: 0 <= j < i ==> Done(ts, edges[j])
    {
      var d := edges[i];
      if d !in statuses || !statuses[d].Terminal() {
        assert !Done(ts, d);
        return false;
      }
    }
    return true;
  }

  method CollectReady(ts: seq<Task>, deps: Graph, filters: seq<string>) returns (ready: seq<Task>)
    requires Distinct(ts)
    ensures IsListing(ready, ReadySet(ts, deps, filters)) && MostUrgentFirst(ready)
  {
    var statuses := StatusMap(ts);
    var found := [];
    for i := 0 to |ts|
      invariant forall t :: t in found <==> t in ts[..i] && Ready(ts, deps, filters, t)
      invariant Distinct(found)
    {
      var t := ts[i];
      assert ts[..i + 1] == ts[..i] + [t];
      if t.status != Open || t.assignee != "" { continue; }
      var done := DepsDone(ts, statuses, Succ(deps, t.id));
      var matched := LabelsMatch(t, filters);
      if done && matched {
        forall j | 0 <= j < |found| ensures found[j].id != t.id { assert found[j] in ts[..i]; }
        found := found + [t];
      }
    }
    assert ts[..|ts|] == ts;
    SortTasksSorted(found);
    return SortTasks(found);
  }

  /** orch/ledger_fs.go `ReadyTasks`; `entries` is the task directory in whatever order it is read. */
  method FsReadyTasks(entries: seq<Task>, deps: Graph, filters: seq<string>) returns (r: Option<seq<Task>>)
    requires Distinct(entries)
    ensures r.None? <==> !ValidFilters(filters)
    ensures r.Some? ==> IsListing(r.value, ReadySet(entries, deps, filters)) && MostUrgentFirst(r.value)
  {
    if !ValidFilters(filters) { return None; }
    var ready := CollectReady(entries, deps, filters);
    return Some(ready);
  }
}
