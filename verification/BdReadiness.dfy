// Readiness recomputed over decoded bd issues (orch/ledger_bdcli.go ReadyTasks), against the file-system query.
module BdReadiness {
  import opened Types
  import opened Graph
  import opened Ordering
  import opened Readiness
  import opened BdEncoding

  datatype BdIssue = BdIssue(id: string, priority: int, fields: Issue)

  /** `toTask` on a whole issue; None stands for its panic on an undefined status. */
  function AsTask(i: BdIssue): Option<Task> {
    match Decode(i.fields)
    case None => None
    case Some(f) => Some(Task(i.id, f.0, f.1, i.priority, f.2))
  }

  /** `bd list` narrows by the first filter only, comparing flat labels. */
  predicate Listed(i: BdIssue, filters: seq<string>) {
    filters == [] || filters[0] in i.fields.labels
  }

  function ListIssues(issues: seq<BdIssue>, filters: seq<string>): (r: seq<BdIssue>)
    ensures forall i :: i in r <==> i in issues && Listed(i, filters)
  {
    if issues == [] then [] else
      assert issues == issues[..|issues| - 1] + [issues[|issues| - 1]];
      ListIssues(issues[..|issues| - 1], filters) +
      if Listed(issues[|issues| - 1], filters) then [issues[|issues| - 1]] else []
  }

  /** The tasks the issues decode to, in order. */
  function TasksOf(issues: seq<BdIssue>): (r: seq<Task>)
    ensures forall t :: t in r <==> exists i :: i in issues && AsTask(i) == Some(t)
  {
    if issues == [] then [] else
      assert issues == issues[..|issues| - 1] + [issues[|issues| - 1]];
      var rest := TasksOf(issues[..|issues| - 1]);
      match AsTask(issues[|issues| - 1])
      case None => rest
      case Some(t) => rest + [t]
  }

  /** What bd makes of the ledger for these filters. */
  ghost function Seen(issues: seq<BdIssue>, filters: seq<string>): seq<Task> { TasksOf(ListIssues(issues, filters)) }

  ghost predicate DistinctIssues(issues: seq<BdIssue>) {
    forall i, j :: 0 <= i < j < |issues| ==> issues[i].id != issues[j].id
  }

  lemma {:induction false} ListIssuesDistinct(issues: seq<BdIssue>, filters: seq<string>)
    requires DistinctIssues(issues)
    ensures DistinctIssues(ListIssues(issues, filters))
  {
    if issues != [] {
      var init := issues[..|issues| - 1];
      ListIssuesDistinct(init, filters);
      forall i | i in ListIssues(init, filters) ensures i.id != issues[|issues| - 1].id { assert i in init; }
    }
  }

  lemma {:induction false} TasksOfDistinct(issues: seq<BdIssue>)
    requires DistinctIssues(issues)
    ensures Distinct(TasksOf(issues))
  {
    if issues != [] {
      var init, last := issues[..|issues| - 1], issues[|issues| - 1];
      TasksOfDistinct(init);
      forall t | t in TasksOf(init) ensures t.id != last.id {
        var i :| i in init && AsTask(i) == Some(t);
      }
    }
  }

  datatype BdResult = BadFilter | Panicked | Returned(tasks: seq<Task>)

  /** Fetched issues are decoded one by one. */
  method DecodeIssues(issues: seq<BdIssue>) returns (r: Option<seq<Task>>)
    ensures r.None? <==> exists i :: i in issues && AsTask(i).None?
    ensures r.Some? ==> r.value == TasksOf(issues)
  {
    var tasks := [];
    for n := 0 to |issues|
      invariant tasks == TasksOf(issues[..n])
      invariant forall i :: i in issues[..n] ==> AsTask(i).Some?
    {
      assert issues[..n + 1][..n] == issues[..n];
      var f := ToTask(issues[n].fields);
      if f.None? {
        assert issues[n] in issues;
        return None;
      }
      tasks := tasks + [Task(issues[n].id, f.value.0, f.value.1, issues[n].priority, f.value.2)];
    }
    assert issues[..|issues|] == issues;
    return Some(tasks);
  }

  /** `ReadyTasks` of the bd-cli store: the ready set of the decoded listed issues, in order. */
  method BdReadyTasks(issues: seq<BdIssue>, deps: Graph, filters: seq<string>) returns (r: BdResult)
    requires DistinctIssues(issues)
    ensures r.BadFilter? <==> !ValidFilters(filters)
    ensures r.Panicked? <==> ValidFilters(filters) && exists i :: i in issues && Listed(i, filters) && AsTask(i).None?
    ensures r.Returned? ==> IsListing(r.tasks, ReadySet(Seen(issues, filters), deps, filters))
    ensures r.Returned? ==> MostUrgentFirst(r.tasks)
  {
    if !ValidFilters(filters) { return BadFilter; }
    var listed := ListIssues(issues, filters);
    var tasks := DecodeIssues(listed);
    if tasks.None? { return Panicked; }
    ListIssuesDistinct(issues, filters);
    TasksOfDistinct(listed);
    var ready := CollectReady(tasks.value, deps, filters);
    return Returned(ready);
  }

  // ----- statuses as bd writes them -----

  /** What bd's own status words mean to the dispatcher. */
  lemma StatusWords(i: BdIssue)
    ensures i.fields.status in {"deferred", "pinned", "hooked", "blocked"} ==>
              AsTask(i).Some? && AsTask(i).value.status == Blocked
    ensures i.fields.status == "closed" ==>
              AsTask(i).Some? &&
              AsTask(i).value.status == if "orch:failed" in i.fields.labels then Failed else Completed
    ensures i.fields.status == "in_progress" ==> AsTask(i).Some? && AsTask(i).value.status == InProgress
    ensures i.fields.status == "open" ==>
              AsTask(i).Some? && AsTask(i).value.status == if i.fields.assignee == "" then Open else Assigned
    ensures AsTask(i).None? <==>
              i.fields.status !in {"open", "in_progress", "closed", "blocked", "deferred", "pinned", "hooked"}
  {
  }

  /** Only an issue that bd calls open can be ready: parked ones never are, and they end what waits for them. */
  lemma ParkedIsNeverReady(issues: seq<BdIssue>, deps: Graph, filters: seq<string>, n: nat)
    requires n < |issues| && DistinctIssues(issues)
    ensures issues[n].fields.status != "open" ==> !BdReady(issues, deps, filters, n)
    ensures issues[n].fields.status in {"deferred", "pinned", "hooked", "blocked"} && Listed(issues[n], filters) ==>
              Done(Seen(issues, filters), issues[n].id)
  {
    var i := issues[n];
    StatusWords(i);
    if i.fields.status in {"deferred", "pinned", "hooked", "blocked"} && Listed(i, filters) {
      assert i in ListIssues(issues, filters);
      assert AsTask(i).value in Seen(issues, filters);
    }
  }

  /** What the store writes for each status, in bd's words. */
  lemma WrittenWords(i: BdIssue, t: Task)
    requires Encodes(i, t)
    ensures i.fields.status == "open" <==> t.status == Open || t.status == Assigned
    ensures i.fields.status == "in_progress" <==> t.status == InProgress
    ensures i.fields.status == "closed" <==> t.status == Completed || t.status == Failed
    ensures i.fields.status == "blocked" <==> t.status == Blocked
    ensures t.status == Failed ==> "orch:failed" in i.fields.labels
  {
  }

  // ----- the same ledger in both stores -----

  /** The issue is what the store writes for the task. */
  ghost predicate Encodes(i: BdIssue, t: Task) {
    && i.id == t.id && i.priority == t.priority
    && i.fields.status == BdStatus(t.status) && i.fields.assignee == t.assignee
    && IsEncoding(i.fields.labels, t)
  }

  ghost predicate Stores(issues: seq<BdIssue>, ledger: seq<Task>) {
    |issues| == |ledger| && forall n :: 0 <= n < |ledger| ==> Encodes(issues[n], ledger[n])
  }

  /** What survives the encoding of any task, representable or not. */
  lemma DecodedView(i: BdIssue, t: Task)
    requires Encodes(i, t)
    ensures AsTask(i).Some?
    ensures var u := AsTask(i).value;
            && u.id == t.id && u.assignee == t.assignee
            && (u.status.Terminal() <==> t.status.Terminal())
            && (u.status.Open? <==> (t.status.Open? || t.status.Assigned?) && t.assignee == "")
            && (u == t <==> Representable(t))
  {
    RoundTrip(t, i.fields.labels);
  }

  /** The dependency is filed, listed and terminal. */
  ghost predicate DoneAndListed(issues: seq<BdIssue>, ledger: seq<Task>, filters: seq<string>, id: string)
    requires |issues| == |ledger|
  {
    exists m :: 0 <= m < |ledger| && ledger[m].id == id && ledger[m].status.Terminal() && Listed(issues[m], filters)
  }

  lemma SeenDone(issues: seq<BdIssue>, ledger: seq<Task>, filters: seq<string>, id: string)
    requires Stores(issues, ledger)
    ensures Done(Seen(issues, filters), id) <==> DoneAndListed(issues, ledger, filters, id)
  {
    if Done(Seen(issues, filters), id) {
      var u :| u in Seen(issues, filters) && u.id == id && u.status.Terminal();
      var i :| i in ListIssues(issues, filters) && AsTask(i) == Some(u);
      var m :| 0 <= m < |issues| && issues[m] == i;
      DecodedView(i, ledger[m]);
    }
    if DoneAndListed(issues, ledger, filters, id) {
      var m :| 0 <= m < |ledger| && ledger[m].id == id && ledger[m].status.Terminal() && Listed(issues[m], filters);
      DecodedView(issues[m], ledger[m]);
      assert issues[m] in ListIssues(issues, filters);
      assert AsTask(issues[m]).value in Seen(issues, filters);
    }
  }

  /** bd returns this task as ready. */
  ghost predicate BdReady(issues: seq<BdIssue>, deps: Graph, filters: seq<string>, n: nat)
    requires n < |issues|
  {
    AsTask(issues[n]).Some? && Ready(Seen(issues, filters), deps, filters, AsTask(issues[n]).value)
  }

  /** On any ledger, in terms of the tasks that were written. */
  lemma BdReadyExactly(issues: seq<BdIssue>, ledger: seq<Task>, deps: Graph, filters: seq<string>, n: nat)
    requires Stores(issues, ledger) && Distinct(ledger) && n < |ledger|
    ensures BdReady(issues, deps, filters, n) <==>
            && Listed(issues[n], filters)
            && (ledger[n].status.Open? || ledger[n].status.Assigned?) && ledger[n].assignee == ""
            && Matches(AsTask(issues[n]).value, filters)
            && forall d :: d in Succ(deps, ledger[n].id) ==> DoneAndListed(issues, ledger, filters, d)
  {
    var u, seen := AsTask(issues[n]).value, Seen(issues, filters);
    DecodedView(issues[n], ledger[n]);
    if u in seen {
      var i :| i in ListIssues(issues, filters) && AsTask(i) == Some(u);
      var m :| 0 <= m < |issues| && issues[m] == i;
      assert m == n by { DecodedView(i, ledger[m]); }
    }
    assert u in seen <==> Listed(issues[n], filters);
    forall d ensures Done(seen, d) <==> DoneAndListed(issues, ledger, filters, d) {
      SeenDone(issues, ledger, filters, d);
    }
  }

  lemma FiledAndDone(issues: seq<BdIssue>, ledger: seq<Task>, filters: seq<string>, d: string)
    requires |issues| == |ledger| && Distinct(ledger)
    ensures DoneAndListed(issues, ledger, filters, d) <==>
            Done(ledger, d) && forall m :: 0 <= m < |ledger| && ledger[m].id == d ==> Listed(issues[m], filters)
  {
    if Done(ledger, d) {
      var t :| t in ledger && t.id == d && t.status.Terminal();
      var m :| 0 <= m < |ledger| && ledger[m] == t;
      assert forall k :: 0 <= k < |ledger| && ledger[k].id == d ==> k == m;
    }
  }

  /** What bd returns is ready in the file-system store exactly when the written record is open and its own
      labels match the filters. */
  lemma BdReadyIsFsReadyIff(issues: seq<BdIssue>, ledger: seq<Task>, deps: Graph, filters: seq<string>, n: nat)
    requires Stores(issues, ledger) && Distinct(ledger) && n < |ledger| && BdReady(issues, deps, filters, n)
    ensures Ready(ledger, deps, filters, ledger[n]) <==> ledger[n].status.Open? && Matches(ledger[n], filters)
  {
    BdReadyExactly(issues, ledger, deps, filters, n);
    forall d | d in Succ(deps, ledger[n].id) ensures Done(ledger, d) { FiledAndDone(issues, ledger, filters, d); }
  }

  /** What is ready in the file-system store is returned by bd exactly when it and its dependencies are listed
      and its decoded labels match. */
  lemma FsReadyIsBdReadyIff(issues: seq<BdIssue>, ledger: seq<Task>, deps: Graph, filters: seq<string>, n: nat)
    requires Stores(issues, ledger) && Distinct(ledger) && n < |ledger| && Ready(ledger, deps, filters, ledger[n])
    ensures AsTask(issues[n]).Some?
    ensures BdReady(issues, deps, filters, n) <==>
            && Listed(issues[n], filters) && Matches(AsTask(issues[n]).value, filters)
            && forall m :: 0 <= m < |ledger| && ledger[m].id in Succ(deps, ledger[n].id) ==> Listed(issues[m], filters)
  {
    DecodedView(issues[n], ledger[n]);
    BdReadyExactly(issues, ledger, deps, filters, n);
    forall d | d in Succ(deps, ledger[n].id)
      ensures DoneAndListed(issues, ledger, filters, d) <==>
              forall m :: 0 <= m < |ledger| && ledger[m].id == d ==> Listed(issues[m], filters)
    {
      FiledAndDone(issues, ledger, filters, d);
    }
  }

  /** Containment fails: a key with a colon decodes to another key, which the filter then finds. */
  lemma ColonKeyIsReadyOnlyInBd(i: BdIssue, t: Task, a: string, b: string, v: string)
    requires ':' !in a && a != "orch" && t.labels == map[a + ":" + b := v]
    requires t.status.Open? && t.assignee == "" && Encodes(i, t)
    ensures BdReady([i], map[], [a + ":" + b + ":" + v], 0)
    ensures !Ready([t], map[], [a + ":" + b + ":" + v], t)
  {
    var k, f := a + ":" + b, a + ":" + b + ":" + v;
    var u := AsTask(i).value;
    DecodedView(i, t);
    assert f == k + ":" + v && f == a + ":" + (b + ":" + v);
    assert f in i.fields.labels by { assert k in t.labels; }
    CutJoin(a, b + ":" + v);
    PrefixKey(a, b + ":" + v);
    forall l | l in i.fields.labels ensures l == f { }
    DecodedKey(i.fields.labels, a);
    assert FilterMatches(u, f);
    assert k != a by { assert ':' in k by { assert k[|a|] == ':'; } }
    assert Lookup(t.labels, a) == "" && b + ":" + v != "" by { assert |b + ":" + v| > 0; }
    assert !FilterMatches(t, f) by { assert Cut(f) == (a, b + ":" + v, true); }
    assert f in [f];
    BdReadyExactly([i], [t], map[], [f], 0);
  }

  /** The repository's own label of that shape. */
  lemma WorkOrderHashIsReadyOnlyInBd(i: BdIssue, t: Task, v: string)
    requires t.labels == map[LABEL_WORK_ORDER_HASH := v] && t.status.Open? && t.assignee == "" && Encodes(i, t)
    ensures BdReady([i], map[], [LABEL_WORK_ORDER_HASH + ":" + v], 0)
    ensures !Ready([t], map[], [LABEL_WORK_ORDER_HASH + ":" + v], t)
  {
    assert LABEL_WORK_ORDER_HASH == "wonka" + ":" + "work-order-hash";
    ColonKeyIsReadyOnlyInBd(i, t, "wonka", "work-order-hash", v);
  }

  /** So does an assigned record without an assignee, which decodes to an open one. */
  lemma NamelessAssignedIsReadyOnlyInBd(i: BdIssue, t: Task)
    requires t.status.Assigned? && t.assignee == "" && Encodes(i, t)
    ensures BdReady([i], map[], [], 0) && !Ready([t], map[], [], t)
  {
    BdReadyExactly([i], [t], map[], [], 0);
  }

  /** A matched filter with a value is always carried, so only the empty-value filter can hide a task. */
  lemma MatchedIsListed(i: BdIssue, t: Task, filters: seq<string>)
    requires Encodes(i, t) && ValidFilters(filters) && Matches(t, filters)
    requires filters != [] ==> Cut(filters[0]).1 != ""
    ensures Listed(i, filters)
  {
    if filters != [] {
      assert FilterMatches(t, filters[0]);
      assert Cut(filters[0]).0 in t.labels;
    }
  }

  /** On a ledger of representable tasks bd's ready set is contained in the file-system one, and equal to it when
      the first filter has a value and every dependency of a listed task is listed. */
  lemma ReadinessAgreement(issues: seq<BdIssue>, ledger: seq<Task>, deps: Graph, filters: seq<string>)
    requires Stores(issues, ledger) && Distinct(ledger) && ValidFilters(filters)
    requires forall t :: t in ledger ==> Representable(t)
    ensures ReadySet(Seen(issues, filters), deps, filters) <= ReadySet(ledger, deps, filters)
    ensures (filters != [] ==> Cut(filters[0]).1 != "") && ClosedUnderDeps(issues, ledger, deps, filters) ==>
              ReadySet(Seen(issues, filters), deps, filters) == ReadySet(ledger, deps, filters)
  {
    forall u | u in ReadySet(Seen(issues, filters), deps, filters) ensures u in ReadySet(ledger, deps, filters) {
      var i :| i in ListIssues(issues, filters) && AsTask(i) == Some(u);
      var n :| 0 <= n < |issues| && issues[n] == i;
      assert ledger[n] in ledger;
      DecodedView(i, ledger[n]);
      BdReadyIsFsReadyIff(issues, ledger, deps, filters, n);
    }
    if (filters != [] ==> Cut(filters[0]).1 != "") && ClosedUnderDeps(issues, ledger, deps, filters) {
      forall t | t in ReadySet(ledger, deps, filters) ensures t in ReadySet(Seen(issues, filters), deps, filters) {
        var n :| 0 <= n < |ledger| && ledger[n] == t;
        DecodedView(issues[n], t);
        MatchedIsListed(issues[n], t, filters);
        FsReadyIsBdReadyIff(issues, ledger, deps, filters, n);
      }
    }
  }

  /** Every dependency of a listed task is listed. */
  ghost predicate ClosedUnderDeps(issues: seq<BdIssue>, ledger: seq<Task>, deps: Graph, filters: seq<string>)
    requires |issues| == |ledger|
  {
    forall n, m | 0 <= n < |ledger| && 0 <= m < |ledger| && ledger[m].id in Succ(deps, ledger[n].id) ::
      Listed(issues[n], filters) ==> Listed(issues[m], filters)
  }
}
