// AddDep in its two forms: search then add (orch/ledger_fs.go) and
// add to a copy then search (orch/ledger_beads.go).
module Deps {
  import opened Graph
  import opened Search

  predicate IdChar(c: char) {
    'A' <= c <= 'Z' || 'a' <= c <= 'z' || '0' <= c <= '9'
  }

  /** The identifier pattern of orch/ledger.go: alphanumeric, then up to 127 of those, `_` or `-`. */
  predicate ValidId(id: string) {
    && 1 <= |id| <= 128
    && IdChar(id[0])
    && forall i :: 1 <= i < |id| ==> IdChar(id[i]) || id[i] == '_' || id[i] == '-'
  }

  datatype AddResult = Added | AlreadyThere | Cycle | InvalidId | StoreError

  /** The decision AddDep must take: malformed ids, then duplicates, then cycles are turned away. */
  ghost function Decision(g: Graph, a: string, b: string): AddResult {
    if !ValidId(a) || !ValidId(b) then InvalidId
    else if b in Succ(g, a) then AlreadyThere
    else if Reaches(g, b, a) then Cycle
    else Added
  }

  ghost function After(g: Graph, a: string, b: string): Graph {
    if Decision(g, a, b) == Added then AddEdge(g, a, b) else g
  }

  class DepStore {
    var deps: Graph

    constructor ()
      ensures deps == map[]
    {
      deps := map[];
    }

    /** `saved` says whether writing deps.json succeeds; when it does not, nothing changes. */
    method AddDep(taskId: string, dependsOn: string, saved: bool) returns (r: AddResult)
      modifies this
      ensures r == (if Decision(old(deps), taskId, dependsOn) == Added && !saved then StoreError
                    else Decision(old(deps), taskId, dependsOn))
      ensures deps == if r == Added then AddEdge(old(deps), taskId, dependsOn) else old(deps)
      ensures Acyclic(old(deps)) ==> Acyclic(deps)
      ensures forall n, m :: m in Succ(deps, n) <==>
                m in Succ(old(deps), n) || (r == Added && n == taskId && m == dependsOn)
    {
      AddEdgeSucc(deps, taskId, dependsOn);
      if !ValidId(taskId) || !ValidId(dependsOn) { return InvalidId; }
      if dependsOn in Succ(deps, taskId) { return AlreadyThere; }
      var cyclic := Reachable(deps, dependsOn, taskId);
      if cyclic { return Cycle; }
      if !saved { return StoreError; }
      if Acyclic(deps) { AddEdgeAcyclic(deps, taskId, dependsOn); }
      deps := AddEdge(deps, taskId, dependsOn);
      return Added;
    }
  }

  /** The adjacency map rebuilt by one dependency query per issue. */
  method CopyGraph(stored: Graph, issues: seq<string>) returns (graph: Graph)
    ensures forall n, m :: m in Succ(graph, n) <==> n in issues && m in Succ(stored, n)
  {
    graph := map[];
    ghost var copied: set<string> := {};
    for i := 0 to |issues|
      invariant forall n :: n in copied <==> n in issues[..i]
      invariant forall n, m :: m in Succ(graph, n) <==> n in copied && m in Succ(stored, n)
    {
      var edges := Succ(stored, issues[i]);
      ghost var before := graph;
      for j := 0 to |edges|
        invariant Succ(graph, issues[i]) == Succ(before, issues[i]) + edges[..j]
        invariant forall n :: n != issues[i] ==> Succ(graph, n) == Succ(before, n)
      {
        graph := AddEdge(graph, issues[i], edges[j]);
        assert edges[..j + 1] == edges[..j] + [edges[j]];
      }
      assert edges[..|edges|] == edges;
      forall n, m ensures m in Succ(graph, n) <==> n in copied + {issues[i]} && m in Succ(stored, n) {
        if n == issues[i] { assert m in Succ(graph, n) <==> m in Succ(before, n) || m in edges; }
      }
      copied := copied + {issues[i]};
      assert issues[..i + 1] == issues[..i] + [issues[i]];
    }
    assert issues[..|issues|] == issues;
  }

  /** The beads form copies the graph issue by issue, appends the candidate edge and only then searches;
      it takes the same decision. `issues` lists every issue of the tracker. */
  method BeadsAddDep(stored: Graph, issues: seq<string>, taskId: string, dependsOn: string) returns (r: AddResult)
    requires forall n :: n in stored && stored[n] != [] ==> n in issues
    ensures r == Decision(stored, taskId, dependsOn)
  {
    if !ValidId(taskId) || !ValidId(dependsOn) { return InvalidId; }
    if dependsOn in Succ(stored, taskId) { return AlreadyThere; }
    var graph := CopyGraph(stored, issues);
    var extended := AddEdge(graph, taskId, dependsOn);
    var cyclic := Reachable(extended, dependsOn, taskId);
    SearchAfterAdding(graph, taskId, dependsOn);
    if Reaches(graph, dependsOn, taskId) { SubgraphReaches(graph, stored, dependsOn, taskId); }
    if Reaches(stored, dependsOn, taskId) { SubgraphReaches(stored, graph, dependsOn, taskId); }
    return if cyclic then Cycle else Added;
  }

  /** Asking again for the same edge changes nothing. */
  lemma AddDepIdempotent(g: Graph, a: string, b: string)
    ensures After(After(g, a, b), a, b) == After(g, a, b)
    ensures Decision(g, a, b) == Added ==> Decision(After(g, a, b), a, b) == AlreadyThere
  {
    AddEdgeSucc(g, a, b);
  }

  /** The refused well-formed edges are exactly those that would close a cycle. */
  lemma RejectsExactlyCycles(g: Graph, a: string, b: string)
    requires Acyclic(g) && ValidId(a) && ValidId(b) && b !in Succ(g, a)
    ensures Decision(g, a, b) == Cycle <==> !Acyclic(AddEdge(g, a, b))
  {
    AddEdgeAcyclic(g, a, b);
  }

  ghost function AfterAll(g: Graph, edges: seq<(string, string)>): Graph
    decreases |edges|
  {
    if edges == [] then g else AfterAll(After(g, edges[0].0, edges[0].1), edges[1..])
  }

  lemma {:induction false} EveryHistoryIsAcyclic(g: Graph, edges: seq<(string, string)>)
    requires Acyclic(g)
    ensures Acyclic(AfterAll(g, edges))
    decreases |edges|
  {
    if edges != [] {
      AddEdgeAcyclic(g, edges[0].0, edges[0].1);
      EveryHistoryIsAcyclic(After(g, edges[0].0, edges[0].1), edges[1..]);
    }
  }

  /** The edges of an acyclic plan are all accepted, in whatever order they are submitted. */
  lemma {:induction false} AcyclicPlanIsAccepted(g: Graph, edges: seq<(string, string)>, plan: Graph)
    requires Acyclic(plan)
    requires forall n, m :: m in Succ(g, n) ==> m in Succ(plan, n)
    requires forall e :: e in edges ==> ValidId(e.0) && ValidId(e.1) && e.1 in Succ(plan, e.0)
    ensures forall n, m :: m in Succ(AfterAll(g, edges), n) <==> m in Succ(g, n) || (n, m) in edges
    decreases |edges|
  {
    if edges != [] {
      var (a, b) := edges[0];
      AddEdgeSucc(g, a, b);
      SubgraphAcyclic(g, plan);
      SubgraphAcyclic(AddEdge(g, a, b), plan);
      AddEdgeAcyclic(g, a, b);
      AcyclicPlanIsAccepted(After(g, a, b), edges[1..], plan);
      assert edges == [(a, b)] + edges[1..];
    }
  }
}
