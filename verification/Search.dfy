// The three graph searches: depth-first reachability (orch/ledger_fs.go),
// three-colour cycle detection and breadth-first closure (orch/validate.go).
module Search {
  import opened Types
  import opened Graph

  /** The captured `visited` map of `reachable`. */
  class DepthFirst {
    const g: Graph
    const target: string
    ghost const nodes: set<string>
    var visited: set<string>

    constructor (g: Graph, start: string, target: string)
      ensures this.g == g && this.target == target && visited == {} && Bounded() && start in nodes
    {
      this.g, this.target, visited := g, target, {};
      nodes := NodesOf(g) + {start};
    }

    ghost predicate Bounded() reads this {
      visited <= nodes && forall n, m :: n in nodes && m in Succ(g, n) ==> m in nodes
    }

    /** Every node marked since `before` misses the target and has all its successors marked. */
    ghost predicate Exhausted(before: set<string>) reads this {
      && (forall n :: n in visited && n !in before ==> n != target)
      && (forall n, m :: n in visited && n !in before && m in Succ(g, n) ==> m in visited)
    }

    method Visit(node: string) returns (found: bool)
      requires Bounded() && node in nodes
      modifies this`visited
      ensures Bounded() && old(visited) <= visited
      ensures found ==> Reaches(g, node, target)
      ensures !found ==> node in visited && Exhausted(old(visited))
      ensures !found ==> (node in old(visited) || node != target)
      decreases nodes - visited
    {
      if node == target {
        ReachesSelf(g, node);
        return true;
      }
      if node in visited { return false; }
      ghost var before := visited;
      visited := visited + {node};
      var edges := Succ(g, node);
      for i := 0 to |edges|
        invariant Bounded() && before + {node} <= visited
        invariant forall j :: 0 <= j < i ==> edges[j] in visited
        invariant Exhausted(before + {node})
      {
        var deeper := Visit(edges[i]);
        if deeper {
          ReachesStep(g, node, edges[i], target);
          return true;
        }
      }
      return false;
    }
  }

  /** orch/ledger_fs.go `reachable`: true exactly when a dependency path exists. */
  method Reachable(g: Graph, start: string, target: string) returns (found: bool)
    ensures found <==> Reaches(g, start, target)
  {
    var search := new DepthFirst(g, start, target);
    found := search.Visit(start);
    if !found && Reaches(g, start, target) {
      ClosedKeepsReach(g, search.visited, start, target);
    }
  }

  /** The captured `color` map and `cycle` slice of `firstCycle`. */
  class ThreeColour {
    const g: Graph
    ghost const nodes: set<string>
    var grey: set<string>
    var black: set<string>
    var cycle: (string, string)
    ghost var stack: seq<string>
    ghost var done: seq<string>

    constructor (g: Graph, ghost nodes: set<string>)
      requires forall n, m :: n in nodes && m in Succ(g, n) ==> m in nodes
      ensures this.g == g && this.nodes == nodes && grey == {} && black == {} && Valid()
      ensures stack == []
    {
      this.g, this.nodes := g, nodes;
      grey, black, cycle, stack, done := {}, {}, ("", ""), [], [];
    }

    /** Grey nodes are the current path; black nodes come in topological order and are closed. */
    ghost predicate Valid() reads this {
      && (forall n, m :: n in nodes && m in Succ(g, n) ==> m in nodes)
      && grey == Elements(stack) && black == Elements(done) && grey !! black
      && grey + black <= nodes
      && (stack != [] ==> IsPath(g, stack))
      && TopologicalOrder(g, done)
    }

    /** The recorded pair is an edge that lies on a cycle. */
    ghost predicate BackEdge() reads this {
      cycle.1 in Succ(g, cycle.0) && Reaches(g, cycle.1, cycle.0)
    }

    method Visit(id: string) returns (found: bool)
      requires Valid() && id in nodes - grey - black
      requires stack != [] ==> id in Succ(g, stack[|stack| - 1])
      modifies this
      ensures found ==> BackEdge()
      ensures !found ==> Valid() && stack == old(stack) && old(black) + {id} <= black
      decreases nodes - grey - black
    {
      ghost var outer := stack;
      grey, stack := grey + {id}, stack + [id];
      ExtendPath(g, outer, id);
      var edges := Succ(g, id);
      for i := 0 to |edges|
        invariant Valid() && stack == outer + [id] && old(black) <= black
        invariant forall j :: 0 <= j < i ==> edges[j] in black
      {
        var dep := edges[i];
        if dep in grey {
          cycle := (id, dep);
          SuffixPath(g, stack, dep);
          return true;
        } else if dep !in black {
          var deeper := Visit(dep);
          if deeper { return true; }
        }
      }
      ExtendOrder(g, done, id);
      grey, black := grey - {id}, black + {id};
      stack, done := outer, done + [id];
      return false;
    }
  }

  lemma ExtendPath(g: Graph, p: seq<string>, n: string)
    requires p != [] ==> IsPath(g, p) && n in Succ(g, p[|p| - 1])
    ensures IsPath(g, p + [n]) && Elements(p + [n]) == Elements(p) + {n}
  {
  }

  lemma SuffixPath(g: Graph, p: seq<string>, n: string)
    requires IsPath(g, p) && n in p
    ensures Reaches(g, n, p[|p| - 1])
  {
    var k :| 0 <= k < |p| && p[k] == n;
    assert PathFromTo(g, p[k..], n, p[|p| - 1]);
  }

  lemma ExtendOrder(g: Graph, order: seq<string>, n: string)
    requires TopologicalOrder(g, order) && n !in order
    requires forall m :: m in Succ(g, n) ==> m in order
    ensures TopologicalOrder(g, order + [n]) && Elements(order + [n]) == Elements(order) + {n}
  {
    var longer := order + [n];
    forall i, m | 0 <= i < |longer| && m in Succ(g, longer[i]) ensures m in longer[..i] {
      if i < |order| {
        assert m in order[..i];
        assert longer[..i] == order[..i];
      } else {
        assert longer[..i] == order;
      }
    }
  }

  /** orch/validate.go `firstCycle` over the listed nodes, in any order. */
  method FirstCycle(g: Graph, ids: seq<string>) returns (cycle: Option<(string, string)>)
    requires forall n :: n in g ==> n in ids
    requires forall n, m :: m in Succ(g, n) ==> m in ids
    ensures cycle.None? <==> Acyclic(g)
    ensures cycle.Some? ==> cycle.value.1 in Succ(g, cycle.value.0) && Reaches(g, cycle.value.1, cycle.value.0)
  {
    var search := new ThreeColour(g, Elements(ids));
    for i := 0 to |ids|
      invariant search.Valid() && search.stack == [] && search.g == g && search.nodes == Elements(ids)
      invariant forall j :: 0 <= j < i ==> ids[j] in search.black
      invariant fresh(search)
    {
      if ids[i] !in search.grey && ids[i] !in search.black {
        var found := search.Visit(ids[i]);
        if found {
          EdgeOnCycle(g, search.cycle.0, search.cycle.1);
          return Some(search.cycle);
        }
      }
    }
    OrderedIsAcyclic(g, search.done);
    return None;
  }

  /** Marks and queues the neighbours of `cur` not seen before. */
  method Enqueue(g: Graph, ghost start: string, cur: string, reached0: set<string>, queue0: seq<string>,
                 ghost nodes: set<string>)
    returns (reached: set<string>, queue: seq<string>)
    requires Reaches(g, start, cur) && reached0 <= nodes && NodesOf(g) <= nodes
    requires forall n :: n in queue0 ==> n in reached0
    requires forall n :: n in reached0 ==> Reaches(g, start, n)
    ensures reached0 <= reached <= nodes && (reached == reached0 ==> queue == queue0)
    ensures forall n :: n in queue ==> n in reached
    ensures forall n :: n in queue0 ==> n in queue
    ensures forall n :: n in reached - reached0 ==> n in queue
    ensures forall n :: n in reached ==> Reaches(g, start, n)
    ensures forall m :: m in Succ(g, cur) ==> m in reached
  {
    reached, queue := reached0, queue0;
    var edges := Succ(g, cur);
    for i := 0 to |edges|
      invariant reached0 <= reached <= nodes && (reached == reached0 ==> queue == queue0)
      invariant forall n :: n in queue ==> n in reached
      invariant forall n :: n in queue0 ==> n in queue
      invariant forall n :: n in reached - reached0 ==> n in queue
      invariant forall n :: n in reached ==> Reaches(g, start, n)
      invariant forall j :: 0 <= j < i ==> edges[j] in reached
    {
      var next := edges[i];
      if next !in reached {
        ReachesSelf(g, next);
        ReachesStep(g, cur, next, next);
        ReachesTrans(g, start, cur, next);
        reached := reached + {next};
        queue := queue + [next];
      }
    }
  }

  /** orch/validate.go `bfsReach`: the breadth-first closure is the reachable set. */
  method BfsReach(start: string, g: Graph) returns (reached: set<string>)
    ensures forall n :: n in reached <==> Reaches(g, start, n)
  {
    reached := {start};
    var queue := [start];
    ghost var nodes := NodesOf(g) + {start};
    ReachesSelf(g, start);
    while queue != []
      invariant start in reached && reached <= nodes
      invariant forall n :: n in queue ==> n in reached
      invariant forall n :: n in reached ==> Reaches(g, start, n)
      invariant forall n, m :: n in reached && n !in queue && m in Succ(g, n) ==> m in reached
      decreases nodes - reached, |queue|
    {
      var cur := queue[0];
      ghost var queue0, reached0 := queue, reached;
      reached, queue := Enqueue(g, start, cur, reached, queue[1..], nodes);
      forall n, m | n in reached && n !in queue && m in Succ(g, n) ensures m in reached {
        if n != cur { assert n in reached0 && n !in queue0; }
      }
    }
    forall n | Reaches(g, start, n) ensures n in reached {
      ClosedKeepsReach(g, reached, start, n);
    }
  }
}
