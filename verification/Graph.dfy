// Dependency graphs: an edge runs from a task to each task it depends on.
module Graph {
  type Graph = map<string, seq<string>>

  function Succ(g: Graph, n: string): seq<string> {
    if n in g then g[n] else []
  }

  predicate IsPath(g: Graph, p: seq<string>) {
    |p| > 0 && forall i :: 0 <= i < |p| - 1 ==> p[i + 1] in Succ(g, p[i])
  }

  ghost predicate PathFromTo(g: Graph, p: seq<string>, a: string, b: string) {
    IsPath(g, p) && p[0] == a && p[|p| - 1] == b
  }

  /** `b` can be reached from `a` by zero or more edges. */
  ghost predicate Reaches(g: Graph, a: string, b: string) {
    exists p :: PathFromTo(g, p, a, b)
  }

  ghost predicate IsCycle(g: Graph, p: seq<string>) {
    IsPath(g, p) && |p| >= 2 && p[0] == p[|p| - 1]
  }

  ghost predicate Acyclic(g: Graph) {
    forall p :: !IsCycle(g, p)
  }

  /** The graph with the edge `a -> b` appended to the edges of `a`. */
  function AddEdge(g: Graph, a: string, b: string): Graph {
    g[a := Succ(g, a) + [b]]
  }

  function Elements(s: seq<string>): set<string> { set x | x in s }

  function NodesOf(g: Graph): set<string> {
    g.Keys + set n, m | n in g && m in g[n] :: m
  }

  lemma ReachesSelf(g: Graph, a: string)
    ensures Reaches(g, a, a)
  {
    assert PathFromTo(g, [a], a, a);
  }

  lemma ReachesStep(g: Graph, a: string, b: string, c: string)
    requires b in Succ(g, a) && Reaches(g, b, c)
    ensures Reaches(g, a, c)
  {
    var p :| PathFromTo(g, p, b, c);
    var q := [a] + p;
    forall i | 0 <= i < |q| - 1 ensures q[i + 1] in Succ(g, q[i]) {
      if i > 0 { assert q[i] == p[i - 1] && q[i + 1] == p[i]; }
    }
    assert PathFromTo(g, q, a, c);
  }

  lemma ReachesTrans(g: Graph, a: string, b: string, c: string)
    requires Reaches(g, a, b) && Reaches(g, b, c)
    ensures Reaches(g, a, c)
  {
    var p :| PathFromTo(g, p, a, b);
    var q :| PathFromTo(g, q, b, c);
    var r := p + q[1..];
    forall i | 0 <= i < |r| - 1 ensures r[i + 1] in Succ(g, r[i]) {
      if i < |p| - 1 {
      } else {
        assert r[i] == q[i - (|p| - 1)] && r[i + 1] == q[i - (|p| - 1) + 1];
      }
    }
    assert r[|r| - 1] == c by { if |q| > 1 { assert r[|r| - 1] == q[|q| - 1]; } }
    assert PathFromTo(g, r, a, c);
  }

  /** An edge whose head reaches its tail lies on a cycle, and only such edges do. */
  lemma EdgeOnCycle(g: Graph, a: string, b: string)
    requires b in Succ(g, a) && Reaches(g, b, a)
    ensures !Acyclic(g)
  {
    var p :| PathFromTo(g, p, b, a);
    var q := [a] + p;
    forall i | 0 <= i < |q| - 1 ensures q[i + 1] in Succ(g, q[i]) {
      if i > 0 { assert q[i] == p[i - 1] && q[i + 1] == p[i]; }
    }
    assert IsCycle(g, q);
  }

  /** A set closed under edges is never left by a path. */
  lemma {:induction false} ClosedKeepsPath(g: Graph, s: set<string>, p: seq<string>)
    requires IsPath(g, p) && p[0] in s
    requires forall n, m :: n in s && m in Succ(g, n) ==> m in s
    ensures forall i :: 0 <= i < |p| ==> p[i] in s
  {
    if |p| > 1 {
      assert p[1] in Succ(g, p[0]);
      ClosedKeepsPath(g, s, p[1..]);
      forall i | 0 <= i < |p| ensures p[i] in s {
        if i > 0 { assert p[i] == p[1..][i - 1]; }
      }
    }
  }

  lemma ClosedKeepsReach(g: Graph, s: set<string>, a: string, b: string)
    requires a in s && Reaches(g, a, b)
    requires forall n, m :: n in s && m in Succ(g, n) ==> m in s
    ensures b in s
  {
    var p :| PathFromTo(g, p, a, b);
    ClosedKeepsPath(g, s, p);
  }

  /** Every edge runs from a later to an earlier position of `order`. */
  ghost predicate TopologicalOrder(g: Graph, order: seq<string>) {
    && (forall i, j :: 0 <= i < j < |order| ==> order[i] != order[j])
    && forall i, m :: 0 <= i < |order| && m in Succ(g, order[i]) ==> m in order[..i]
  }

  lemma {:induction false} PathDescends(g: Graph, order: seq<string>, p: seq<string>, i: nat)
    requires TopologicalOrder(g, order)
    requires IsPath(g, p) && i < |order| && p[0] == order[i]
    ensures exists j :: 0 <= j <= i && order[j] == p[|p| - 1] && (|p| >= 2 ==> j < i)
    decreases |p|
  {
    if |p| >= 2 {
      assert p[1] in Succ(g, order[i]);
      assert p[1] in order[..i];
      var k :| 0 <= k < i && order[k] == p[1];
      assert p[1..][|p| - 2] == p[|p| - 1];
      PathDescends(g, order, p[1..], k);
    }
  }

  lemma OrderedIsAcyclic(g: Graph, order: seq<string>)
    requires TopologicalOrder(g, order)
    requires forall n :: n in g && g[n] != [] ==> n in order
    ensures Acyclic(g)
  {
    forall p ensures !IsCycle(g, p) {
      if IsCycle(g, p) {
        assert p[1] in Succ(g, p[0]);
        assert p[0] in order;
        var i :| 0 <= i < |order| && order[i] == p[0];
        PathDescends(g, order, p, i);
      }
    }
  }

  /** Fewer edges, fewer paths. */
  lemma SubgraphReaches(g: Graph, h: Graph, a: string, b: string)
    requires forall n, m :: m in Succ(g, n) ==> m in Succ(h, n)
    requires Reaches(g, a, b)
    ensures Reaches(h, a, b)
  {
    var p :| PathFromTo(g, p, a, b);
    assert PathFromTo(h, p, a, b);
  }

  lemma SubgraphAcyclic(g: Graph, h: Graph)
    requires forall n, m :: m in Succ(g, n) ==> m in Succ(h, n)
    requires Acyclic(h)
    ensures Acyclic(g)
  {
    forall p ensures !IsCycle(g, p) {
      if IsCycle(g, p) { assert IsCycle(h, p); }
    }
  }

  lemma AddEdgeSucc(g: Graph, a: string, b: string)
    ensures forall n, m :: m in Succ(AddEdge(g, a, b), n) <==> m in Succ(g, n) || (n == a && m == b)
  {
  }

  /** A path that never leaves `a` by an edge does not use a new edge out of `a`. */
  lemma PathWithoutEdge(g: Graph, a: string, b: string, p: seq<string>)
    requires IsPath(AddEdge(g, a, b), p)
    requires forall i :: 0 <= i < |p| - 1 ==> p[i] != a
    ensures IsPath(g, p)
  {
    AddEdgeSucc(g, a, b);
  }

  function FirstIndex(p: seq<string>, a: string): (i: nat)
    requires a in p
    ensures i < |p| && p[i] == a && a !in p[..i]
  {
    if p[0] == a then 0 else FirstIndex(p[1..], a) + 1
  }

  /** Adding `a -> b` first does not change whether `b` reaches `a`. */
  lemma SearchAfterAdding(g: Graph, a: string, b: string)
    ensures Reaches(AddEdge(g, a, b), b, a) <==> Reaches(g, b, a)
  {
    var h := AddEdge(g, a, b);
    AddEdgeSucc(g, a, b);
    if Reaches(g, b, a) { SubgraphReaches(g, h, b, a); }
    if Reaches(h, b, a) {
      var p :| PathFromTo(h, p, b, a);
      var k := FirstIndex(p, a);
      var q := p[..k + 1];
      assert IsPath(h, q);
      forall i | 0 <= i < |q| - 1 ensures q[i] != a { assert q[i] in p[..k]; }
      PathWithoutEdge(g, a, b, q);
      assert PathFromTo(g, q, b, a);
    }
  }

  /** The new edge closes a cycle exactly when its head already reaches its tail. */
  lemma AddEdgeAcyclic(g: Graph, a: string, b: string)
    requires Acyclic(g)
    ensures Acyclic(AddEdge(g, a, b)) <==> !Reaches(g, b, a)
  {
    var h := AddEdge(g, a, b);
    AddEdgeSucc(g, a, b);
    if Reaches(g, b, a) {
      SearchAfterAdding(g, a, b);
      EdgeOnCycle(h, a, b);
    }
    if !Acyclic(h) {
      var p :| IsCycle(h, p);
      if forall i :: 0 <= i < |p| - 1 ==> p[i] != a {
        PathWithoutEdge(g, a, b, p);
        assert IsCycle(g, p);
      } else {
        var i :| 0 <= i < |p| - 1 && p[i] == a;
        // Rotate the cycle to start at `a`: its first edge leaves `a`.
        PathPieces(h, p, i);
        ReachesTrans(h, p[i + 1], p[0], a);
        var n := p[i + 1];
        CycleThroughTail(g, a, b, n);
      }
    }
  }

  lemma PathPieces(g: Graph, p: seq<string>, i: nat)
    requires IsPath(g, p) && i < |p| - 1
    ensures Reaches(g, p[0], p[i]) && Reaches(g, p[i + 1], p[|p| - 1])
  {
    var front, back := p[..i + 1], p[i + 1..];
    forall j | 0 <= j < |back| - 1 ensures back[j + 1] in Succ(g, back[j]) {
      assert back[j] == p[i + 1 + j] && back[j + 1] == p[i + 1 + j + 1];
    }
    assert PathFromTo(g, front, p[0], p[i]) && PathFromTo(g, back, p[i + 1], p[|p| - 1]);
  }

  lemma CycleThroughTail(g: Graph, a: string, b: string, n: string)
    requires Acyclic(g)
    requires n in Succ(AddEdge(g, a, b), a) && Reaches(AddEdge(g, a, b), n, a)
    ensures Reaches(g, b, a)
  {
    var h := AddEdge(g, a, b);
    AddEdgeSucc(g, a, b);
    var p :| PathFromTo(h, p, n, a);
    var k := FirstIndex(p, a);
    var q := p[..k + 1];
    assert IsPath(h, q);
    forall i | 0 <= i < |q| - 1 ensures q[i] != a { assert q[i] in p[..k]; }
    PathWithoutEdge(g, a, b, q);
    assert PathFromTo(g, q, n, a);
    if n != b { EdgeOnCycle(g, a, n); }
  }

  /** Reversed edges give reversed reachability. */
  lemma {:induction false} ReversePath(g: Graph, h: Graph, p: seq<string>)
    requires forall n, m :: m in Succ(g, n) ==> n in Succ(h, m)
    requires IsPath(g, p)
    ensures Reaches(h, p[|p| - 1], p[0])
  {
    if |p| == 1 {
      ReachesSelf(h, p[0]);
    } else {
      assert p[1] in Succ(g, p[0]);
      assert p[1..][|p| - 2] == p[|p| - 1];
      ReversePath(g, h, p[1..]);
      ReachesSelf(h, p[0]);
      ReachesStep(h, p[1], p[0], p[0]);
      ReachesTrans(h, p[|p| - 1], p[1], p[0]);
    }
  }

  lemma ReverseReaches(g: Graph, h: Graph, a: string, b: string)
    requires forall n, m :: m in Succ(g, n) <==> n in Succ(h, m)
    ensures Reaches(g, a, b) <==> Reaches(h, b, a)
  {
    if Reaches(g, a, b) {
      var p :| PathFromTo(g, p, a, b);
      ReversePath(g, h, p);
    }
    if Reaches(h, b, a) {
      var p :| PathFromTo(h, p, b, a);
      ReversePath(h, g, p);
    }
  }
}
