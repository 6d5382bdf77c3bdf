// The post-planner graph validator (orch/validate.go).
module Validate {
  import opened Types
  import opened Graph
  import opened Search

  datatype Requirement = TG07 | TG08 | TG09 | TG10
  datatype Verdict = Accepted | Rejected(requirement: Requirement, offenders: seq<string>)

  /** Task ids are ledger keys, so a listing never repeats one. */
  ghost predicate DistinctIds(ts: seq<Task>) {
    forall i, j :: 0 <= i < j < |ts| ==> ts[i].id != ts[j].id
  }

  function Ids(ts: seq<Task>): set<string> { set t | t in ts :: t.id }

  function WithRole(ts: seq<Task>, role: string): seq<string> {
    if ts == [] then [] else
      var last := ts[|ts| - 1];
      WithRole(ts[..|ts| - 1], role) + if last.Role() == role then [last.id] else []
  }

  /** A role is recognised when it is configured or belongs to the closed set; escalations are exempt. */
  predicate Recognised(t: Task, roles: set<string>) {
    t.Role() == ESCALATION || (t.Role() != "" && (t.Role() in roles || ValidRole(t.Role())))
  }

  function BadRoles(ts: seq<Task>, roles: set<string>): seq<string> {
    if ts == [] then [] else
      var last := ts[|ts| - 1];
      BadRoles(ts[..|ts| - 1], roles) + if Recognised(last, roles) then [] else [last.id]
  }

  function KeepIn(ids: seq<string>, keep: set<string>): (r: seq<string>)
    ensures forall m :: m in r <==> m in ids && m in keep
  {
    if ids == [] then [] else
      var last := ids[|ids| - 1];
      KeepIn(ids[..|ids| - 1], keep) + if last in keep then [last] else []
  }

  /** The dependency edges between listed tasks. */
  function Intra(ts: seq<Task>, deps: Graph): Graph {
    map id | id in Ids(ts) :: KeepIn(Succ(deps, id), Ids(ts))
  }

  ghost function Unreached(g: Graph, from: string, ids: seq<string>): seq<string> {
    if ids == [] then [] else
      var last := ids[|ids| - 1];
      Unreached(g, from, ids[..|ids| - 1]) + if Reaches(g, from, last) then [] else [last]
  }

  /** The non-escalation tasks that do not depend, directly or not, on the plan. */
  ghost function Orphans(g: Graph, plan: string, ts: seq<Task>): seq<string> {
    if ts == [] then [] else
      var last := ts[|ts| - 1];
      Orphans(g, plan, ts[..|ts| - 1]) +
      if last.Role() == ESCALATION || Reaches(g, last.id, plan) then [] else [last.id]
  }

  /** What a planner run must leave behind. */
  ghost predicate WellFormed(ts: seq<Task>, deps: Graph, roles: set<string>, plan: string, gate: string) {
    var g := Intra(ts, deps);
    && WithRole(ts, PLANNER) == [plan]
    && (forall t :: t in ts ==> Recognised(t, roles))
    && Acyclic(g)
    && WithRole(ts, GATE) == [gate]
    && (forall v :: v in ts && v.Role() == VERIFIER ==> Reaches(g, gate, v.id))
    && (forall t :: t in ts && t.Role() != ESCALATION ==> Reaches(g, t.id, plan))
  }

  lemma {:induction false} WithRoleMembers(ts: seq<Task>, role: string)
    ensures forall id :: id in WithRole(ts, role) <==> exists t :: t in ts && t.Role() == role && t.id == id
  {
    if ts != [] {
      var last := ts[|ts| - 1];
      WithRoleMembers(ts[..|ts| - 1], role);
      assert ts == ts[..|ts| - 1] + [last];
    }
  }

  lemma {:induction false} NoBadRoles(ts: seq<Task>, roles: set<string>)
    ensures BadRoles(ts, roles) == [] <==> forall t :: t in ts ==> Recognised(t, roles)
  {
    if ts != [] {
      NoBadRoles(ts[..|ts| - 1], roles);
      assert ts == ts[..|ts| - 1] + [ts[|ts| - 1]];
    }
  }

  lemma {:induction false} NoneUnreached(g: Graph, from: string, ids: seq<string>)
    ensures Unreached(g, from, ids) == [] <==> forall id :: id in ids ==> Reaches(g, from, id)
  {
    if ids != [] {
      NoneUnreached(g, from, ids[..|ids| - 1]);
      assert ids == ids[..|ids| - 1] + [ids[|ids| - 1]];
    }
  }

  lemma {:induction false} NoOrphans(g: Graph, plan: string, ts: seq<Task>)
    ensures Orphans(g, plan, ts) == [] <==> forall t :: t in ts && t.Role() != ESCALATION ==> Reaches(g, t.id, plan)
  {
    if ts != [] {
      NoOrphans(g, plan, ts[..|ts| - 1]);
      assert ts == ts[..|ts| - 1] + [ts[|ts| - 1]];
    }
  }

  /** The first failed requirement, in the order the checks run. The two ids reported for a
      cycle are any edge on a cycle. */
  ghost predicate IsVerdict(v: Verdict, ts: seq<Task>, deps: Graph, roles: set<string>) {
    var planners, gates := WithRole(ts, PLANNER), WithRole(ts, GATE);
    var g := Intra(ts, deps);
    if planners == [] then v == Accepted
    else if |planners| > 1 then v == Rejected(TG10, planners)
    else if BadRoles(ts, roles) != [] then v == Rejected(TG07, BadRoles(ts, roles))
    else if !Acyclic(g) then
      && v.Rejected? && v.requirement == TG08 && |v.offenders| == 2
      && v.offenders[1] in Succ(g, v.offenders[0]) && Reaches(g, v.offenders[1], v.offenders[0])
    else if |gates| != 1 then v == Rejected(TG09, gates)
    else if Unreached(g, gates[0], WithRole(ts, VERIFIER)) != [] then
      v == Rejected(TG09, Unreached(g, gates[0], WithRole(ts, VERIFIER)))
    else if Orphans(g, planners[0], ts) != [] then v == Rejected(TG10, Orphans(g, planners[0], ts))
    else v == Accepted
  }

  lemma CoversVerifiers(ts: seq<Task>, g: Graph, gate: string)
    ensures (forall id :: id in WithRole(ts, VERIFIER) ==> Reaches(g, gate, id)) <==>
            (forall w :: w in ts && w.Role() == VERIFIER ==> Reaches(g, gate, w.id))
  {
    WithRoleMembers(ts, VERIFIER);
    if forall id :: id in WithRole(ts, VERIFIER) ==> Reaches(g, gate, id) {
      forall w | w in ts && w.Role() == VERIFIER ensures Reaches(g, gate, w.id) {
        assert w.id in WithRole(ts, VERIFIER);
      }
    }
  }

  /** Acceptance means: no planner ran, or the graph is well formed. */
  lemma AcceptedMeansWellFormed(v: Verdict, ts: seq<Task>, deps: Graph, roles: set<string>)
    requires IsVerdict(v, ts, deps, roles)
    ensures v.Accepted? <==>
            || (forall t :: t in ts ==> t.Role() != PLANNER)
            || exists plan, gate :: WellFormed(ts, deps, roles, plan, gate)
  {
    var planners, gates, verifiers := WithRole(ts, PLANNER), WithRole(ts, GATE), WithRole(ts, VERIFIER);
    var g := Intra(ts, deps);
    WithRoleMembers(ts, PLANNER);
    NoBadRoles(ts, roles);
    if planners == [] {
      assert forall t :: t in ts && t.Role() == PLANNER ==> t.id in planners;
    } else {
      assert exists t :: t in ts && t.Role() == PLANNER by { assert planners[0] in planners; }
      NoOrphans(g, planners[0], ts);
      if |gates| == 1 {
        NoneUnreached(g, gates[0], verifiers);
        assert gates == [gates[0]];
        CoversVerifiers(ts, g, gates[0]);
        if v.Accepted? {
          assert planners == [planners[0]];
          assert WellFormed(ts, deps, roles, planners[0], gates[0]);
        }
      }
    }
  }

  /** An accepted plan task is a root: it depends on no listed task but escalations. */
  lemma PlanIsRoot(ts: seq<Task>, deps: Graph, roles: set<string>, plan: string, gate: string, t: Task)
    requires WellFormed(ts, deps, roles, plan, gate)
    requires t in ts && t.Role() != ESCALATION
    ensures t.id !in Succ(Intra(ts, deps), plan)
  {
    var g := Intra(ts, deps);
    if t.id in Succ(g, plan) { EdgeOnCycle(g, plan, t.id); }
  }

  method KeepIntra(edges: seq<string>, all: set<string>) returns (intra: seq<string>)
    ensures intra == KeepIn(edges, all)
  {
    intra := [];
    for j := 0 to |edges|
      invariant intra == KeepIn(edges[..j], all)
    {
      assert edges[..j + 1][..j] == edges[..j];
      if edges[j] in all { intra := intra + [edges[j]]; }
    }
    assert edges[..|edges|] == edges;
  }

  method AddReverse(before: Graph, id: string, intra: seq<string>) returns (reverse: Graph)
    ensures forall n, m :: m in Succ(reverse, n) <==> m in Succ(before, n) || (m == id && n in intra)
  {
    reverse := before;
    for j := 0 to |intra|
      invariant forall n, m :: m in Succ(reverse, n) <==> m in Succ(before, n) || (m == id && n in intra[..j])
    {
      AddEdgeSucc(reverse, intra[j], id);
      reverse := AddEdge(reverse, intra[j], id);
      assert intra[..j + 1] == intra[..j] + [intra[j]];
    }
    assert intra[..|intra|] == intra;
  }

  ghost predicate Mirror(forward: Graph, reverse: Graph) {
    forall n, m :: m in Succ(reverse, n) <==> n in Succ(forward, m)
  }

  lemma MirrorStep(forward: Graph, reverse: Graph, id: string, intra: seq<string>, reverse': Graph)
    requires Mirror(forward, reverse) && id !in forward
    requires forall n, m :: m in Succ(reverse', n) <==> m in Succ(reverse, n) || (m == id && n in intra)
    ensures Mirror(forward[id := intra], reverse')
  {
    assert Succ(forward, id) == [];
    forall n, m ensures m in Succ(reverse', n) <==> n in Succ(forward[id := intra], m) {
      assert m in Succ(reverse, n) <==> n in Succ(forward, m);
    }
  }

  lemma IdsSnoc(ts: seq<Task>, i: nat)
    requires DistinctIds(ts) && i < |ts|
    ensures Ids(ts[..i + 1]) == Ids(ts[..i]) + {ts[i].id}
    ensures ts[i].id !in Ids(ts[..i])
  {
    assert ts[..i + 1] == ts[..i] + [ts[i]];
  }

  method BuildEdges(ts: seq<Task>, deps: Graph) returns (forward: Graph, reverse: Graph)
    requires DistinctIds(ts)
    ensures forward == Intra(ts, deps)
    ensures Mirror(forward, reverse)
  {
    forward, reverse := map[], map[];
    var all := Ids(ts);
    for i := 0 to |ts|
      invariant forward.Keys == Ids(ts[..i])
      invariant forall id :: id in forward ==> forward[id] == KeepIn(Succ(deps, id), all)
      invariant Mirror(forward, reverse)
    {
      var id := ts[i].id;
      var intra := KeepIntra(Succ(deps, id), all);
      IdsSnoc(ts, i);
      var reverse' := AddReverse(reverse, id, intra);
      MirrorStep(forward, reverse, id, intra, reverse');
      forward, reverse := forward[id := intra], reverse';
    }
    assert ts[..|ts|] == ts;
  }

  /** orch/validate.go `ValidateLifecycleGraph` over the branch's tasks. */
  method ValidateLifecycleGraph(ts: seq<Task>, deps: Graph, roles: set<string>) returns (v: Verdict)
    requires DistinctIds(ts)
    ensures IsVerdict(v, ts, deps, roles)
    ensures v.Accepted? <==>
            || (forall t :: t in ts ==> RoleOf(t) != "planner")
            || exists p, g :: InWords(ts, deps, roles, p, g)
  {
    v := Check(ts, deps, roles);
    AcceptedInWords(v, ts, deps, roles);
  }

  method PartitionByRole(ts: seq<Task>) returns (planners: seq<string>, gates: seq<string>, verifiers: seq<string>)
    ensures planners == WithRole(ts, PLANNER) && gates == WithRole(ts, GATE) && verifiers == WithRole(ts, VERIFIER)
  {
    planners, gates, verifiers := [], [], [];
    for i := 0 to |ts|
      invariant planners == WithRole(ts[..i], PLANNER)
      invariant gates == WithRole(ts[..i], GATE)
      invariant verifiers == WithRole(ts[..i], VERIFIER)
    {
      assert ts[..i + 1][..i] == ts[..i];
      var role := ts[i].Role();
      if role == PLANNER { planners := planners + [ts[i].id]; }
      else if role == GATE { gates := gates + [ts[i].id]; }
      else if role == VERIFIER { verifiers := verifiers + [ts[i].id]; }
    }
    assert ts[..|ts|] == ts;
  }

  method CollectBadRoles(ts: seq<Task>, roles: set<string>) returns (bad: seq<string>)
    ensures bad == BadRoles(ts, roles)
  {
    bad := [];
    for i := 0 to |ts|
      invariant bad == BadRoles(ts[..i], roles)
    {
      assert ts[..i + 1][..i] == ts[..i];
      var role := ts[i].Role();
      if role == ESCALATION { continue; }
      if role == "" { bad := bad + [ts[i].id]; continue; }
      if role in roles { continue; }
      if !ValidRole(role) { bad := bad + [ts[i].id]; }
    }
    assert ts[..|ts|] == ts;
  }

  method Check(ts: seq<Task>, deps: Graph, roles: set<string>) returns (v: Verdict)
    requires DistinctIds(ts)
    ensures IsVerdict(v, ts, deps, roles)
  {
    var planners, gates, verifiers := PartitionByRole(ts);
    if |planners| == 0 { return Accepted; }
    if |planners| > 1 { return Rejected(TG10, planners); }
    var planId := planners[0];
    var bad := CollectBadRoles(ts, roles);
    if |bad| > 0 { return Rejected(TG07, bad); }
    var forward, reverse := BuildEdges(ts, deps);
    var ids := seq(|ts|, i requires 0 <= i < |ts| => ts[i].id);
    assert forall id :: id in Ids(ts) ==> id in ids by {
      forall id | id in Ids(ts) ensures id in ids {
        var i :| 0 <= i < |ts| && ts[i].id == id;
        assert ids[i] == id;
      }
    }
    var cycle := FirstCycle(forward, ids);
    if cycle.Some? { return Rejected(TG08, [cycle.value.0, cycle.value.1]); }
    if |gates| != 1 { return Rejected(TG09, gates); }
    var unreached := CollectUnreached(forward, gates[0], verifiers);
    if |unreached| > 0 { return Rejected(TG09, unreached); }
    var orphans := CollectOrphans(forward, reverse, planId, ts);
    if |orphans| > 0 { return Rejected(TG10, orphans); }
    return Accepted;
  }

  method CollectUnreached(g: Graph, gate: string, verifiers: seq<string>) returns (r: seq<string>)
    ensures r == Unreached(g, gate, verifiers)
  {
    var reached := BfsReach(gate, g);
    r := [];
    for i := 0 to |verifiers|
      invariant r == Unreached(g, gate, verifiers[..i])
    {
      assert verifiers[..i + 1][..i] == verifiers[..i];
      if verifiers[i] !in reached { r := r + [verifiers[i]]; }
    }
    assert verifiers[..|verifiers|] == verifiers;
  }

  method CollectOrphans(forward: Graph, reverse: Graph, plan: string, ts: seq<Task>) returns (r: seq<string>)
    requires Mirror(forward, reverse)
    ensures r == Orphans(forward, plan, ts)
  {
    var reached := BfsReach(plan, reverse);
    r := [];
    for i := 0 to |ts|
      invariant r == Orphans(forward, plan, ts[..i])
    {
      assert ts[..i + 1][..i] == ts[..i];
      ReverseReaches(forward, reverse, ts[i].id, plan);
      if ts[i].id == plan { ReachesSelf(forward, plan); continue; }
      if ts[i].Role() == ESCALATION { continue; }
      if ts[i].id !in reached { r := r + [ts[i].id]; }
    }
    assert ts[..|ts|] == ts;
  }

  // ----- the verdict in words -----

  function RoleOf(t: Task): string { Lookup(t.labels, "role") }

  /** Exactly one listed task has the role. */
  ghost predicate Only(ts: seq<Task>, t: Task, role: string) {
    t in ts && RoleOf(t) == role && forall u :: u in ts && RoleOf(u) == role ==> u == t
  }

  /** One planner; one gate that depends on every verifier; every task but escalations depends on the planner and has a
      configured or known role; no cycle among the listed tasks. */
  ghost predicate InWords(ts: seq<Task>, deps: Graph, roles: set<string>, p: Task, g: Task) {
    && Only(ts, p, "planner") && Only(ts, g, "gate")
    && (forall t :: t in ts ==> KnownRole(t, roles))
    && Acyclic(Intra(ts, deps))
    && (forall v :: v in ts && RoleOf(v) == "verifier" ==> Reaches(Intra(ts, deps), g.id, v.id))
    && (forall t :: t in ts && RoleOf(t) != "escalation" ==> Reaches(Intra(ts, deps), t.id, p.id))
  }

  /** The edges that count are those between listed tasks. */
  lemma IntraMeans(ts: seq<Task>, deps: Graph, n: string, m: string)
    ensures m in Succ(Intra(ts, deps), n) <==>
            m in Succ(deps, n) && (exists t :: t in ts && t.id == n) && (exists t :: t in ts && t.id == m)
  {
  }

  lemma SameId(ts: seq<Task>, a: Task, b: Task)
    requires DistinctIds(ts) && a in ts && b in ts && a.id == b.id
    ensures a == b
  {
    var i :| 0 <= i < |ts| && ts[i] == a;
    var j :| 0 <= j < |ts| && ts[j] == b;
    assert i == j;
  }

  ghost predicate AllDifferent(l: seq<string>) {
    forall i, j :: 0 <= i < j < |l| ==> l[i] != l[j]
  }

  lemma {:induction false} WithRoleDistinct(ts: seq<Task>, role: string)
    requires DistinctIds(ts)
    ensures AllDifferent(WithRole(ts, role))
  {
    if ts != [] {
      var init, last := ts[..|ts| - 1], ts[|ts| - 1];
      WithRoleDistinct(init, role);
      WithRoleMembers(init, role);
      var l := WithRole(init, role);
      forall i | 0 <= i < |l| ensures l[i] != last.id {
        assert l[i] in l;
        var t :| t in init && t.Role() == role && t.id == l[i];
        var k :| 0 <= k < |init| && init[k] == t;
        assert ts[k] == t;
      }
      assert WithRole(ts, role) == l + if last.Role() == role then [last.id] else [];
    }
  }

  lemma OnlyMeans(ts: seq<Task>, role: string, t: Task)
    requires DistinctIds(ts) && t in ts
    ensures Only(ts, t, role) <==> WithRole(ts, role) == [t.id]
  {
    var l := WithRole(ts, role);
    WithRoleMembers(ts, role);
    WithRoleDistinct(ts, role);
    if Only(ts, t, role) {
      assert t.id in l && forall id :: id in l ==> id == t.id;
      assert forall i :: 0 <= i < |l| ==> l[i] in l;
      var n := |l| - 1;
      assert n == 0 by { assert l[0] in l && l[n] in l; }
      assert l == [t.id];
    }
    if l == [t.id] {
      assert t.id in l;
      var u :| u in ts && u.Role() == role && u.id == t.id;
      SameId(ts, u, t);
      forall x | x in ts && RoleOf(x) == role ensures x == t {
        assert x.id in l;
        SameId(ts, x, t);
      }
    }
  }

  /** The validator accepts exactly the graphs without a planner and those that are so. */
  lemma AcceptedInWords(v: Verdict, ts: seq<Task>, deps: Graph, roles: set<string>)
    requires IsVerdict(v, ts, deps, roles) && DistinctIds(ts)
    ensures v.Accepted? <==>
            || (forall t :: t in ts ==> RoleOf(t) != "planner")
            || exists p, g :: InWords(ts, deps, roles, p, g)
  {
    AcceptedMeansWellFormed(v, ts, deps, roles);
    if plan, gate :| WellFormed(ts, deps, roles, plan, gate) {
      WithRoleMembers(ts, PLANNER);
      WithRoleMembers(ts, GATE);
      assert plan in WithRole(ts, PLANNER) && gate in WithRole(ts, GATE);
      var p :| p in ts && p.Role() == PLANNER && p.id == plan;
      var g :| g in ts && g.Role() == GATE && g.id == gate;
      OnlyMeans(ts, "planner", p);
      OnlyMeans(ts, "gate", g);
      assert InWords(ts, deps, roles, p, g);
    }
    if p, g :| InWords(ts, deps, roles, p, g) {
      OnlyMeans(ts, "planner", p);
      OnlyMeans(ts, "gate", g);
      assert WellFormed(ts, deps, roles, p.id, g.id);
    }
  }

  predicate KnownRole(t: Task, roles: set<string>) {
    RoleOf(t) in {"planner", "builder", "verifier", "gate", "escalation"} || (RoleOf(t) != "" && RoleOf(t) in roles)
  }

  lemma {:induction false} BadRolesMembers(ts: seq<Task>, roles: set<string>)
    ensures forall id :: id in BadRoles(ts, roles) <==> exists t :: t in ts && t.id == id && !KnownRole(t, roles)
  {
    if ts != [] {
      BadRolesMembers(ts[..|ts| - 1], roles);
      assert ts == ts[..|ts| - 1] + [ts[|ts| - 1]];
    }
  }

  lemma {:induction false} UnreachedMembers(g: Graph, gate: string, ids: seq<string>)
    ensures forall id :: id in Unreached(g, gate, ids) <==> id in ids && !Reaches(g, gate, id)
  {
    if ids != [] {
      UnreachedMembers(g, gate, ids[..|ids| - 1]);
      assert ids == ids[..|ids| - 1] + [ids[|ids| - 1]];
    }
  }

  lemma {:induction false} OrphansMembers(g: Graph, plan: string, ts: seq<Task>)
    ensures forall id :: id in Orphans(g, plan, ts) <==>
              exists t :: t in ts && t.id == id && RoleOf(t) != "escalation" && !Reaches(g, id, plan)
  {
    if ts != [] {
      OrphansMembers(g, plan, ts[..|ts| - 1]);
      assert ts == ts[..|ts| - 1] + [ts[|ts| - 1]];
    }
  }

  /** A rejection names its offenders: all tasks of unknown role; an edge of a cycle; the verifiers the gate misses,
      or the gates; the tasks that do not depend on the planner, or the planners. */
  lemma RejectedInWords(v: Verdict, ts: seq<Task>, deps: Graph, roles: set<string>)
    requires IsVerdict(v, ts, deps, roles) && v.Rejected?
    ensures v.requirement == TG07 ==>
              forall id :: id in v.offenders <==> exists t :: t in ts && t.id == id && !KnownRole(t, roles)
    ensures v.requirement == TG08 ==>
              |v.offenders| == 2 && v.offenders[1] in Succ(Intra(ts, deps), v.offenders[0]) &&
              Reaches(Intra(ts, deps), v.offenders[1], v.offenders[0])
    ensures v.requirement == TG09 ==>
              || (v.offenders == WithRole(ts, "gate") && |v.offenders| != 1)
              || exists gate :: WithRole(ts, "gate") == [gate] && forall id :: id in v.offenders <==>
                   id in WithRole(ts, "verifier") && !Reaches(Intra(ts, deps), gate, id)
    ensures v.requirement == TG10 ==>
              || (v.offenders == WithRole(ts, "planner") && |v.offenders| > 1)
              || exists plan :: WithRole(ts, "planner") == [plan] && forall id :: id in v.offenders <==>
                   exists t :: t in ts && t.id == id && RoleOf(t) != "escalation" && !Reaches(Intra(ts, deps), id, plan)
  {
    var planners, gates, g := WithRole(ts, PLANNER), WithRole(ts, GATE), Intra(ts, deps);
    BadRolesMembers(ts, roles);
    if |gates| == 1 {
      assert gates == [gates[0]];
      UnreachedMembers(g, gates[0], WithRole(ts, VERIFIER));
    }
    if |planners| == 1 {
      assert planners == [planners[0]];
      OrphansMembers(g, planners[0], ts);
    }
  }
}
