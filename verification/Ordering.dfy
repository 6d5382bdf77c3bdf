// The canonical task order (orch/ledger.go): priority, then id.
module Ordering {
  import opened Types

  /** Lexicographic order on identifiers. */
  predicate StringLess(a: string, b: string) {
    b != [] && (a == [] || a[0] < b[0] || (a[0] == b[0] && StringLess(a[1..], b[1..])))
  }

  lemma {:induction false} StringLessTotal(a: string, b: string)
    ensures a == b || StringLess(a, b) || StringLess(b, a)
    ensures !(StringLess(a, b) && StringLess(b, a))
    ensures !StringLess(a, a)
  {
    if a != [] { StringLessTotal(a[1..], a[1..]); }
    if a != [] && b != [] && a[0] == b[0] {
      StringLessTotal(a[1..], b[1..]);
      assert a == [a[0]] + a[1..] && b == [b[0]] + b[1..];
    }
  }

  lemma {:induction false} StringLessTrans(a: string, b: string, c: string)
    requires StringLess(a, b) && StringLess(b, c)
    ensures StringLess(a, c)
  {
    if a != [] && a[0] == b[0] && b[0] == c[0] { StringLessTrans(a[1..], b[1..], c[1..]); }
  }

  predicate TaskLess(a: Task, b: Task) {
    if a.priority != b.priority then a.priority < b.priority else StringLess(a.id, b.id)
  }

  lemma TaskLessTrans(a: Task, b: Task, c: Task)
    requires TaskLess(a, b) && TaskLess(b, c)
    ensures TaskLess(a, c)
  {
    if a.priority == b.priority == c.priority { StringLessTrans(a.id, b.id, c.id); }
  }

  lemma TaskLessTotal(a: Task, b: Task)
    ensures !(TaskLess(a, b) && TaskLess(b, a))
    ensures a.id != b.id ==> TaskLess(a, b) || TaskLess(b, a)
    ensures !TaskLess(a, a)
  {
    StringLessTotal(a.id, b.id);
    StringLessTotal(a.id, a.id);
  }

  ghost predicate Sorted(ts: seq<Task>) {
    forall i, j :: 0 <= i < j < |ts| ==> TaskLess(ts[i], ts[j])
  }

  ghost predicate DistinctTasks(s: set<Task>) {
    forall a, b :: a in s && b in s && a.id == b.id ==> a == b
  }

  /** `l` is the tasks of `s` in the canonical order. */
  ghost predicate IsListing(l: seq<Task>, s: set<Task>) {
    Sorted(l) && forall t :: t in l <==> t in s
  }

  // ----- what the order means -----

  /** Smaller as a string: a proper prefix, or smaller at the first character that differs. */
  ghost predicate Smaller(a: string, b: string) { exists n: nat :: SmallerAt(a, b, n) }

  predicate SmallerAt(a: string, b: string, n: nat) {
    && n <= |a| && n < |b| && a[..n] == b[..n]
    && (n == |a| || a[n] < b[n])
  }

  lemma {:induction false} StringLessMeans(a: string, b: string)
    ensures StringLess(a, b) <==> Smaller(a, b)
  {
    if a != [] && b != [] {
      StringLessMeans(a[1..], b[1..]);
      assert a == [a[0]] + a[1..] && b == [b[0]] + b[1..];
      if a[0] == b[0] && Smaller(a[1..], b[1..]) {
        var n: nat :| SmallerAt(a[1..], b[1..], n);
        assert a[..n + 1] == [a[0]] + a[1..][..n] && b[..n + 1] == [b[0]] + b[1..][..n];
        assert SmallerAt(a, b, n + 1);
      }
      if Smaller(a, b) {
        var n: nat :| SmallerAt(a, b, n);
        if n > 0 {
          assert a[0] == a[..n][0] && b[0] == b[..n][0];
          assert a[1..][..n - 1] == a[..n][1..] && b[1..][..n - 1] == b[..n][1..];
          assert SmallerAt(a[1..], b[1..], n - 1);
        }
      }
      if a[0] < b[0] { assert SmallerAt(a, b, 0); }
    } else if b != [] {
      assert SmallerAt(a, b, 0);
    }
  }

  /** Lower priority numbers first, and among equals the smaller id. */
  ghost predicate MostUrgentFirst(ts: seq<Task>) {
    forall i, j :: 0 <= i < j < |ts| ==>
      ts[i].priority < ts[j].priority || (ts[i].priority == ts[j].priority && Smaller(ts[i].id, ts[j].id))
  }

  lemma SortedMeans(ts: seq<Task>)
    ensures Sorted(ts) <==> MostUrgentFirst(ts)
  {
    forall i, j | 0 <= i < j < |ts|
      ensures TaskLess(ts[i], ts[j]) <==>
              ts[i].priority < ts[j].priority || (ts[i].priority == ts[j].priority && Smaller(ts[i].id, ts[j].id))
    {
      StringLessMeans(ts[i].id, ts[j].id);
    }
  }

  /** However a set of tasks was enumerated, its sorted listing is the same. */
  lemma {:induction false} ListingUnique(a: seq<Task>, b: seq<Task>, s: set<Task>)
    requires IsListing(a, s) && IsListing(b, s)
    ensures a == b
    decreases |a|
  {
    assert a != [] ==> a[0] in b;
    assert b != [] ==> b[0] in a;
    if a != [] {
      if a[0] != b[0] {
        TaskLessTotal(a[0], b[0]);
      } else {
        var rest := s - {a[0]};
        DropFirst(a, s);
        DropFirst(b, s);
        ListingUnique(a[1..], b[1..], rest);
        assert a == [a[0]] + a[1..] && b == [b[0]] + b[1..];
      }
    }
  }

  lemma DropFirst(a: seq<Task>, s: set<Task>)
    requires IsListing(a, s) && a != []
    ensures IsListing(a[1..], s - {a[0]})
  {
    TaskLessTotal(a[0], a[0]);
    forall t ensures t in a[1..] <==> t in s - {a[0]} {
      if t in a && t != a[0] {
        var i :| 0 <= i < |a| && a[i] == t;
        assert t == a[1..][i - 1];
      }
      if t in a[1..] {
        var i :| 0 <= i < |a| - 1 && a[1..][i] == t;
        assert TaskLess(a[0], a[i + 1]);
      }
    }
  }

  function Insert(l: seq<Task>, t: Task): (r: seq<Task>)
    ensures forall u :: u in r <==> u in l || u == t
    ensures |r| == |l| + 1
  {
    if l == [] || TaskLess(t, l[0]) then [t] + l else
      assert l == [l[0]] + l[1..];
      [l[0]] + Insert(l[1..], t)
  }

  lemma {:induction false} InsertSorted(l: seq<Task>, t: Task)
    requires Sorted(l) && forall u :: u in l ==> u.id != t.id
    ensures Sorted(Insert(l, t))
  {
    if l == [] {
    } else if TaskLess(t, l[0]) {
      var r := [t] + l;
      forall i, j | 0 <= i < j < |r| ensures TaskLess(r[i], r[j]) {
        if i == 0 && j > 1 { TaskLessTrans(t, l[0], l[j - 1]); }
      }
    } else {
      TaskLessTotal(t, l[0]);
      InsertSorted(l[1..], t);
      var rest := Insert(l[1..], t);
      forall j | 0 <= j < |rest| ensures TaskLess(l[0], rest[j]) {
        assert rest[j] in rest;
        assert rest[j] == t || rest[j] in l[1..];
      }
    }
  }

  /** `sortTasks` (orch/ledger.go). */
  function SortTasks(ts: seq<Task>): (r: seq<Task>)
    ensures forall t :: t in r <==> t in ts
    ensures |r| == |ts|
  {
    if ts == [] then [] else
      assert ts == ts[..|ts| - 1] + [ts[|ts| - 1]];
      Insert(SortTasks(ts[..|ts| - 1]), ts[|ts| - 1])
  }

  lemma {:induction false} SortTasksSorted(ts: seq<Task>)
    requires forall i, j :: 0 <= i < j < |ts| ==> ts[i].id != ts[j].id
    ensures Sorted(SortTasks(ts)) && MostUrgentFirst(SortTasks(ts))
  {
    if ts != [] {
      var init := ts[..|ts| - 1];
      SortTasksSorted(init);
      forall u | u in SortTasks(init) ensures u.id != ts[|ts| - 1].id {
        assert u in init;
        var i :| 0 <= i < |init| && init[i] == u;
      }
      InsertSorted(SortTasks(init), ts[|ts| - 1]);
    }
    SortedMeans(SortTasks(ts));
  }

  lemma {:induction false} ListingExists(s: set<Task>) returns (l: seq<Task>)
    requires DistinctTasks(s)
    ensures IsListing(l, s)
  {
    if s == {} {
      l := [];
    } else {
      var t :| t in s;
      var rest := ListingExists(s - {t});
      InsertSorted(rest, t);
      l := Insert(rest, t);
    }
  }

  /** The unique sorted listing of a set of tasks with distinct ids. */
  ghost function Listing(s: set<Task>): (l: seq<Task>)
    requires DistinctTasks(s)
    ensures IsListing(l, s)
  {
    ListingWitness(s);
    var l :| IsListing(l, s); l
  }

  lemma ListingWitness(s: set<Task>)
    requires DistinctTasks(s)
    ensures exists l :: IsListing(l, s)
  {
    var l := ListingExists(s);
  }
}
