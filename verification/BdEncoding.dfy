// How a task is folded into a bd issue and back (orch/ledger_bdcli.go).
module BdEncoding {
  import opened Types
  import opened Ordering
  import opened Readiness

  const LABEL_PREFIX := "orch:"
  const LABEL_FAILED := "orch:failed"

  /** The issue fields that carry a task's status, assignee and labels. */
  datatype Issue = Issue(status: string, assignee: string, labels: seq<string>)

  function BdStatus(s: Status): string {
    match s
    case Open | Assigned => "open"
    case InProgress => "in_progress"
    case Completed | Failed => "closed"
    case Blocked => "blocked"
  }

  /** None stands for the panic on a status bd does not define. */
  function OrchStatus(s: string, labels: seq<string>): Option<Status> {
    if s == "open" then Some(Open)
    else if s == "in_progress" then Some(InProgress)
    else if s == "closed" then Some(if LABEL_FAILED in labels then Failed else Completed)
    else if s == "blocked" || s == "deferred" || s == "pinned" || s == "hooked" then Some(Blocked)
    else None
  }

  predicate CommaFree(t: Task) {
    forall k :: k in t.labels ==> ',' !in k && ',' !in t.labels[k]
  }

  ghost predicate SortedStrings(l: seq<string>) {
    forall i, j :: 0 <= i < j < |l| ==> !StringLess(l[j], l[i])
  }

  function InsertString(l: seq<string>, s: string): (r: seq<string>)
    ensures |r| == |l| + 1
    ensures forall x :: x in r <==> x in l || x == s
  {
    if l == [] || StringLess(s, l[0]) then [s] + l else
      assert l == [l[0]] + l[1..];
      [l[0]] + InsertString(l[1..], s)
  }

  lemma {:induction false} InsertStringSorted(l: seq<string>, s: string)
    requires SortedStrings(l)
    ensures SortedStrings(InsertString(l, s))
  {
    if l != [] {
      StringLessTotal(s, l[0]);
      if StringLess(s, l[0]) {
        var r := [s] + l;
        forall i, j | 0 <= i < j < |r| ensures !StringLess(r[j], r[i]) {
          if i == 0 {
            StringLessTotal(s, l[j - 1]);
            StringLessTotal(l[0], l[j - 1]);
            if j > 1 && StringLess(l[j - 1], s) { StringLessTrans(l[j - 1], s, l[0]); }
          }
        }
      } else {
        InsertStringSorted(l[1..], s);
        var rest := InsertString(l[1..], s);
        forall j | 0 <= j < |rest| ensures !StringLess(rest[j], l[0]) {
          assert rest[j] in rest;
          assert rest[j] == s || rest[j] in l[1..];
        }
      }
    }
  }

  /** `out` is the flat label list of `t`: one entry per label, the failure marker if it failed, sorted. */
  ghost predicate IsEncoding(out: seq<string>, t: Task) {
    && SortedStrings(out)
    && |out| == |t.labels| + (if t.status.Failed? then 1 else 0)
    && forall l :: l in out <==>
         (exists k :: k in t.labels && l == k + ":" + t.labels[k]) || (t.status.Failed? && l == LABEL_FAILED)
  }

  /** `taskLabelsToBd`: refused exactly when a label holds a comma. The map is walked in any order. */
  method TaskLabelsToBd(t: Task) returns (r: Option<seq<string>>)
    ensures r.None? <==> !CommaFree(t)
    ensures r.Some? ==> IsEncoding(r.value, t)
  {
    var out: seq<string> := [];
    var rest := t.labels.Keys;
    while rest != {}
      invariant rest <= t.labels.Keys
      invariant forall k :: k in t.labels && k !in rest ==> ',' !in k && ',' !in t.labels[k]
      invariant SortedStrings(out) && |out| == |t.labels| - |rest|
      invariant forall l :: l in out <==> exists k :: k in t.labels && k !in rest && l == k + ":" + t.labels[k]
      decreases |rest|
    {
      var k :| k in rest;
      if ',' in k || ',' in t.labels[k] { return None; }
      var l := k + ":" + t.labels[k];
      InsertStringSorted(out, l);
      out := InsertString(out, l);
      rest := rest - {k};
    }
    if t.status == Failed {
      InsertStringSorted(out, LABEL_FAILED);
      out := InsertString(out, LABEL_FAILED);
    }
    return Some(out);
  }

  predicate HasPrefix(s: string, p: string) { p <= s }

  /** Later labels overwrite earlier ones; internal and colon-free labels are skipped. */
  function DecodeLabels(ls: seq<string>): map<string, string> {
    if ls == [] then map[] else
      var m := DecodeLabels(ls[..|ls| - 1]);
      var last := ls[|ls| - 1];
      if HasPrefix(last, LABEL_PREFIX) || !Cut(last).2 then m else m[Cut(last).0 := Cut(last).1]
  }

  /** `toTask`: the three decoded fields. */
  method ToTask(i: Issue) returns (r: Option<(Status, string, map<string, string>)>)
    ensures r == Decode(i)
  {
    var status := OrchStatus(i.status, i.labels);
    if status.None? { return None; }
    var s := status.value;
    if s == Open && i.assignee != "" { s := Assigned; }
    var labels := map[];
    for n := 0 to |i.labels|
      invariant labels == DecodeLabels(i.labels[..n])
    {
      assert i.labels[..n + 1][..n] == i.labels[..n];
      var l := i.labels[n];
      if HasPrefix(l, LABEL_PREFIX) { continue; }
      if Cut(l).2 { labels := labels[Cut(l).0 := Cut(l).1]; }
    }
    assert i.labels[..|i.labels|] == i.labels;
    return Some((s, i.assignee, labels));
  }

  function Decode(i: Issue): Option<(Status, string, map<string, string>)> {
    match OrchStatus(i.status, i.labels)
    case None => None
    case Some(s) => Some((if s.Open? && i.assignee != "" then Assigned else s, i.assignee, DecodeLabels(i.labels)))
  }

  /** The tasks the encoding can represent. */
  predicate Representable(t: Task) {
    && (forall k :: k in t.labels ==> ':' !in k && k != "orch")
    && (t.status.Open? ==> t.assignee == "")
    && (t.status.Assigned? ==> t.assignee != "")
  }

  lemma PrefixKey(k: string, v: string)
    requires ':' !in k
    ensures HasPrefix(k + ":" + v, LABEL_PREFIX) <==> k == "orch"
  {
    var s := k + ":" + v;
    assert s[|k|] == ':';
    if HasPrefix(s, LABEL_PREFIX) {
      assert s[..5] == "orch:" && s[4] == ':';
      assert k == s[..4];
    }
    if k == "orch" { assert s[..5] == "orch:"; }
  }

  lemma {:induction false} DecodedKey(ls: seq<string>, k: string)
    ensures k in DecodeLabels(ls) ==>
            exists l :: l in ls && !HasPrefix(l, LABEL_PREFIX) && Cut(l) == (k, DecodeLabels(ls)[k], true)
    ensures (exists l :: l in ls && !HasPrefix(l, LABEL_PREFIX) && Cut(l).2 && Cut(l).0 == k) ==> k in DecodeLabels(ls)
  {
    if ls != [] {
      DecodedKey(ls[..|ls| - 1], k);
      assert ls == ls[..|ls| - 1] + [ls[|ls| - 1]];
    }
  }

  lemma UnrepresentableKeyIsLost(ls: seq<string>, k: string)
    requires ':' in k || k == "orch"
    ensures k !in DecodeLabels(ls)
  {
    DecodedKey(ls, k);
    if k in DecodeLabels(ls) {
      var l :| l in ls && !HasPrefix(l, LABEL_PREFIX) && Cut(l) == (k, DecodeLabels(ls)[k], true);
      PrefixKey(k, Cut(l).1);
    }
  }

  lemma DecodedLabels(out: seq<string>, t: Task)
    requires IsEncoding(out, t)
    requires forall k :: k in t.labels ==> ':' !in k && k != "orch"
    ensures DecodeLabels(out) == t.labels
    ensures LABEL_FAILED in out <==> t.status.Failed?
  {
    var m := DecodeLabels(out);
    forall k ensures k in m ==> k in t.labels && m[k] == t.labels[k] {
      DecodedKey(out, k);
      if k in m {
        var l :| l in out && !HasPrefix(l, LABEL_PREFIX) && Cut(l) == (k, m[k], true);
        var k' :| k' in t.labels && l == k' + ":" + t.labels[k'];
        CutJoin(k', t.labels[k']);
      }
    }
    forall k | k in t.labels ensures k in m {
      var l := k + ":" + t.labels[k];
      assert l in out;
      CutJoin(k, t.labels[k]);
      PrefixKey(k, t.labels[k]);
      DecodedKey(out, k);
    }
    if LABEL_FAILED in out && !t.status.Failed? {
      var k :| k in t.labels && LABEL_FAILED == k + ":" + t.labels[k];
      PrefixKey(k, t.labels[k]);
    }
  }

  /** Writing a task to bd and reading it back gives the same status, assignee and labels
      exactly when the task is representable. */
  lemma RoundTrip(t: Task, out: seq<string>)
    requires IsEncoding(out, t)
    ensures Decode(Issue(BdStatus(t.status), t.assignee, out)) == Some((t.status, t.assignee, t.labels)) <==>
              Representable(t)
  {
    if forall k :: k in t.labels ==> ':' !in k && k != "orch" {
      DecodedLabels(out, t);
    } else {
      var k :| k in t.labels && (':' in k || k == "orch");
      UnrepresentableKeyIsLost(out, k);
    }
  }

  /** The work-order hash label does not survive a round trip. */
  lemma WorkOrderHashIsLost(t: Task, out: seq<string>)
    requires IsEncoding(out, t) && LABEL_WORK_ORDER_HASH in t.labels
    ensures LABEL_WORK_ORDER_HASH !in DecodeLabels(out)
  {
    assert LABEL_WORK_ORDER_HASH[5] == ':';
    UnrepresentableKeyIsLost(out, LABEL_WORK_ORDER_HASH);
  }
}
