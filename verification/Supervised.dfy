// Runs of the dispatcher with a watchdog attached, turn by turn: what can become of a task nobody waits for.
module Supervised {
  import opened Types
  import opened Machine
  import opened Effects
  import opened Safety
  import opened Orphans
  import opened Resume
  import opened Supervision

  /** A step of the dispatcher, a check cycle of the watchdog, or the dispatcher's answer to one. */
  datatype Turn =
    | Acts(action: Action)
    | Checks(window: int, watchIo: string -> WatchIo)
    | FailsStuck(stuckIo: string -> OutcomeIo)
    | ChecksOrphans(orphanIo: string -> OutcomeIo)

  ghost predicate CanTake(cfg: Config, v: Watch, turn: Turn) { turn.Acts? ==> Enabled(cfg, v.s, turn.action) }

  ghost function Take(cfg: Config, v: Watch, turn: Turn): Watch
    requires CanTake(cfg, v, turn)
  {
    match turn
    case Acts(a) => v.(s := Step(cfg, v.s, a))
    case Checks(window, io) => CheckAll(cfg, window, v, Roster(v.s.disk), io)
    case FailsStuck(io) => v.(s := FailStuck(cfg, v.s, v.stuck, io).0, stuck := [])
    case ChecksOrphans(io) => v.(s := OrphanCheck(cfg, v.s, Roster(v.s.disk), io).0)
  }

  ghost predicate IsSupervisedRun(cfg: Config, vs: seq<Watch>, turns: seq<Turn>) {
    && |vs| == |turns| + 1
    && forall i :: 0 <= i < |turns| ==> CanTake(cfg, vs[i], turns[i]) && vs[i + 1] == Take(cfg, vs[i], turns[i])
  }

  /** The record is `t`, in progress or failed, and no agent is out for it. */
  ghost predicate Doomed(s: State, t: Task) {
    && Keyed(s.disk) && t.id in s.disk.tasks
    && (s.disk.tasks[t.id] == t.(status := InProgress) || s.disk.tasks[t.id] == t.(status := Failed))
    && forall k :: k in s.inflight ==> s.inflight[k].task.id != t.id
  }

  /** Failed for good. */
  ghost predicate Lost(s: State, t: Task) { Doomed(s, t) && s.disk.tasks[t.id].status.Failed? }

  ghost predicate StaysDoomed(s: State, s': State, t: Task) { Doomed(s', t) && (Lost(s, t) ==> Lost(s', t)) }

  lemma DoomedTouched(s: State, s': State, t: Task, id: string, w: Option<Task>)
    requires Doomed(s, t) && Touched(s.disk, s'.disk, id, w) && id != t.id
    requires forall k :: k in s'.inflight ==> s'.inflight[k].task.id != t.id
    ensures StaysDoomed(s, s', t)
  {
    assert !s.disk.tasks[t.id].status.Open?;
  }

  lemma DoomedOutcome(cfg: Config, s: State, t: Task, k: nat, code: int, io: OutcomeIo)
    requires Doomed(s, t) && k in s.inflight
    ensures StaysDoomed(s, Step(cfg, s, Outcome(k, code, io)), t)
  {
    var f, s' := s.inflight[k], Step(cfg, s, Outcome(k, code, io));
    OutcomeTouches(cfg, Taken(s, k), f, code, io);
    assert forall j :: j in s'.inflight ==> s'.inflight[j] == f || (j in s.inflight && s'.inflight[j] == s.inflight[j]);
    DoomedTouched(s, s', t, f.task.id, OwnWrite(cfg, Taken(s, k), f, code, io));
  }

  lemma DoomedDispatch(cfg: Config, s: State, s': State, t: Task, id: string, w: string, launched: bool, released: bool)
    requires Doomed(s, t) && DispatchEnabled(s, id) && DispatchFate(cfg, s, id, s', w, launched, released)
    ensures StaysDoomed(s, s', t)
  {
    assert id != t.id;
  }

  lemma DoomedAct(cfg: Config, s: State, t: Task, a: Action)
    requires Doomed(s, t) && Enabled(cfg, s, a)
    ensures StaysDoomed(s, Step(cfg, s, a), t)
  {
    match a
    case SessionEnds(_) =>
    case Outcome(k, code, io) => DoomedOutcome(cfg, s, t, k, code, io);
    case Dispatch(id, io) =>
      var w, launched := DispatchEffect(cfg, s, id, io);
      DoomedDispatch(cfg, s, Step(cfg, s, a), t, id, w, launched, io.release.Released?);
  }

  lemma DoomedOrphan(cfg: Config, s: State, t: Task, id: string, w: string, io: OutcomeIo)
    requires Doomed(s, t)
    ensures StaysDoomed(s, FailOrphan(cfg, s, id, w, io).0, t)
  {
    FailOrphanTouches(cfg, s, id, w, io);
    var (s', failed) := FailOrphan(cfg, s, id, w, io);
    if id != t.id {
      DoomedTouched(s, s', t, id, if failed then Some(s.disk.tasks[id].(status := Failed)) else None);
    }
  }

  lemma {:induction false} DoomedStuck(cfg: Config, s: State, t: Task, stuck: seq<Stuck>, io: string -> OutcomeIo)
    requires Doomed(s, t)
    ensures StaysDoomed(s, FailStuck(cfg, s, stuck, io).0, t)
    decreases |stuck|
  {
    if stuck != [] {
      var e := stuck[0];
      DoomedOrphan(cfg, s, t, e.task, e.worker, io(e.task));
      DoomedStuck(cfg, FailOrphan(cfg, s, e.task, e.worker, io(e.task)).0, t, stuck[1..], io);
    }
  }

  lemma {:induction false} DoomedOrphans(cfg: Config, s: State, t: Task, l: seq<Worker>, io: string -> OutcomeIo)
    requires Doomed(s, t)
    ensures StaysDoomed(s, OrphanCheck(cfg, s, l, io).0, t)
    decreases |l|
  {
    if l != [] {
      if !l[0].active || l[0].current == "" {
        DoomedOrphans(cfg, s, t, l[1..], io);
      } else {
        DoomedOrphan(cfg, s, t, l[0].current, l[0].name, io(l[0].current));
        DoomedOrphans(cfg, FailOrphan(cfg, s, l[0].current, l[0].name, io(l[0].current)).0, t, l[1..], io);
      }
    }
  }

  lemma DoomedTurn(cfg: Config, v: Watch, t: Task, turn: Turn)
    requires Doomed(v.s, t) && CanTake(cfg, v, turn)
    ensures StaysDoomed(v.s, Take(cfg, v, turn).s, t)
  {
    match turn
    case Acts(a) => DoomedAct(cfg, v.s, t, a);
    case Checks(window, io) => WatchdogNeverSettles(cfg, window, v, Roster(v.s.disk), io);
    case FailsStuck(io) => DoomedStuck(cfg, v.s, t, v.stuck, io);
    case ChecksOrphans(io) => DoomedOrphans(cfg, v.s, t, Roster(v.s.disk), io);
  }

  /** Records stay filed under their own names. */
  lemma TurnKeyed(cfg: Config, v: Watch, turn: Turn)
    requires Keyed(v.s.disk) && CanTake(cfg, v, turn)
    ensures Keyed(Take(cfg, v, turn).s.disk)
  {
    match turn
    case Acts(a) => ActKeyed(cfg, v.s, a);
    case Checks(window, io) => WatchdogNeverSettles(cfg, window, v, Roster(v.s.disk), io);
    case FailsStuck(io) => StuckKeyed(cfg, v.s, v.stuck, io);
    case ChecksOrphans(io) => OneOrphanPerTick(cfg, v.s, Roster(v.s.disk), io, "", "");
  }

  lemma ActKeyed(cfg: Config, s: State, a: Action)
    requires Keyed(s.disk) && Enabled(cfg, s, a)
    ensures Keyed(Step(cfg, s, a).disk)
  {
    match a
    case SessionEnds(_) =>
    case Outcome(k, code, io) => OutcomeTouches(cfg, Taken(s, k), s.inflight[k], code, io);
    case Dispatch(id, io) => var w, launched := DispatchEffect(cfg, s, id, io);
  }

  lemma {:induction false} StuckKeyed(cfg: Config, s: State, stuck: seq<Stuck>, io: string -> OutcomeIo)
    requires Keyed(s.disk)
    ensures Keyed(FailStuck(cfg, s, stuck, io).0.disk)
    decreases |stuck|
  {
    if stuck != [] {
      FailOrphanTouches(cfg, s, stuck[0].task, stuck[0].worker, io(stuck[0].task));
      StuckKeyed(cfg, FailOrphan(cfg, s, stuck[0].task, stuck[0].worker, io(stuck[0].task)).0, stuck[1..], io);
    }
  }

  lemma DoomedNext(cfg: Config, vs: seq<Watch>, turns: seq<Turn>, i: nat, t: Task)
    requires IsSupervisedRun(cfg, vs, turns) && i < |turns| && Doomed(vs[i].s, t)
    ensures StaysDoomed(vs[i].s, vs[i + 1].s, t)
  {
    DoomedTurn(cfg, vs[i], t, turns[i]);
  }

  /** A task nobody waits for, handed off outside test mode or live when the run was resumed, can only ever
      become failed: the watchdog keeps its session running, but no turn of either writer completes, blocks or
      re-queues it, and once failed it stays failed. */
  lemma {:induction false} UnattendedOnlyFails(cfg: Config, vs: seq<Watch>, turns: seq<Turn>, i: nat, j: nat,
                                               id: string)
    requires IsSupervisedRun(cfg, vs, turns) && i <= j < |vs| && Keyed(vs[i].s.disk) && Unattended(vs[i].s, id)
    ensures Doomed(vs[j].s, vs[i].s.disk.tasks[id])
    ensures forall h :: i <= h <= j && Lost(vs[h].s, vs[i].s.disk.tasks[id]) ==> Lost(vs[j].s, vs[i].s.disk.tasks[id])
    decreases j
  {
    if i < j {
      UnattendedOnlyFails(cfg, vs, turns, i, j - 1, id);
      DoomedNext(cfg, vs, turns, j - 1, vs[i].s.disk.tasks[id]);
    }
  }

  /** Whatever is in progress when a run is resumed is unattended. */
  lemma ResumedIsUnattended(cfg: Config, d: Disk, mem: Memory, started: map<string, nat>, id: string)
    requires var r := Reconciled(cfg.branch, d, {}); id in r.tasks && r.tasks[id].status.InProgress?
    ensures Unattended(State(Reconciled(cfg.branch, d, {}), mem, map[], 0, [], started), id)
  {
  }
}
