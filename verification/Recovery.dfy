// The in-memory counters (orch/recovery.go).
module Recovery {
  import opened Machine

  /** Attempts per task; only the dispatcher writes them. */
  class RetryState {
    var attempts: map<string, nat>

    constructor ()
      ensures attempts == map[]
    {
      attempts := map[];
    }

    method CanRetry(id: string, maxRetries: int) returns (r: bool)
      ensures r <==> Count(attempts, id) < maxRetries
    {
      r := Count(attempts, id) < maxRetries;
    }

    method RecordAttempt(id: string)
      modifies this
      ensures attempts == Bump(old(attempts), id)
    {
      attempts := Bump(attempts, id);
    }

    method SetCounts(counts: map<string, nat>)
      modifies this
      ensures attempts == counts
    {
      attempts := counts;
    }

    method ResetTask(id: string)
      modifies this
      ensures Count(attempts, id) == 0 && forall x :: x != id ==> Count(attempts, x) == Count(old(attempts), x)
    {
      attempts := attempts - {id};
    }
  }

  /** The gap count and the tasks behind it. */
  class GapTracker {
    var gaps: nat
    const tolerance: int
    var taskIds: seq<string>

    ghost predicate Valid() reads this { gaps == |taskIds| }

    constructor (tolerance: int)
      ensures Valid() && taskIds == [] && this.tolerance == tolerance
    {
      this.tolerance, gaps, taskIds := tolerance, 0, [];
    }

    method IncrementAndCheck(id: string) returns (abort: bool)
      requires Valid()
      modifies this
      ensures Valid() && taskIds == old(taskIds) + [id]
      ensures abort <==> |taskIds| >= tolerance
    {
      gaps := gaps + 1;
      taskIds := taskIds + [id];
      abort := gaps >= tolerance;
    }

    method SetGaps(ids: seq<string>)
      modifies this
      ensures Valid() && taskIds == ids
    {
      taskIds := ids;
      gaps := |ids|;
    }
  }

  /** Handoffs per task, shared by dispatcher and watchdog; check and increment are one call. */
  class HandoffState {
    var counts: map<string, nat>
    const maxLimit: int

    constructor (maxHandoffs: int)
      ensures counts == map[] && maxLimit == maxHandoffs
    {
      counts, maxLimit := map[], maxHandoffs;
    }

    method TryRecord(id: string) returns (count: nat, ok: bool)
      modifies this
      ensures ok <==> Count(old(counts), id) < maxLimit
      ensures counts == if ok then Bump(old(counts), id) else old(counts)
      ensures count == Count(counts, id)
      ensures Count(old(counts), id) <= maxLimit ==> count <= maxLimit
    {
      if Count(counts, id) >= maxLimit { return Count(counts, id), false; }
      counts := Bump(counts, id);
      return Count(counts, id), true;
    }

    method SetCounts(c: map<string, nat>)
      modifies this
      ensures counts == c
    {
      counts := c;
    }

    method Reset(id: string)
      modifies this
      ensures Count(counts, id) == 0 && forall x :: x != id ==> Count(counts, x) == Count(old(counts), x)
    {
      counts := counts - {id};
    }
  }
}
