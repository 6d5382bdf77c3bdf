// Tasks, workers and roles (orch/types.go).
module Types {

  /** The six task states; the last three are terminal. */
  datatype Status = Open | Assigned | InProgress | Completed | Failed | Blocked {
    predicate Terminal() { Completed? || Failed? || Blocked? }
  }

  const LABEL_ROLE := "role"
  const LABEL_BRANCH := "branch"
  const LABEL_CRITICALITY := "criticality"
  const LABEL_WORK_ORDER_HASH := "wonka:work-order-hash"

  const PLANNER := "planner"
  const BUILDER := "builder"
  const VERIFIER := "verifier"
  const GATE := "gate"
  const ESCALATION := "escalation"

  /** One of the closed set of role values. The empty role is not one of them. */
  predicate ValidRole(role: string) {
    role == PLANNER || role == BUILDER || role == VERIFIER || role == GATE || role == ESCALATION
  }

  /** A Go map read: a missing key gives the empty string. */
  function Lookup(labels: map<string, string>, key: string): string {
    if key in labels then labels[key] else ""
  }

  /** A ledger task. Title, body and timestamps steer nothing and are not modelled. */
  datatype Task = Task(id: string, status: Status, assignee: string, priority: int, labels: map<string, string>) {
    function Role(): string { Lookup(labels, LABEL_ROLE) }
    function Branch(): string { Lookup(labels, LABEL_BRANCH) }
    predicate IsCritical() { Lookup(labels, LABEL_CRITICALITY) == "critical" }
  }

  /** A worker slot; `current` is the task it holds, or empty. */
  datatype Worker = Worker(name: string, active: bool, current: string)

  datatype Option<+T> = None | Some(value: T)
}
