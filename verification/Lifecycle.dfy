/** The scan statuses and the rules both halves of the system share about them. */
module Lifecycle {
  datatype Status =
    | QUEUED
    | RUNNING
    | PAUSED
    | COMPLETED
    | FAILED
    | CANCELLED
    | ABORTED_SAFETY

  datatype Action = Pause | Resume | Cancel

  predicate IsTerminal(s: Status) {
    s in {COMPLETED, FAILED, CANCELLED, ABORTED_SAFETY}
  }

  /** A scan in one of these statuses holds an organisation slot and its target's only slot. */
  predicate OccupiesQuota(s: Status) {
    s in {QUEUED, RUNNING, PAUSED}
  }

  /** The published transition table. */
  function Transitions(from: Status): set<Status> {
    match from
    case QUEUED => {RUNNING, CANCELLED, FAILED}
    case RUNNING => {PAUSED, COMPLETED, FAILED, CANCELLED, ABORTED_SAFETY}
    case PAUSED => {RUNNING, CANCELLED, FAILED}
    case COMPLETED => {}
    case FAILED => {}
    case CANCELLED => {}
    case ABORTED_SAFETY => {}
  }

  predicate CanTransition(from: Status, to: Status) {
    to in Transitions(from)
  }

  predicate CanPause(s: Status) { s == RUNNING }

  predicate CanResume(s: Status) { s == PAUSED }

  predicate CanCancel(s: Status) { !IsTerminal(s) }

  /** Which status an action asks for, and from which statuses it may be asked. */
  function Destination(action: Action): Status {
    match action
    case Pause => PAUSED
    case Resume => RUNNING
    case Cancel => CANCELLED
  }

  predicate PlanAllowed(action: Action, seen: Status) {
    match action
    case Pause => CanPause(seen)
    case Resume => CanResume(seen)
    case Cancel => CanCancel(seen)
  }

  /**
   * The three tables agree: a status is terminal exactly when it holds no quota
   * and exactly when the transition table leaves it nowhere to go, and a control
   * is planned only along an edge of that table.
   */
  lemma TablesAgree(s: Status, action: Action)
    ensures IsTerminal(s) <==> !OccupiesQuota(s)
    ensures IsTerminal(s) <==> forall t :: !CanTransition(s, t)
    ensures PlanAllowed(action, s) ==> CanTransition(s, Destination(action))
  {
    if !IsTerminal(s) {
      assert CanTransition(s, CANCELLED);
    }
  }
}
