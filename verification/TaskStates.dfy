/** Task statuses and their legal moves (packages/core/src/domain/task-state-machine.ts). */
module TaskStates {
  datatype TaskStatus =
    | Backlog | Ready | Planning | PlanReview | Implementing | CodeReview | Verifying | Integrating
    | Done | Blocked | NeedsHuman | Failed | Cancelled

  function Transitions(from: TaskStatus): set<TaskStatus> {
    match from
    case Ready => {Planning, Implementing, Blocked, Failed, Cancelled}
    case Planning => {PlanReview, Implementing, Blocked, Failed, Cancelled}
    case PlanReview => {Planning, Implementing, Blocked, Failed, Cancelled}
    case Implementing => {CodeReview, Verifying, Blocked, Failed, Cancelled}
    case CodeReview => {Implementing, Verifying, Blocked, Failed, Cancelled}
    case Verifying => {Integrating, Blocked, Failed, Cancelled}
    case Integrating => {Done, Blocked, Failed, Cancelled}
    case Blocked => {Ready}
    case NeedsHuman => {Ready}
    case Failed => {Ready}
    case Backlog => {}
    case Done => {}
    case Cancelled => {}
  }

  /** The statuses in which a task occupies an execution slot. */
  predicate IsActive(s: TaskStatus) {
    s in {Planning, PlanReview, Implementing, CodeReview, Verifying, Integrating}
  }

  function RecoveryTransitions(from: TaskStatus): set<TaskStatus> {
    if IsActive(from) then {NeedsHuman} else if from == Failed then {Done} else {}
  }

  predicate CanTransition(from: TaskStatus, to: TaskStatus) {
    to in Transitions(from)
  }

  predicate CanReconcile(from: TaskStatus, to: TaskStatus) {
    CanTransition(from, to) || to in RecoveryTransitions(from)
  }
}
