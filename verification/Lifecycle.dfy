// src/domain/lifecycle.rs: the states of a registered service and the direct moves between them.
module Lifecycle {
  import opened Wrappers

  datatype LifecycleState = Stopped | Starting | Running | Stopping | TerminationPending | Unhealthy | Failed

  datatype TransitionError = TransitionError(previous: LifecycleState, requested: LifecycleState)

  predicate CanTransitionTo(state: LifecycleState, next: LifecycleState) {
    match state
    case Stopped => next == Starting
    case Failed => next in {Starting, Stopped, Stopping}
    case Starting => next in {Running, Unhealthy, Failed, Stopping}
    case Running => next in {Stopping, Unhealthy, Failed}
    case Unhealthy => next in {Running, Stopping, Failed}
    case Stopping => next in {Stopped, TerminationPending, Failed}
    case TerminationPending => next in {Stopping, Stopped, Failed}
  }

  function TransitionTo(state: LifecycleState, next: LifecycleState): Result<LifecycleState, TransitionError> {
    if CanTransitionTo(state, next) then Success(next) else Failure(TransitionError(state, next))
  }

  // Every step along the path is a direct move.
  ghost predicate LegalPath(path: seq<LifecycleState>) {
    forall i :: 0 <= i < |path| - 1 ==> CanTransitionTo(path[i], path[i + 1])
  }

  lemma {:induction false} LegalPathSnoc(path: seq<LifecycleState>, next: LifecycleState)
    requires LegalPath(path) && (path != [] ==> CanTransitionTo(path[|path| - 1], next))
    ensures LegalPath(path + [next])
  {}
}
