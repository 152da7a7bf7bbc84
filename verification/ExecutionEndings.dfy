/**
 * How an admitted execution ends for the scheduler: the outcome of the workflow executor, seen through the
 * heartbeat and the release of the claim (packages/orchestrator/src/task-execution-coordinator.ts, executeAdmitted).
 */
module ExecutionEndings {
  import opened Options
  import opened TaskStates
  import E = WorkflowExecutor
  import S = UnattendedScheduler
  import Q = IntegrationQueue

  /** What surrounds the executor: whether each part works, and what its store calls answer; None is a throw. */
  datatype Surroundings = Surroundings(
    starts: bool, healthy: bool, released: Option<bool>, openEntry: bool, persists: bool, entryId: string, request: Q.Request)

  function EndingOf(outcome: E.Outcome, x: Surroundings): S.Ending
    requires !outcome.Threw?
  {
    match outcome
    case Rejected => S.Rejected
    case Completed(_) => S.Completed
    case PendingIntegration => S.Pending(x.entryId, x.request)
    case FailedRun => S.FailedRun
    case CancelledRun => S.CancelledRun
    case BlockedRun => S.BlockedRun
  }

  /** The outcome of the executor leaves the task in the status of the ending. */
  lemma OutcomeHasItsEnding(outcome: E.Outcome, status: TaskStatus, x: Surroundings)
    requires E.OutcomeFits(Ready, outcome, status) && !outcome.Threw?
    ensures S.StatusAfter(EndingOf(outcome, x)) == status && !S.NeedsRecovery(EndingOf(outcome, x))
  {
  }

  /**
   * executeAdmitted: the status of the task afterwards is that of the ending, whatever executor, heartbeat
   * and store do. An ending with progress that needs no recovery has left READY, and a completed one is DONE
   * with all gates passed.
   */
  method ExecuteAdmitted(executor: E.Executor, x: Surroundings) returns (ending: S.Ending, status: TaskStatus)
    requires executor.Valid() && executor.status == Ready && executor.runs == [] && executor.events == []
    modifies executor
    ensures status == S.StatusAfter(ending)
    ensures S.IsProgress(ending) && !S.NeedsRecovery(ending) ==> status != Ready
    ensures ending.Completed? ==> status == Done && executor.GatesPassed()
    ensures ending.Pending? ==> status == Integrating && executor.GatesPassed()
    ensures ending.Rejected? ==> status == Ready && executor.history == old(executor.history)
  {
    hide executor.GatesPassed, executor.Valid, E.Executable, E.Continues;
    if !x.starts {
      ending, status := HandleUnexpectedFailure(executor.status, x);
    } else {
      var outcome := executor.Execute();
      status := executor.status;
      var settled := if outcome.PendingIntegration? || IsActive(status) then Some(true) else x.released;
      if !x.healthy {
        ending := S.LeaseLost(status);
      } else if outcome.Threw? || settled.None? {
        ending, status := HandleUnexpectedFailure(status, x);
      } else if !settled.value {
        ending := S.LeaseLost(status);
      } else {
        OutcomeHasItsEnding(outcome, status, x);
        ending := EndingOf(outcome, x);
      }
    }
    S.EndingsLeaveReady(ending);
  }

  /** The failure transaction for a task that has come this far. */
  method HandleUnexpectedFailure(reached: TaskStatus, x: Surroundings) returns (ending: S.Ending, status: TaskStatus)
    ensures ending.Errored? && status == S.StatusAfter(ending)
  {
    var target := if IsActive(reached) then NeedsHuman else Failed;
    status := if x.openEntry || !x.persists || reached == Done then reached else target;
    ending := S.Errored(reached, x.openEntry, x.persists);
  }
}
