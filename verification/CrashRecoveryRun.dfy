/** The recovery object, step by step: every branch it takes and every status it sets (packages/orchestrator/src/crash-recovery.ts). */
module CrashRecoveryRun {
  import opened Options
  import opened TaskStates
  import opened CrashRecovery
  import opened RecoveryOwnership

  class SequentialCrashRecovery {
    const answers: Facts
    var status: Option<TaskStatus>
    var attempts: seq<Attempt>
    var events: seq<Event>
    var head: string
    var recoveryOwner: Option<string>
    /** How many more transactions will find the owner current. */
    var remaining: Option<nat>
    /** The state in which the ownership check refused a transaction for the first time. */
    ghost var refusedAt: Option<State>

    constructor (answers: Facts, s: State)
      ensures this.answers == answers && Contents() == s && recoveryOwner == None && Valid()
    {
      this.answers := answers;
      status, attempts, events, head := s.status, s.attempts, s.events, s.head;
      recoveryOwner, remaining, refusedAt := None, None, None;
    }

    /** Without an owner nothing is refused, and after the first refusal nothing is written. */
    ghost predicate Valid()
      reads this
    {
      && (recoveryOwner.None? ==> remaining.None?)
      && (refusedAt.Some? ==> remaining == Some(0) && SameStore(Contents(), refusedAt.value))
    }

    ghost function Contents(): State
      reads this
    {
      State(status, attempts, events, head)
    }

    /** The answers, with what the ownership checks of the coming transactions say. */
    function Answers(): Facts
      reads `remaining
    {
      answers.(lapse := remaining)
    }

    /** The ownership check that every recovery transaction begins with. */
    method RecoveryTransaction() returns (accepted: bool)
      requires Valid()
      modifies `remaining, `refusedAt
      ensures Valid()
      ensures accepted == MayWrite(old(Answers()))
      ensures Answers() == if accepted then Spent(old(Answers())) else old(Answers())
      ensures accepted ==> refusedAt.None?
      ensures !accepted ==> refusedAt.Some?
    {
      accepted := recoveryOwner.None? || remaining != Some(0);
      if !accepted {
        refusedAt := if refusedAt.None? then Some(Contents()) else refusedAt;
      } else if remaining.Some? {
        remaining := Some(remaining.value - 1);
      }
    }

    /** latestPayloadOf. */
    method LatestPayloadOf(t: EventType, attemptId: string) returns (r: Option<Event>)
      ensures r == Latest(events, t, attemptId)
    {
      var index := |events|;
      assert events[..|events|] == events;
      while index > 0
        invariant 0 <= index <= |events|
        invariant Latest(events[..index], t, attemptId) == Latest(events, t, attemptId)
      {
        index := index - 1;
        assert events[..index + 1][..index] == events[..index];
        if TypeOf(events[index]) == t && events[index].attemptId == attemptId {
          return Some(events[index]);
        }
      }
      return None;
    }

    /** Every status on the way may follow the one before it, from the status the task was read with. */
    static predicate LegalPath(from: TaskStatus, path: seq<TaskStatus>) {
      path != [] && CanReconcile(from, path[0]) && forall i :: 0 < i < |path| ==> CanReconcile(path[i - 1], path[i])
    }

    /** The recovery transaction that ends the work; its transition assertions never throw. */
    method SettleTask(from: TaskStatus, path: seq<TaskStatus>, attemptStatus: AttemptStatus, more: seq<Event>, kind: Outcome)
      returns (outcome: Outcome)
      requires path != [] && LegalPath(from, path) && Valid() && kind != OwnershipLost
      modifies `status, `attempts, `events, `remaining, `refusedAt
      ensures Valid() && (outcome == OwnershipLost ==> refusedAt.Some?)
      ensures Result(Contents(), outcome) == Settle(old(Contents()), old(Answers()), attemptStatus, path[|path| - 1], more, kind)
      ensures outcome == OwnershipLost ==> Contents() == old(Contents()) && Answers() == old(Answers())
    {
      hide LegalPath;
      var accepted := RecoveryTransaction();
      if !accepted {
        return OwnershipLost;
      }
      if |attempts| > 0 {
        var last := attempts[|attempts| - 1];
        attempts := attempts[..|attempts| - 1] + [last.(status := attemptStatus)];
      }
      for i := 0 to |path|
        invariant i > 0 ==> status == Some(path[i - 1])
        invariant refusedAt.None? && (recoveryOwner.None? ==> remaining.None?)
        invariant events == old(events) && head == old(head) && attempts == WithLast(old(Contents()), attemptStatus)
      {
        status := Some(path[i]);
      }
      events := events + more;
      return kind;
    }

    method ReconcileWorktreeStage(from: TaskStatus) returns (outcome: Outcome)
      requires Valid() && attempts != [] && from in {Planning, PlanReview, Implementing, CodeReview}
      modifies `status, `attempts, `events, `remaining, `refusedAt
      ensures Valid() && (outcome == OwnershipLost ==> refusedAt.Some?)
      ensures Result(Contents(), outcome) == WorktreeStage(old(Contents()), old(Answers()))
    {
      hide Settle, Valid;
      assert LegalPath(from, [NeedsHuman]) && LegalPath(from, [Blocked]) && LegalPath(from, [Blocked, Ready]);
      hide LegalPath;
      match answers.inspection {
        case MissingWorktree => outcome := SettleTask(from, [Blocked, Ready], FailedAttempt, [], SafeToRetry);
        case Unavailable => outcome := SettleTask(from, [NeedsHuman], FailedAttempt, [], RequiresHuman);
        case Available(clean, headRevision) =>
          if headRevision != attempts[|attempts| - 1].baseRevision {
            outcome := SettleTask(from, [NeedsHuman], FailedAttempt, [], RequiresHuman);
          } else if !clean {
            outcome := SettleTask(from, [Blocked], FailedAttempt, [], RequiresReconciliation);
          } else {
            outcome := SettleTask(from, [Blocked, Ready], FailedAttempt, [], SafeToRetry);
          }
      }
    }

    method FinishIntegrated(from: TaskStatus, commit: string, revision: string) returns (outcome: Outcome)
      requires Valid() && attempts != [] && CanReconcile(from, Done)
      modifies `status, `attempts, `events, `remaining, `refusedAt
      ensures Valid() && (outcome == OwnershipLost ==> refusedAt.Some?)
      ensures Result(Contents(), outcome) == Finish(old(Contents()), old(Answers()), commit, revision)
    {
      var id := attempts[|attempts| - 1].id;
      var recorded := LatestPayloadOf(IntegrationEvent, id);
      outcome := SettleTask(from, [Done], SucceededAttempt, if recorded.Some? then [] else [IntegrationCompleted(id, revision)], Completed(commit));
    }

    /** The status of the integration verification recorded at a commit. */
    method RecordedVerification(commit: string) returns (r: Option<CheckStatus>)
      requires attempts != []
      ensures r == RecordedAt(Contents(), attempts[|attempts| - 1].id, commit)
    {
      var e := LatestPayloadOf(IntegrationVerificationEvent, attempts[|attempts| - 1].id);
      r := if e.Some? && e.value.revision == commit then Some(e.value.status) else None;
    }

    /** reconcileIntegration; `from` is the status the task was read with, VERIFYING or INTEGRATING. */
    method ReconcileIntegration(from: TaskStatus, commit: string) returns (outcome: Outcome)
      requires Valid() && attempts != [] && from in {Verifying, Integrating}
      modifies `status, `attempts, `events, `head, `remaining, `refusedAt
      ensures Valid() && (outcome == OwnershipLost ==> refusedAt.Some?)
      ensures Result(Contents(), outcome) == Integration(old(Contents()), old(Answers()), commit)
    {
      hide Latest, RecordedAt, Settle, Finish;
      if !answers.headReadable {
        outcome := SettleTask(from, [NeedsHuman], FailedAttempt, [], RequiresHuman);
        return;
      }
      var integrated := answers.isAncestor(commit, head);
      if integrated.None? {
        outcome := SettleTask(from, [NeedsHuman], FailedAttempt, [], RequiresHuman);
        return;
      }
      if integrated.value {
        var recorded := RecordedVerification(commit);
        if recorded == Some(ChecksFailed) {
          outcome := SettleTask(from, [Failed], FailedAttempt, [], FailedOutcome);
        } else if recorded == Some(ChecksCancelled) {
          outcome := SettleTask(from, [Cancelled], CancelledAttempt, [], CancelledOutcome);
        } else {
          outcome := FinishIntegrated(Integrating, commit, commit);
        }
        return;
      }
      if answers.branchExists != Some(true) || answers.branchTip != Some(commit) || answers.isAncestor(head, commit) != Some(true) {
        outcome := SettleTask(from, [NeedsHuman], FailedAttempt, [], RequiresHuman);
        return;
      }
      if answers.integrate.None? {
        outcome := SettleTask(from, [Failed], FailedAttempt, [], FailedOutcome);
        return;
      }
      head := answers.integrate.value;
      ghost var moved := Contents();
      FinishOutcome(moved, Answers(), commit, answers.integrate.value);
      outcome := FinishIntegrated(Integrating, commit, answers.integrate.value);
      if outcome == OwnershipLost {
        RefusedEnds(moved, Answers());
        outcome := SettleTask(from, [Failed], FailedAttempt, [], FailedOutcome);
      }
    }

    method CompleteIntegrationFromVerification() returns (outcome: Outcome)
      requires Valid() && attempts != []
      modifies `status, `attempts, `events, `head, `remaining, `refusedAt
      ensures Valid() && (outcome == OwnershipLost ==> refusedAt.Some?)
      ensures Result(Contents(), outcome) == FromVerification(old(Contents()), old(Answers()))
    {
      hide Latest, RecordedAt, Settle, Finish, Integration;
      if answers.commit.None? {
        outcome := SettleTask(Verifying, [Failed], FailedAttempt, [], FailedOutcome);
        return;
      }
      var accepted := RecoveryTransaction();
      if !accepted {
        return OwnershipLost;
      }
      assert CanReconcile(Verifying, Integrating);
      status := Some(Integrating);
      events := events + [CommitCreated(attempts[|attempts| - 1].id, answers.commit.value)];
      outcome := ReconcileIntegration(Verifying, answers.commit.value);
    }

    method ApplyVerification(applied: CheckStatus) returns (outcome: Outcome)
      requires Valid() && attempts != []
      modifies `status, `attempts, `events, `head, `remaining, `refusedAt
      ensures Valid() && (outcome == OwnershipLost ==> refusedAt.Some?)
      ensures Result(Contents(), outcome) == ByChecks(old(Contents()), old(Answers()), applied)
    {
      hide Settle, FromVerification;
      match applied {
        case ChecksPassed => outcome := CompleteIntegrationFromVerification();
        case ChecksFailed => outcome := SettleTask(Verifying, [Failed], FailedAttempt, [], FailedOutcome);
        case ChecksCancelled => outcome := SettleTask(Verifying, [Cancelled], CancelledAttempt, [], CancelledOutcome);
      }
    }

    method ReconcileVerifying() returns (outcome: Outcome)
      requires Valid() && attempts != []
      modifies `status, `attempts, `events, `head, `remaining, `refusedAt
      ensures Valid() && (outcome == OwnershipLost ==> refusedAt.Some?)
      ensures Result(Contents(), outcome) == VerifyingStage(old(Contents()), old(Answers()))
    {
      hide Latest, Settle, ByChecks;
      var attempt := attempts[|attempts| - 1];
      if !answers.inspection.Available? || answers.inspection.headRevision != attempt.baseRevision {
        outcome := SettleTask(Verifying, [NeedsHuman], FailedAttempt, [], RequiresHuman);
        return;
      }
      var recorded := LatestPayloadOf(VerificationEvent, attempt.id);
      if recorded.Some? {
        outcome := ApplyVerification(recorded.value.status);
        return;
      }
      if !answers.checksConfigured {
        outcome := SettleTask(Verifying, [NeedsHuman], FailedAttempt, [], RequiresHuman);
        return;
      }
      if answers.rerun.None? {
        outcome := SettleTask(Verifying, [Failed], FailedAttempt, [], FailedOutcome);
        return;
      }
      var accepted := RecoveryTransaction();
      if !accepted {
        return OwnershipLost;
      }
      events := events + [VerificationCompleted(attempt.id, answers.rerun.value)];
      outcome := ApplyVerification(answers.rerun.value);
    }

    method ReconcileFailedTask() returns (outcome: Outcome)
      requires Valid()
      modifies `status, `attempts, `events, `remaining, `refusedAt
      ensures Valid() && (outcome == OwnershipLost ==> refusedAt.Some?)
      ensures Result(Contents(), outcome) == FailedTask(old(Contents()), old(Answers()))
    {
      hide Latest, RecordedAt, Finish;
      if |attempts| == 0 || attempts[|attempts| - 1].status == Running {
        return NoOp;
      }
      var evidence := LatestPayloadOf(CommitEvent, attempts[|attempts| - 1].id);
      if evidence.None? || !answers.headReadable || answers.isAncestor(evidence.value.revision, head) != Some(true) {
        return NoOp;
      }
      var recorded := RecordedVerification(evidence.value.revision);
      if recorded.Some? && recorded != Some(ChecksPassed) {
        return NoOp;
      }
      outcome := FinishIntegrated(Failed, evidence.value.revision, evidence.value.revision);
    }

    method ReconcileTask() returns (outcome: Outcome)
      requires Valid()
      modifies `status, `attempts, `events, `head, `remaining, `refusedAt
      ensures Valid() && (outcome == OwnershipLost ==> refusedAt.Some?)
      ensures Result(Contents(), outcome) == Reconcile(old(Contents()), old(Answers()))
    {
      hide Latest, Settle, FailedTask, WorktreeStage, VerifyingStage, Integration;
      if status.None? {
        return NoOp;
      }
      var from := status.value;
      if from == Failed {
        outcome := ReconcileFailedTask();
        return;
      }
      if !IsActive(from) {
        return NoOp;
      }
      if |attempts| == 0 || attempts[|attempts| - 1].status != Running {
        outcome := SettleTask(from, [NeedsHuman], FailedAttempt, [], RequiresHuman);
        return;
      }
      if from == Verifying {
        outcome := ReconcileVerifying();
      } else if from == Integrating {
        var evidence := LatestPayloadOf(CommitEvent, attempts[|attempts| - 1].id);
        if evidence.None? {
          outcome := SettleTask(from, [NeedsHuman], FailedAttempt, [], RequiresHuman);
        } else {
          outcome := ReconcileIntegration(from, evidence.value.revision);
        }
      } else {
        outcome := ReconcileWorktreeStage(from);
      }
    }

    /**
     * reconcileTaskOwned: the ownership is checked in every transaction and given up at the end. However
     * many transactions the lease lasts for, the outcome is that of the recovery function, and the store
     * stays as the first refusal found it.
     */
    method ReconcileTaskOwned(ownerId: string, lapse: Option<nat>) returns (outcome: Option<Outcome>)
      requires Valid()
      modifies this
      ensures Valid()
      ensures old(recoveryOwner).Some? ==> outcome.None? && Contents() == old(Contents()) && recoveryOwner == old(recoveryOwner)
      ensures old(recoveryOwner).None? ==>
                outcome.Some? && recoveryOwner.None?
                && Result(Contents(), outcome.value) == Reconcile(old(Contents()), answers.(lapse := lapse))
      ensures old(recoveryOwner).None? && outcome == Some(OwnershipLost) && lapse.Some? ==>
                var points := Checkpoints(old(Contents()), answers.(lapse := lapse));
                lapse.value < |points| && SameStore(Contents(), points[lapse.value])
    {
      hide Reconcile, Checkpoints;
      if recoveryOwner.Some? {
        return None;
      }
      recoveryOwner, remaining := Some(ownerId), lapse;
      ghost var before, f := Contents(), Answers();
      var r := ReconcileTask();
      ghost var refused := refusedAt;
      assert r == OwnershipLost ==> refused.Some? && SameStore(Contents(), refused.value);
      recoveryOwner, remaining, refusedAt := None, None, None;
      if lapse.Some? {
        LostOwnerWritesNothing(before, f);
      }
      return Some(r);
    }
  }
}
