/** The settlement of expired execution claims (packages/orchestrator/src/execution-claim-recovery.ts). */
module ExecutionClaimRecovery {
  import opened Options
  import opened TaskStates
  import opened ClaimTables

  datatype Outcome = Live | SafeToRetry | TerminalSettled | IntegrationRecoveryRequired | HumanRecoveryRequired

  /** What the recovery of the task answers: its new status and whether it may be retried. */
  datatype Recovered = Recovered(status: TaskStatus, safeToRetry: bool)

  /** For one claim: the fresh owner id, whether its queue entry is open, the recovery, and the clock at each reading. */
  datatype Inputs = Inputs(owner: string, openEntry: bool, recovery: Recovered, listedAt: int, takenAt: int, settledAt: int)

  predicate IsTerminal(s: TaskStatus) {
    s == Done || s == Failed || s == Cancelled
  }

  function ClaimStatusOf(s: TaskStatus): ClaimStatus {
    if s == Done then Completed else if s == Cancelled then CancelledClaim else FailedClaim
  }

  /** Nothing but this claim, its locks and the status of its task has changed. */
  ghost predicate OnlyTouches(before: Tables, after: Tables, id: string) {
    && id in before.claims && after.claims.Keys == before.claims.Keys && after.tasks.Keys == before.tasks.Keys
    && (forall c :: c in before.claims && c != id ==> after.claims[c] == before.claims[c])
    && (forall t :: t in before.tasks && t != before.claims[id].taskId ==> after.tasks[t] == before.tasks[t])
    && (forall r :: r in before.locks && before.locks[r].owner.executionId != Some(id) ==> r in after.locks && after.locks[r] == before.locks[r])
    && (forall r :: r in after.locks ==> r in before.locks && after.locks[r] == before.locks[r])
  }

  /** What each outcome says about the claim. */
  ghost predicate OutcomeHolds(before: Tables, after: Tables, id: string, owner: string, outcome: Outcome) {
    && OnlyTouches(before, after, id)
    && match outcome
       case Live => after == before
       case SafeToRetry => HasEnded(after, id, FailedClaim)
       case TerminalSettled =>
         after.claims[id].taskId in after.tasks && IsTerminal(after.tasks[after.claims[id].taskId])
         && HasEnded(after, id, ClaimStatusOf(after.tasks[after.claims[id].taskId]))
       case _ => IsActiveClaim(after, id) && after.claims[id].recovery.Some? && after.claims[id].recovery.value.owner == owner
  }

  /** The claim is settled with this status and holds no locks. */
  ghost predicate HasEnded(t: Tables, id: string, status: ClaimStatus) {
    id in t.claims && t.claims[id].status == status && forall r :: r in t.locks ==> t.locks[r].owner.executionId != Some(id)
  }

  /** The body of the loop for one active claim. */
  method ReconcileClaim(store: ClaimStore, id: string, x: Inputs, leaseDuration: int) returns (outcome: Outcome)
    requires IsActiveClaim(store.Contents(), id)
    modifies store
    ensures OutcomeHolds(old(store.Contents()), store.Contents(), id, x.owner, outcome)
    ensures old(store.claims[id]).leaseExpiresAt > x.listedAt ==> outcome == Live
  {
    var claim := store.claims[id];
    if claim.leaseExpiresAt > x.listedAt {
      return Live;
    }
    var owned := store.ClaimExpiredExecutionRecovery(id, x.owner, x.takenAt, x.takenAt + leaseDuration);
    if !owned {
      return Live;
    }
    if x.openEntry {
      return IntegrationRecoveryRequired;
    }
    if claim.taskId !in store.tasks {
      return HumanRecoveryRequired;
    }
    if !IsTerminal(store.tasks[claim.taskId]) {
      store.SetTaskStatus(claim.taskId, x.recovery.status);
      if x.recovery.safeToRetry {
        var retried := store.ReleaseRecoveredTaskExecution(id, x.owner, FailedClaim, x.settledAt);
        return if retried then SafeToRetry else HumanRecoveryRequired;
      }
      if !IsTerminal(x.recovery.status) {
        return HumanRecoveryRequired;
      }
    }
    var settled := store.ReleaseRecoveredTaskExecution(id, x.owner, ClaimStatusOf(store.tasks[claim.taskId]), x.settledAt);
    return if settled then TerminalSettled else HumanRecoveryRequired;
  }

  /** What a later iteration leaves of an earlier outcome. */
  ghost predicate StillHolds(after: Tables, id: string, owner: string, outcome: Outcome) {
    match outcome
    case Live => IsActiveClaim(after, id)
    case SafeToRetry => HasEnded(after, id, FailedClaim)
    case TerminalSettled => id in after.claims && after.claims[id].status != Active && HasEnded(after, id, after.claims[id].status)
    case _ => IsActiveClaim(after, id) && after.claims[id].recovery.Some? && after.claims[id].recovery.value.owner == owner
  }

  lemma OutcomeStays(before: Tables, after: Tables, id: string, owner: string, outcome: Outcome, next: string)
    requires StillHolds(before, id, owner, outcome) && OnlyTouches(before, after, next) && next != id
    ensures StillHolds(after, id, owner, outcome)
  {
  }

  lemma OutcomeStands(before: Tables, after: Tables, id: string, owner: string, outcome: Outcome)
    requires IsActiveClaim(before, id) && OutcomeHolds(before, after, id, owner, outcome)
    ensures StillHolds(after, id, owner, outcome)
  {
  }

  /** reconcileExpired: every active claim gets one outcome, and the outcomes hold together at the end. */
  method ReconcileExpired(store: ClaimStore, listed: seq<string>, inputs: seq<Inputs>, leaseDuration: int) returns (outcomes: seq<Outcome>)
    requires |inputs| == |listed|
    requires forall id :: id in listed <==> IsActiveClaim(store.Contents(), id)
    requires forall i, j :: 0 <= i < j < |listed| ==> listed[i] != listed[j]
    modifies store
    ensures |outcomes| == |listed|
    ensures forall i :: 0 <= i < |listed| ==> listed[i] in old(store.claims) && listed[i] in store.claims
    ensures forall i :: 0 <= i < |listed| ==> StillHolds(store.Contents(), listed[i], inputs[i].owner, outcomes[i])
    ensures forall i :: 0 <= i < |listed| && old(store.claims)[listed[i]].leaseExpiresAt > inputs[i].listedAt ==>
              outcomes[i] == Live && store.claims[listed[i]] == old(store.claims)[listed[i]]
    ensures forall id :: id in old(store.claims) && id !in listed ==> id in store.claims && store.claims[id] == old(store.claims)[id]
  {
    outcomes := [];
    assert forall i :: 0 <= i < |listed| ==> listed[i] in listed;
    for n := 0 to |listed|
      invariant |outcomes| == n && store.claims.Keys == old(store.claims).Keys
      invariant forall i :: 0 <= i < |listed| ==> listed[i] in store.claims
      invariant forall i :: 0 <= i < n ==> StillHolds(store.Contents(), listed[i], inputs[i].owner, outcomes[i])
      invariant forall i :: 0 <= i < n && old(store.claims)[listed[i]].leaseExpiresAt > inputs[i].listedAt ==>
                  outcomes[i] == Live && store.claims[listed[i]] == old(store.claims)[listed[i]]
      invariant forall i :: n <= i < |listed| ==> store.claims[listed[i]] == old(store.claims)[listed[i]]
      invariant forall id :: id in old(store.claims) && id !in listed ==> store.claims[id] == old(store.claims)[id]
    {
      hide StillHolds;
      ghost var before := store.Contents();
      assert IsActiveClaim(before, listed[n]);
      var outcome := ReconcileClaim(store, listed[n], inputs[n], leaseDuration);
      OutcomeStands(before, store.Contents(), listed[n], inputs[n].owner, outcome);
      forall i | 0 <= i < n ensures StillHolds(store.Contents(), listed[i], inputs[i].owner, outcomes[i]) {
        OutcomeStays(before, store.Contents(), listed[i], inputs[i].owner, outcomes[i], listed[n]);
      }
      outcomes := outcomes + [outcome];
    }
  }
}
