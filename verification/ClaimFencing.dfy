/** Ownership of a claim only moves forward, and who lost it can do nothing more. */
module ClaimFencing {
  import opened Options
  import opened ClaimTables
  import opened ClaimRuns

  /** Who may act on an active claim. */
  datatype Principal = Worker | RecoveryOwner(name: string)

  function OwnerOfClaim(t: Tables, id: string): Option<Principal> {
    if !IsActiveClaim(t, id) then None
    else Some(if t.claims[id].recovery.None? then Worker else RecoveryOwner(t.claims[id].recovery.value.owner))
  }

  /** Everything a principal can try on a claim is refused. */
  ghost predicate Refused(t: Tables, id: string, p: Principal, now: int) {
    match p
    case Worker => !CanRenew(t, id) && !CanRelease(t, id, now)
    case RecoveryOwner(name) => !OwnsRecovery(t, id, name, now)
  }

  /** The claim of a row only changes in the ways a step allows. */
  ghost predicate ClaimMoves(t: Tables, step: Step, n: Tables, id: string) {
    if id !in t.claims then
      id in n.claims ==> step.Take? && n.claims[id] == NewClaim(step.request)
    else
      && id in n.claims && n.claims[id].taskId == t.claims[id].taskId
      && (t.claims[id].status != Active ==> n.claims[id] == t.claims[id])
      && (n.claims[id].recovery == t.claims[id].recovery || (step.TakeOver? && n.claims[id].recovery == Some(Recovery(step.owner, step.expiresAt))))
  }

  lemma StepMovesClaim(m: Moment, step: Step, n: Moment, id: string)
    requires Next(m, step, n)
    ensures ClaimMoves(m.tables, step, n.tables, id)
  {
  }

  /** A claim that exists goes on existing. */
  lemma {:induction false} ClaimStays(run: seq<Moment>, steps: seq<Step>, id: string, i: nat, j: nat)
    requires IsRun(run, steps) && i <= j < |run| && id in run[i].tables.claims
    ensures id in run[j].tables.claims && run[j].tables.claims[id].taskId == run[i].tables.claims[id].taskId
    decreases j - i
  {
    if i < j {
      ClaimStays(run, steps, id, i, j - 1);
      StepMovesClaim(run[j - 1], steps[j - 1], run[j], id);
    }
  }

  /** A recovery owner got there by taking over. */
  lemma {:induction false} RecoveryComesFromTakeOver(run: seq<Moment>, steps: seq<Step>, id: string, i: nat) returns (s: nat)
    requires IsRun(run, steps) && i < |run| && id in run[i].tables.claims && run[i].tables.claims[id].recovery.Some?
    ensures s < i && steps[s].TakeOver? && steps[s].owner == run[i].tables.claims[id].recovery.value.owner
    decreases i
  {
    var step, before, now := steps[i - 1], run[i - 1].tables, run[i].tables;
    StepMovesClaim(run[i - 1], step, run[i], id);
    if id in before.claims && before.claims[id].recovery == now.claims[id].recovery {
      s := RecoveryComesFromTakeOver(run, steps, id, i - 1);
    } else {
      s := i - 1;
    }
  }

  /** Once a principal no longer owns a claim, it never owns it again. */
  lemma {:induction false} OwnershipNeverReturns(run: seq<Moment>, steps: seq<Step>, id: string, p: Principal, i: nat, j: nat, k: nat)
    requires IsRun(run, steps) && FreshOwners(steps) && i <= j <= k < |run|
    requires OwnerOfClaim(run[i].tables, id) == Some(p) && OwnerOfClaim(run[j].tables, id) != Some(p)
    ensures OwnerOfClaim(run[k].tables, id) != Some(p)
    decreases k - j
  {
    if j < k {
      hide After;
      OwnershipNeverReturns(run, steps, id, p, i, j, k - 1);
      ClaimStays(run, steps, id, i, k - 1);
      StepMovesClaim(run[k - 1], steps[k - 1], run[k], id);
      hide Next;
      if p.RecoveryOwner? {
        var s := RecoveryComesFromTakeOver(run, steps, id, i);
        assert steps[k - 1].TakeOver? ==> steps[k - 1].owner != p.name;
      }
    }
  }

  /** A step by which a principal tries to act on a claim. */
  predicate IsAttemptBy(step: Step, id: string, p: Principal) {
    match step
    case Renew(c, lease) => c == id && p == Worker
    case Release(c, status) => c == id && p == Worker
    case RecoveredRelease(c, owner, status) => c == id && p == RecoveryOwner(owner)
    case _ => false
  }

  /** Who does not own a claim is refused everything on it, at any time. */
  lemma OthersAreRefused(t: Tables, id: string, p: Principal, now: int, step: Step)
    requires OwnerOfClaim(t, id) != Some(p)
    ensures Refused(t, id, p, now)
    ensures IsAttemptBy(step, id, p) ==> After(t, step, now) == t
  {
  }

  /** A principal that lost a claim is refused at every later moment, and its attempts change nothing. */
  lemma FencedForever(run: seq<Moment>, steps: seq<Step>, id: string, p: Principal, i: nat, j: nat, k: nat, attempt: Step)
    requires IsRun(run, steps) && FreshOwners(steps) && i <= j <= k < |run|
    requires OwnerOfClaim(run[i].tables, id) == Some(p) && OwnerOfClaim(run[j].tables, id) != Some(p)
    ensures Refused(run[k].tables, id, p, run[k].now)
    ensures IsAttemptBy(attempt, id, p) ==> After(run[k].tables, attempt, run[k].now) == run[k].tables
  {
    OwnershipNeverReturns(run, steps, id, p, i, j, k);
    OthersAreRefused(run[k].tables, id, p, run[k].now, attempt);
  }

  /** Ownership passes from the worker to recovery owners, never to a worker. */
  lemma {:induction false} WorkerNeverFollowsRecovery(run: seq<Moment>, steps: seq<Step>, id: string, i: nat, k: nat)
    requires IsRun(run, steps) && i <= k < |run|
    requires OwnerOfClaim(run[i].tables, id).Some? && OwnerOfClaim(run[i].tables, id) != Some(Worker)
    ensures OwnerOfClaim(run[k].tables, id) != Some(Worker)
    decreases k - i
  {
    if i < k {
      WorkerNeverFollowsRecovery(run, steps, id, i, k - 1);
      ClaimStays(run, steps, id, i, k - 1);
      StepMovesClaim(run[k - 1], steps[k - 1], run[k], id);
      RecoveryStays(run, steps, id, i, k);
    }
  }

  lemma {:induction false} RecoveryStays(run: seq<Moment>, steps: seq<Step>, id: string, i: nat, k: nat)
    requires IsRun(run, steps) && i <= k < |run| && id in run[i].tables.claims && run[i].tables.claims[id].recovery.Some?
    ensures id in run[k].tables.claims && run[k].tables.claims[id].recovery.Some?
    decreases k - i
  {
    if i < k {
      RecoveryStays(run, steps, id, i, k - 1);
      StepMovesClaim(run[k - 1], steps[k - 1], run[k], id);
    }
  }

  /** A settled claim never changes again. */
  lemma {:induction false} SettledForever(run: seq<Moment>, steps: seq<Step>, id: string, i: nat, j: nat)
    requires IsRun(run, steps) && i <= j < |run|
    requires id in run[i].tables.claims && run[i].tables.claims[id].status != Active
    ensures id in run[j].tables.claims && run[j].tables.claims[id] == run[i].tables.claims[id]
    decreases j - i
  {
    if i < j {
      SettledForever(run, steps, id, i, j - 1);
      StepMovesClaim(run[j - 1], steps[j - 1], run[j], id);
    }
  }

  /** Step i of the run settles the claim. */
  ghost predicate Settles(run: seq<Moment>, i: nat, id: string)
    requires i + 1 < |run|
  {
    IsActiveClaim(run[i].tables, id) && !IsActiveClaim(run[i + 1].tables, id)
  }

  lemma SettledOnce(run: seq<Moment>, steps: seq<Step>, id: string, i: nat, j: nat)
    requires IsRun(run, steps) && i < j < |steps| && Settles(run, i, id)
    ensures !Settles(run, j, id)
  {
    StepMovesClaim(run[i], steps[i], run[i + 1], id);
    SettledForever(run, steps, id, i + 1, j);
  }

  /** While one recovery owner keeps a claim, its recovery lease stays as it was. */
  lemma {:induction false} LeaseStays(run: seq<Moment>, steps: seq<Step>, id: string, name: string, i: nat, k: nat)
    requires IsRun(run, steps) && FreshOwners(steps) && i <= k < |run|
    requires OwnerOfClaim(run[i].tables, id) == Some(RecoveryOwner(name))
    requires OwnerOfClaim(run[k].tables, id) == Some(RecoveryOwner(name))
    ensures run[k].tables.claims[id].recovery == run[i].tables.claims[id].recovery
    ensures run[i].now <= run[k].now
    decreases k - i
  {
    if i < k {
      if OwnerOfClaim(run[k - 1].tables, id) != Some(RecoveryOwner(name)) {
        OwnershipNeverReturns(run, steps, id, RecoveryOwner(name), i, k - 1, k);
      }
      LeaseStays(run, steps, id, name, i, k - 1);
      StepMovesClaim(run[k - 1], steps[k - 1], run[k], id);
      var s := RecoveryComesFromTakeOver(run, steps, id, k - 1);
    }
  }

  /** A recovery owner whose lease ran out can never act on the claim again: nothing renews a recovery lease. */
  lemma LapsedForever(run: seq<Moment>, steps: seq<Step>, id: string, name: string, i: nat, k: nat)
    requires IsRun(run, steps) && FreshOwners(steps) && i <= k < |run|
    requires OwnerOfClaim(run[i].tables, id) == Some(RecoveryOwner(name))
    requires run[i].tables.claims[id].recovery.value.expiresAt <= run[i].now
    ensures Refused(run[k].tables, id, RecoveryOwner(name), run[k].now)
  {
    if OwnerOfClaim(run[k].tables, id) == Some(RecoveryOwner(name)) {
      LeaseStays(run, steps, id, name, i, k);
    } else {
      OthersAreRefused(run[k].tables, id, RecoveryOwner(name), run[k].now, Renew(id, 0));
    }
  }
}
