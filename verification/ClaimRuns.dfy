/**
 * Every interleaving of workers, recovery owners and a clock on the claim tables: what all of them
 * keep, and how ownership of a claim moves.
 */
module ClaimRuns {
  import opened Options
  import opened TaskStates
  import opened ResourceLocks
  import opened ClaimTables

  datatype Step =
    | Take(request: Request)
    | Renew(id: string, leaseExpiresAt: int)
    | TakeOver(id: string, owner: string, expiresAt: int)
    | Release(id: string, status: ClaimStatus)
    | RecoveredRelease(id: string, owner: string, status: ClaimStatus)
    | LockRelease(taskId: string, attemptId: string)
    | SetStatus(taskId: string, taskStatus: TaskStatus)

  predicate IsStep(step: Step) {
    match step
    case Release(id, status) => status != Active
    case RecoveredRelease(id, owner, status) => status != Active
    case _ => true
  }

  function After(t: Tables, step: Step, now: int): Tables {
    match step
    case Take(request) => AfterClaim(t, request)
    case Renew(id, leaseExpiresAt) => AfterRenew(t, id, now, leaseExpiresAt)
    case TakeOver(id, owner, expiresAt) => AfterTakeOver(t, id, owner, now, expiresAt)
    case Release(id, status) => AfterRelease(t, id, status, now)
    case RecoveredRelease(id, owner, status) => AfterRecoveredRelease(t, id, owner, status, now)
    case LockRelease(taskId, attemptId) => AfterLockRelease(t, taskId, attemptId)
    case SetStatus(taskId, status) => AfterSetStatus(t, taskId, status)
  }

  /** The tables, the clock, and which resources each claim was granted for. */
  datatype Moment = Moment(tables: Tables, now: int, requested: map<string, set<string>>)

  function NamesOf(resources: seq<string>): set<string> {
    set r | r in resources
  }

  function Remember(m: Moment, step: Step): map<string, set<string>> {
    if step.Take? && OutcomeOf(m.tables, step.request).Claimed? then
      m.requested[step.request.executionId := NamesOf(step.request.resources)]
    else m.requested
  }

  ghost predicate Next(m: Moment, step: Step, n: Moment) {
    IsStep(step) && n.tables == After(m.tables, step, m.now) && n.now >= m.now && n.requested == Remember(m, step)
  }

  /** Recovery owner ids are random: no two attempts to take over use the same one. */
  ghost predicate FreshOwners(steps: seq<Step>) {
    forall i, j :: 0 <= i < j < |steps| && steps[i].TakeOver? && steps[j].TakeOver? ==> steps[i].owner != steps[j].owner
  }

  /** A run from empty claim and lock tables. */
  ghost predicate IsRun(run: seq<Moment>, steps: seq<Step>) {
    && |run| == |steps| + 1
    && run[0].tables.claims == map[] && run[0].tables.locks == map[]
    && forall i :: 0 <= i < |steps| ==> Next(run[i], steps[i], run[i + 1])
  }

  // --- Invariants ---

  ghost predicate OneClaimPerTask(t: Tables) {
    forall a, b :: IsActiveClaim(t, a) && IsActiveClaim(t, b) && t.claims[a].taskId == t.claims[b].taskId ==> a == b
  }

  /** A lock of an execution belongs to an active claim of the same task, and to no attempt. */
  ghost predicate LocksAreBacked(t: Tables) {
    forall r :: r in t.locks && t.locks[r].owner.executionId.Some? ==>
      && IsActiveClaim(t, t.locks[r].owner.executionId.value)
      && t.claims[t.locks[r].owner.executionId.value].taskId == t.locks[r].owner.taskId
      && t.locks[r].owner.attemptId.None?
  }

  /** An active claim holds the lock of every resource it was granted. */
  ghost predicate GrantsAreLocked(m: Moment) {
    forall id :: IsActiveClaim(m.tables, id) ==> id in m.requested && HoldsAll(m.tables, id, m.requested[id])
  }

  ghost predicate HoldsAll(t: Tables, id: string, resources: set<string>) {
    id in t.claims && forall r :: r in resources ==> r in t.locks && t.locks[r].owner == Owner(t.claims[id].taskId, None, Some(id))
  }

  ghost predicate ClaimInvariant(m: Moment, limit: int) {
    OneClaimPerTask(m.tables) && |ActiveClaims(m.tables)| <= limit && LocksAreBacked(m.tables) && GrantsAreLocked(m)
  }

  ghost predicate RequestsAtMost(steps: seq<Step>, limit: int) {
    forall i :: 0 <= i < |steps| && steps[i].Take? ==> steps[i].request.maxParallelism <= limit
  }

  lemma TakeKeepsClaims(t: Tables, request: Request)
    requires OneClaimPerTask(t) && OutcomeOf(t, request).Claimed?
    ensures OneClaimPerTask(AfterClaim(t, request))
    ensures ActiveClaims(AfterClaim(t, request)) == ActiveClaims(t) + {request.executionId}
  {
    var after, id := AfterClaim(t, request), request.executionId;
    assert after.claims == t.claims[id := NewClaim(request)] && !HasActiveClaim(t, request.taskId) && id !in t.claims;
    hide OutcomeOf, AfterClaim, NewLocks;
    assert forall c :: IsActiveClaim(after, c) <==> c == id || IsActiveClaim(t, c);
    assert forall c :: IsActiveClaim(t, c) ==> t.claims[c].taskId != request.taskId;
  }

  lemma TakeKeepsLocks(t: Tables, request: Request)
    requires LocksAreBacked(t) && OutcomeOf(t, request).Claimed?
    ensures LocksAreBacked(AfterClaim(t, request))
  {
    hide HasActiveClaim;
    var after := AfterClaim(t, request);
    assert forall c :: IsActiveClaim(t, c) ==> IsActiveClaim(after, c) && after.claims[c] == t.claims[c];
    assert IsActiveClaim(after, request.executionId);
  }

  lemma TakeKeepsInvariant(m: Moment, request: Request, limit: int)
    requires ClaimInvariant(m, limit) && OutcomeOf(m.tables, request).Claimed? && request.maxParallelism <= limit
    ensures ClaimInvariant(m.(tables := AfterClaim(m.tables, request), requested := Remember(m, Take(request))), limit)
  {
    hide HasActiveClaim, AfterClaim, GrantsAreLocked, OneClaimPerTask, LocksAreBacked;
    TakeKeepsClaims(m.tables, request);
    TakeKeepsLocks(m.tables, request);
    TakeKeepsGrants(m, request);
  }

  lemma TakeKeepsGrants(m: Moment, request: Request)
    requires GrantsAreLocked(m) && OutcomeOf(m.tables, request).Claimed?
    ensures GrantsAreLocked(m.(tables := AfterClaim(m.tables, request), requested := Remember(m, Take(request))))
  {
    hide HasActiveClaim;
    var t, after := m.tables, AfterClaim(m.tables, request);
    var n := m.(tables := after, requested := Remember(m, Take(request)));
    forall c | IsActiveClaim(after, c) ensures c in n.requested && HoldsAll(after, c, n.requested[c]) {
      if c != request.executionId {
        assert IsActiveClaim(t, c) && HoldsAll(t, c, m.requested[c]);
      }
    }
  }

  lemma SettleKeepsInvariant(m: Moment, id: string, status: ClaimStatus, limit: int)
    requires ClaimInvariant(m, limit) && IsActiveClaim(m.tables, id) && status != Active
    ensures ClaimInvariant(m.(tables := Settled(m.tables, id, status, m.now)), limit)
  {
    var t, after := m.tables, Settled(m.tables, id, status, m.now);
    assert ActiveClaims(after) == ActiveClaims(t) - {id};
    assert forall c :: IsActiveClaim(after, c) <==> c != id && IsActiveClaim(t, c);
    forall c | IsActiveClaim(after, c) ensures HoldsAll(after, c, m.requested[c]) {
      assert HoldsAll(t, c, m.requested[c]);
    }
  }

  /** Tables whose active claims and locks are the same. */
  lemma SameClaimsKeepInvariant(m: Moment, after: Tables, limit: int)
    requires ClaimInvariant(m, limit) && after.locks == m.tables.locks && after.claims.Keys == m.tables.claims.Keys
    requires forall c :: c in after.claims ==>
               after.claims[c].status == m.tables.claims[c].status && after.claims[c].taskId == m.tables.claims[c].taskId
    ensures ClaimInvariant(m.(tables := after), limit)
  {
    assert ActiveClaims(after) == ActiveClaims(m.tables);
    assert forall c :: IsActiveClaim(after, c) <==> IsActiveClaim(m.tables, c);
    forall c | IsActiveClaim(after, c) ensures HoldsAll(after, c, m.requested[c]) {
      assert HoldsAll(m.tables, c, m.requested[c]);
    }
  }

  lemma LockReleaseKeepsInvariant(m: Moment, taskId: string, attemptId: string, limit: int)
    requires ClaimInvariant(m, limit)
    ensures ClaimInvariant(m.(tables := AfterLockRelease(m.tables, taskId, attemptId)), limit)
  {
    var after := AfterLockRelease(m.tables, taskId, attemptId);
    assert ActiveClaims(after) == ActiveClaims(m.tables);
    assert forall c :: IsActiveClaim(after, c) <==> IsActiveClaim(m.tables, c);
    forall c | IsActiveClaim(after, c) ensures HoldsAll(after, c, m.requested[c]) {
      assert HoldsAll(m.tables, c, m.requested[c]);
    }
  }

  lemma StepKeepsInvariant(m: Moment, step: Step, n: Moment, limit: int)
    requires ClaimInvariant(m, limit) && Next(m, step, n)
    requires step.Take? ==> step.request.maxParallelism <= limit
    ensures ClaimInvariant(n, limit)
  {
    match step {
      case Take(request) =>
        if OutcomeOf(m.tables, request).Claimed? {
          TakeKeepsInvariant(m, request, limit);
        }
      case Release(id, status) =>
        if CanRelease(m.tables, id, m.now) {
          SettleKeepsInvariant(m, id, status, limit);
        }
      case RecoveredRelease(id, owner, status) =>
        if OwnsRecovery(m.tables, id, owner, m.now) {
          SettleKeepsInvariant(m, id, status, limit);
        }
      case LockRelease(taskId, attemptId) => LockReleaseKeepsInvariant(m, taskId, attemptId, limit);
      case _ => SameClaimsKeepInvariant(m, n.tables, limit);
    }
    hide OneClaimPerTask, LocksAreBacked, After, HoldsAll;
    assert GrantsAreLocked(m.(tables := n.tables, requested := n.requested)) == GrantsAreLocked(n);
  }

  /** In every reachable state the claim invariant holds. */
  lemma {:induction false} InvariantHolds(run: seq<Moment>, steps: seq<Step>, limit: int, i: nat)
    requires IsRun(run, steps) && RequestsAtMost(steps, limit) && 0 <= limit && i < |run|
    ensures ClaimInvariant(run[i], limit)
  {
    hide After;
    if i == 0 {
      assert ActiveClaims(run[0].tables) == {};
    } else {
      InvariantHolds(run, steps, limit, i - 1);
      hide ClaimInvariant;
      assert Next(run[i - 1], steps[i - 1], run[i]);
      StepKeepsInvariant(run[i - 1], steps[i - 1], run[i], limit);
    }
  }

  /** Two active claims were never granted a common resource. */
  lemma ActiveClaimsShareNothing(run: seq<Moment>, steps: seq<Step>, limit: int, i: nat, a: string, b: string)
    requires IsRun(run, steps) && RequestsAtMost(steps, limit) && 0 <= limit && i < |run|
    requires IsActiveClaim(run[i].tables, a) && IsActiveClaim(run[i].tables, b) && a != b
    ensures a in run[i].requested && b in run[i].requested && run[i].requested[a] !! run[i].requested[b]
    ensures run[i].tables.claims[a].taskId != run[i].tables.claims[b].taskId
  {
    InvariantHolds(run, steps, limit, i);
    var t := run[i].tables;
    assert HoldsAll(t, a, run[i].requested[a]) && HoldsAll(t, b, run[i].requested[b]);
    forall r | r in run[i].requested[a] ensures r !in run[i].requested[b] {
      assert t.locks[r].owner.executionId == Some(a);
    }
  }
}
