/**
 * Execution claims, their leases, recovery ownership and resource locks: each store transaction as
 * one step on the tables (packages/persistence/src/sqlite/sqlite-runner-store.ts).
 */
module ClaimTables {
  import opened Options
  import opened TaskStates
  import opened ResourceLocks

  datatype ClaimStatus = Active | Completed | FailedClaim | CancelledClaim | RecoveryRequired

  datatype Recovery = Recovery(owner: string, expiresAt: int)

  datatype Claim = Claim(
    taskId: string, status: ClaimStatus, claimedAt: int, renewedAt: int, leaseExpiresAt: int,
    recovery: Option<Recovery>, finishedAt: Option<int>)

  datatype LockRow = LockRow(owner: Owner, acquiredAt: int)

  /** The rows of the tables, by primary key. */
  datatype Tables = Tables(tasks: map<string, TaskStatus>, claims: map<string, Claim>, locks: map<string, LockRow>)

  datatype Request = Request(
    taskId: string, executionId: string, maxParallelism: int, resources: seq<string>, claimedAt: int, leaseExpiresAt: int)

  /** Rejected stands for a thrown persistence error. */
  datatype ClaimResult = Claimed(claim: Claim) | TaskNotReady | AlreadyClaimed | CapacityExhausted | ResourceUnavailable | Rejected

  predicate IsActiveClaim(t: Tables, id: string) {
    id in t.claims && t.claims[id].status == Active
  }

  function ActiveClaims(t: Tables): set<string> {
    set id | id in t.claims && t.claims[id].status == Active
  }

  predicate HasActiveClaim(t: Tables, taskId: string) {
    exists id :: id in t.claims && t.claims[id].status == Active && t.claims[id].taskId == taskId
  }

  /** The owner that the locks of a request carry. */
  function OwnerOf(request: Request): Owner {
    Owner(request.taskId, None, Some(request.executionId))
  }

  predicate IsValid(request: Request) {
    request.taskId != "" && request.executionId != "" && request.maxParallelism > 0
  }

  /** Some requested resource is locked by another owner. */
  predicate LockedByOther(t: Tables, request: Request) {
    exists r :: r in request.resources && r in t.locks && t.locks[r].owner != OwnerOf(request)
  }

  /** The rows to insert are there already. */
  predicate DuplicatesKey(t: Tables, request: Request) {
    request.executionId in t.claims || exists r :: r in request.resources && r in t.locks
  }

  function NewClaim(request: Request): Claim {
    Claim(request.taskId, Active, request.claimedAt, request.claimedAt, request.leaseExpiresAt, None, None)
  }

  function OutcomeOf(t: Tables, request: Request): ClaimResult {
    if !IsValid(request) then Rejected
    else if request.taskId !in t.tasks || t.tasks[request.taskId] != Ready then TaskNotReady
    else if HasActiveClaim(t, request.taskId) then AlreadyClaimed
    else if |ActiveClaims(t)| >= request.maxParallelism then CapacityExhausted
    else if "" in request.resources then Rejected
    else if LockedByOther(t, request) then ResourceUnavailable
    else if DuplicatesKey(t, request) then Rejected
    else Claimed(NewClaim(request))
  }

  function NewLocks(request: Request): map<string, LockRow> {
    map r | r in request.resources :: LockRow(OwnerOf(request), request.claimedAt)
  }

  function AfterClaim(t: Tables, request: Request): Tables {
    if OutcomeOf(t, request).Claimed? then
      t.(claims := t.claims[request.executionId := NewClaim(request)], locks := t.locks + NewLocks(request))
    else t
  }

  predicate CanRenew(t: Tables, id: string) {
    IsActiveClaim(t, id) && t.claims[id].recovery.None?
  }

  function AfterRenew(t: Tables, id: string, now: int, leaseExpiresAt: int): Tables {
    if CanRenew(t, id) then
      t.(claims := t.claims[id := t.claims[id].(renewedAt := now, leaseExpiresAt := leaseExpiresAt)])
    else t
  }

  predicate CanTakeOver(t: Tables, id: string, now: int) {
    && IsActiveClaim(t, id) && t.claims[id].leaseExpiresAt <= now
    && (t.claims[id].recovery.None? || t.claims[id].recovery.value.expiresAt <= now)
  }

  function AfterTakeOver(t: Tables, id: string, owner: string, now: int, expiresAt: int): Tables {
    if CanTakeOver(t, id, now) then
      t.(claims := t.claims[id := t.claims[id].(recovery := Some(Recovery(owner, expiresAt)))])
    else t
  }

  /** What a recovery owner has to show before it may act on the claim. */
  predicate OwnsRecovery(t: Tables, id: string, owner: string, now: int) {
    && IsActiveClaim(t, id) && t.claims[id].recovery.Some?
    && t.claims[id].recovery.value.owner == owner && t.claims[id].recovery.value.expiresAt > now
  }

  predicate CanRelease(t: Tables, id: string, now: int) {
    IsActiveClaim(t, id) && t.claims[id].leaseExpiresAt > now && t.claims[id].recovery.None?
  }

  function Settled(t: Tables, id: string, status: ClaimStatus, now: int): Tables
    requires id in t.claims
  {
    t.(claims := t.claims[id := t.claims[id].(status := status, finishedAt := Some(now))],
       locks := map r | r in t.locks && t.locks[r].owner.executionId != Some(id) :: t.locks[r])
  }

  function AfterRelease(t: Tables, id: string, status: ClaimStatus, now: int): Tables {
    if CanRelease(t, id, now) then Settled(t, id, status, now) else t
  }

  function AfterRecoveredRelease(t: Tables, id: string, owner: string, status: ClaimStatus, now: int): Tables {
    if OwnsRecovery(t, id, owner, now) then Settled(t, id, status, now) else t
  }

  /** `releaseResourceLocks({ taskId, attemptId })`. */
  function AfterLockRelease(t: Tables, taskId: string, attemptId: string): Tables {
    t.(locks := map r | r in t.locks && !(t.locks[r].owner.taskId == taskId && t.locks[r].owner.attemptId == Some(attemptId)) :: t.locks[r])
  }

  function AfterSetStatus(t: Tables, taskId: string, status: TaskStatus): Tables {
    if taskId in t.tasks then t.(tasks := t.tasks[taskId := status]) else t
  }

  lemma RequiredNames(locks: seq<ResourceLock>, owner: Owner, resources: seq<string>)
    requires AreRequiredLocks(locks, owner, resources) && "" !in resources
    ensures forall r :: r in resources <==> exists k :: 0 <= k < |locks| && locks[k].resource == r
  {
    hide AscendingResources;
    forall r | r in resources ensures exists k :: 0 <= k < |locks| && locks[k].resource == r {
      assert IsRequired(r, resources);
      var k :| 0 <= k < |locks| && locks[k] == ResourceLock(r, owner);
    }
    forall k | 0 <= k < |locks| ensures locks[k].resource in resources {
      assert locks[k] in locks;
    }
  }

  /** The rows that a list of locks of one owner adds. */
  function RowsOf(requested: seq<ResourceLock>, owner: Owner, acquiredAt: int): map<string, LockRow> {
    var names := set l | l in requested :: l.resource;
    map r | r in names :: LockRow(owner, acquiredAt)
  }

  lemma RowsOfNext(requested: seq<ResourceLock>, next: ResourceLock, owner: Owner, acquiredAt: int)
    ensures RowsOf(requested + [next], owner, acquiredAt) ==
            RowsOf(requested, owner, acquiredAt)[next.resource := LockRow(owner, acquiredAt)]
  {
    var names, more := set l | l in requested :: l.resource, set l | l in requested + [next] :: l.resource;
    assert more == names + {next.resource} by {
      assert next in requested + [next];
    }
  }

  lemma MergeOne(a: map<string, LockRow>, b: map<string, LockRow>, key: string, row: LockRow)
    ensures (a + b)[key := row] == a + b[key := row]
  {
  }

  lemma NewLocksAreRows(requested: seq<ResourceLock>, request: Request)
    requires AreRequiredLocks(requested, OwnerOf(request), request.resources) && "" !in request.resources
    ensures RowsOf(requested, OwnerOf(request), request.claimedAt) == NewLocks(request)
  {
    RequiredNames(requested, OwnerOf(request), request.resources);
    hide AreRequiredLocks;
    forall r ensures r in RowsOf(requested, OwnerOf(request), request.claimedAt) <==> r in request.resources {
      if k :| 0 <= k < |requested| && requested[k].resource == r {
        assert requested[k] in requested;
      }
    }
  }

  class ClaimStore {
    var tasks: map<string, TaskStatus>
    var claims: map<string, Claim>
    var locks: map<string, LockRow>

    ghost function Contents(): Tables
      reads this
    {
      Tables(tasks, claims, locks)
    }

    constructor (tasks: map<string, TaskStatus>)
      ensures Contents() == Tables(tasks, map[], map[])
    {
      this.tasks, claims, locks := tasks, map[], map[];
    }

    /** The checks of the requested locks: whether another owner holds one, and whether one is there at all. */
    method CheckLocks(requested: seq<ResourceLock>, owner: Owner, resources: seq<string>) returns (byOther: bool, present: bool)
      requires AreRequiredLocks(requested, owner, resources) && "" !in resources
      ensures byOther <==> exists r :: r in resources && r in locks && locks[r].owner != owner
      ensures !byOther ==> (present <==> exists r :: r in resources && r in locks)
    {
      hide AscendingResources;
      RequiredNames(requested, owner, resources);
      byOther, present := false, false;
      for i := 0 to |requested|
        invariant !byOther && forall k :: 0 <= k < i && requested[k].resource in locks ==> locks[requested[k].resource].owner == owner
        invariant present <==> exists k :: 0 <= k < i && requested[k].resource in locks
      {
        var resource := requested[i].resource;
        assert requested[i] in requested;
        if resource in locks {
          if locks[resource].owner != requested[i].owner {
            byOther := true;
            return;
          }
          present := true;
        }
      }
    }

    method InsertLocks(requested: seq<ResourceLock>, owner: Owner, resources: seq<string>, acquiredAt: int)
      requires AreRequiredLocks(requested, owner, resources)
      modifies this`locks
      ensures locks == old(locks) + RowsOf(requested, owner, acquiredAt)
    {
      assert RowsOf(requested[..0], owner, acquiredAt) == map[];
      hide RowsOf, AscendingResources, IsRequired;
      for i := 0 to |requested|
        invariant locks == old(locks) + RowsOf(requested[..i], owner, acquiredAt)
      {
        assert requested[..i + 1] == requested[..i] + [requested[i]];
        assert requested[i] in requested;
        RowsOfNext(requested[..i], requested[i], owner, acquiredAt);
        MergeOne(old(locks), RowsOf(requested[..i], owner, acquiredAt), requested[i].resource, LockRow(owner, acquiredAt));
        locks := locks[requested[i].resource := LockRow(requested[i].owner, acquiredAt)];
      }
      assert requested[..|requested|] == requested;
    }

    method ClaimTaskExecution(request: Request) returns (result: ClaimResult)
      modifies this
      ensures result == OutcomeOf(old(Contents()), request)
      ensures Contents() == AfterClaim(old(Contents()), request)
    {
      hide AscendingResources, AreRequiredLocks;
      if |request.taskId| == 0 || |request.executionId| == 0 || request.maxParallelism <= 0 {
        return Rejected;
      }
      if request.taskId !in tasks || tasks[request.taskId] != Ready {
        return TaskNotReady;
      }
      if exists id :: id in claims && claims[id].status == Active && claims[id].taskId == request.taskId {
        return AlreadyClaimed;
      }
      if |set id | id in claims && claims[id].status == Active| >= request.maxParallelism {
        return CapacityExhausted;
      }
      if "" in request.resources {
        return Rejected;
      }
      var owner := Owner(request.taskId, None, Some(request.executionId));
      var requested := RequiredResourceLocks(owner, request.resources);
      var byOther, present := CheckLocks(requested, owner, request.resources);
      if byOther {
        return ResourceUnavailable;
      }
      if request.executionId in claims || present {
        return Rejected;
      }
      var claim := Claim(request.taskId, Active, request.claimedAt, request.claimedAt, request.leaseExpiresAt, None, None);
      claims := claims[request.executionId := claim];
      InsertLocks(requested, owner, request.resources, request.claimedAt);
      NewLocksAreRows(requested, request);
      return Claimed(claim);
    }

    method RenewTaskExecution(id: string, now: int, leaseExpiresAt: int) returns (renewed: bool)
      modifies this`claims
      ensures renewed == CanRenew(old(Contents()), id)
      ensures Contents() == AfterRenew(old(Contents()), id, now, leaseExpiresAt)
    {
      renewed := id in claims && claims[id].status == Active && claims[id].recovery == None;
      if renewed {
        claims := claims[id := claims[id].(renewedAt := now, leaseExpiresAt := leaseExpiresAt)];
      }
    }

    method ClaimExpiredExecutionRecovery(id: string, owner: string, now: int, expiresAt: int) returns (owned: bool)
      modifies this`claims
      ensures owned == CanTakeOver(old(Contents()), id, now)
      ensures Contents() == AfterTakeOver(old(Contents()), id, owner, now, expiresAt)
    {
      owned := id in claims && claims[id].status == Active && claims[id].leaseExpiresAt <= now
        && (claims[id].recovery == None || claims[id].recovery.value.expiresAt <= now);
      if owned {
        claims := claims[id := claims[id].(recovery := Some(Recovery(owner, expiresAt)))];
      }
    }

    /** Throws, that is, answers false, when the ownership is no longer current. */
    method AssertRecoveredExecutionOwner(id: string, owner: string, now: int) returns (current: bool)
      ensures current == OwnsRecovery(Contents(), id, owner, now)
    {
      current := id in claims && claims[id].status == Active
        && claims[id].recovery.Some? && claims[id].recovery.value.owner == owner && claims[id].recovery.value.expiresAt > now;
    }

    method ReleaseTaskExecution(id: string, status: ClaimStatus, now: int) returns (settled: bool)
      requires status != Active
      modifies this`claims, this`locks
      ensures settled == CanRelease(old(Contents()), id, now)
      ensures Contents() == AfterRelease(old(Contents()), id, status, now)
    {
      settled := id in claims && claims[id].status == Active && claims[id].leaseExpiresAt > now && claims[id].recovery == None;
      if settled {
        claims := claims[id := claims[id].(status := status, finishedAt := Some(now))];
        locks := map r | r in locks && locks[r].owner.executionId != Some(id) :: locks[r];
      }
    }

    method ReleaseRecoveredTaskExecution(id: string, owner: string, status: ClaimStatus, now: int) returns (settled: bool)
      requires status != Active
      modifies this`claims, this`locks
      ensures settled == OwnsRecovery(old(Contents()), id, owner, now)
      ensures Contents() == AfterRecoveredRelease(old(Contents()), id, owner, status, now)
    {
      settled := id in claims && claims[id].status == Active
        && claims[id].recovery.Some? && claims[id].recovery.value.owner == owner && claims[id].recovery.value.expiresAt > now;
      if settled {
        claims := claims[id := claims[id].(status := status, finishedAt := Some(now))];
        locks := map r | r in locks && locks[r].owner.executionId != Some(id) :: locks[r];
      }
    }

    method ReleaseResourceLocks(taskId: string, attemptId: string)
      modifies this`locks
      ensures Contents() == AfterLockRelease(old(Contents()), taskId, attemptId)
    {
      locks := map r | r in locks && !(locks[r].owner.taskId == taskId && locks[r].owner.attemptId == Some(attemptId)) :: locks[r];
    }

    method SetTaskStatus(taskId: string, status: TaskStatus)
      modifies this`tasks
      ensures Contents() == AfterSetStatus(old(Contents()), taskId, status)
    {
      if taskId in tasks {
        tasks := tasks[taskId := status];
      }
    }
  }

  // --- The claim transaction refines the pure acquisition policy ---

  /** The held locks as the pure policy sees them: one per row, in any order. */
  ghost predicate ListsLocks(held: seq<ResourceLock>, locks: map<string, LockRow>) {
    && (forall h :: h in held ==> h.resource in locks && locks[h.resource].owner == h.owner)
    && (forall r :: r in locks ==> ResourceLock(r, locks[r].owner) in held)
  }

  /** A request that passed the checks on readiness, active claims and capacity, with proper names and a fresh id. */
  ghost predicate PassesClaimChecks(t: Tables, request: Request) {
    && IsValid(request) && request.taskId in t.tasks && t.tasks[request.taskId] == Ready
    && !HasActiveClaim(t, request.taskId) && |ActiveClaims(t)| < request.maxParallelism
    && "" !in request.resources && request.executionId !in t.claims
    && forall r :: r in t.locks ==> t.locks[r].owner.executionId != Some(request.executionId)
  }

  /** The claim is refused for resources exactly when the policy plans no acquisition. */
  lemma ClaimRefinesPlan(t: Tables, request: Request, held: seq<ResourceLock>)
    requires PassesClaimChecks(t, request) && ListsLocks(held, t.locks)
    ensures OutcomeOf(t, request) == ResourceUnavailable <==>
            exists h :: h in held && Blocks(h, OwnerOf(request), request.resources)
    ensures OutcomeOf(t, request) != ResourceUnavailable ==> OutcomeOf(t, request) == Claimed(NewClaim(request))
  {
    var owner := OwnerOf(request);
    if LockedByOther(t, request) {
      var r :| r in request.resources && r in t.locks && t.locks[r].owner != owner;
      assert Blocks(ResourceLock(r, t.locks[r].owner), owner, request.resources);
    }
    forall h | h in held && Blocks(h, owner, request.resources) ensures LockedByOther(t, request) {
      assert t.locks[h.resource].owner != owner;
    }
  }

  /** The earlier checks refuse exactly what they are for, each only when the ones before it pass. */
  lemma RefusalsAreExact(t: Tables, request: Request)
    ensures var proper := request.taskId != "" && request.executionId != "" && request.maxParallelism > 0;
            var ready := request.taskId in t.tasks && t.tasks[request.taskId] == Ready;
            var claimed := exists id :: id in t.claims && t.claims[id].taskId == request.taskId && t.claims[id].status == Active;
            var free := |set id | id in t.claims && t.claims[id].status == Active| < request.maxParallelism;
            var o := OutcomeOf(t, request);
            && (o == TaskNotReady <==> proper && !ready)
            && (o == AlreadyClaimed <==> proper && ready && claimed)
            && (o == CapacityExhausted <==> proper && ready && !claimed && !free)
            && (o.Claimed? || o == ResourceUnavailable ==> proper && ready && !claimed && free)
  {
    assert ActiveClaims(t) == set id | id in t.claims && t.claims[id].status == Active;
  }

  /** A claim that is not refused adds exactly the planned locks. */
  lemma ClaimAddsPlannedLocks(t: Tables, request: Request, planned: seq<ResourceLock>)
    requires OutcomeOf(t, request).Claimed? && AreRequiredLocks(planned, OwnerOf(request), request.resources)
    ensures var after := AfterClaim(t, request);
            && (forall r :: r in after.locks <==> r in t.locks || exists k :: 0 <= k < |planned| && planned[k].resource == r)
            && (forall k :: 0 <= k < |planned| ==> planned[k].resource !in t.locks)
            && (forall k :: 0 <= k < |planned| ==> after.locks[planned[k].resource] == LockRow(planned[k].owner, request.claimedAt))
            && (forall r :: r in t.locks ==> r in after.locks && after.locks[r] == t.locks[r])
  {
    hide AscendingResources;
    RequiredNames(planned, OwnerOf(request), request.resources);
    forall k | 0 <= k < |planned| ensures planned[k].owner == OwnerOf(request) && planned[k].resource in request.resources {
      assert planned[k] in planned;
    }
  }
}
