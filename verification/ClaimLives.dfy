/**
 * The life of a claim as the steps tell it: who owns it, until when, and how it ended. The tables say the
 * same at every moment, so that a renewal buys what it says and nobody is robbed of a running lease.
 */
module ClaimLives {
  import opened Options
  import opened ClaimTables
  import opened ClaimRuns
  import opened ClaimFencing

  datatype Life =
    | NotYet
    | Working(request: Request, renewedAt: int, lease: int)
    | Recovering(request: Request, renewedAt: int, lease: int, owner: string, until: int)
    | Over(request: Request, status: ClaimStatus, at: int)

  /** One step in the life of a claim; `granted` tells whether a request for it was granted. */
  function Lived(life: Life, step: Step, id: string, now: int, granted: bool): Life {
    match (life, step)
    case (NotYet, Take(r)) =>
      if granted && r.executionId == id then Working(r, r.claimedAt, r.leaseExpiresAt) else life
    case (Working(r, _, _), Renew(c, lease)) =>
      if c == id then Working(r, now, lease) else life
    case (Working(r, renewedAt, lease), TakeOver(c, owner, until)) =>
      if c == id && lease <= now then Recovering(r, renewedAt, lease, owner, until) else life
    case (Recovering(r, renewedAt, lease, _, last), TakeOver(c, owner, until)) =>
      if c == id && lease <= now && last <= now then Recovering(r, renewedAt, lease, owner, until) else life
    case (Working(r, _, lease), Release(c, status)) =>
      if c == id && now < lease then Over(r, status, now) else life
    case (Recovering(r, _, _, owner, until), RecoveredRelease(c, who, status)) =>
      if c == id && who == owner && now < until then Over(r, status, now) else life
    case _ => life
  }

  ghost predicate WasGranted(run: seq<Moment>, id: string, i: nat)
    requires i + 1 < |run|
  {
    id !in run[i].tables.claims && id in run[i + 1].tables.claims
  }

  ghost function LifeOf(run: seq<Moment>, steps: seq<Step>, id: string, i: nat): Life
    requires i < |run| == |steps| + 1
  {
    if i == 0 then NotYet
    else Lived(LifeOf(run, steps, id, i - 1), steps[i - 1], id, run[i - 1].now, WasGranted(run, id, i - 1))
  }

  /** The row of the claim says the same. */
  ghost predicate Tells(t: Tables, id: string, life: Life) {
    match life
    case NotYet => id !in t.claims
    case Working(r, renewedAt, lease) =>
      id in t.claims && t.claims[id] == Claim(r.taskId, Active, r.claimedAt, renewedAt, lease, None, None)
    case Recovering(r, renewedAt, lease, owner, until) =>
      id in t.claims && t.claims[id] == Claim(r.taskId, Active, r.claimedAt, renewedAt, lease, Some(Recovery(owner, until)), None)
    case Over(r, status, at) =>
      id in t.claims && t.claims[id].taskId == r.taskId && t.claims[id].status == status && status != Active && t.claims[id].finishedAt == Some(at)
  }

  lemma StepTells(m: Moment, step: Step, n: Moment, id: string, life: Life)
    requires Next(m, step, n) && Tells(m.tables, id, life)
    ensures Tells(n.tables, id, Lived(life, step, id, m.now, id !in m.tables.claims && id in n.tables.claims))
  {
  }

  /** At every moment the tables tell the life of every claim. */
  lemma {:induction false} TablesTellLives(run: seq<Moment>, steps: seq<Step>, id: string, i: nat)
    requires IsRun(run, steps) && i < |run|
    ensures Tells(run[i].tables, id, LifeOf(run, steps, id, i))
  {
    if i > 0 {
      TablesTellLives(run, steps, id, i - 1);
      hide After, Lived, Tells;
      StepTells(run[i - 1], steps[i - 1], run[i], id, LifeOf(run, steps, id, i - 1));
    }
  }

  // --- What a lease is worth ---

  /** The step gives the worker of the claim a lease. */
  predicate GivesLease(step: Step, id: string, lease: int) {
    match step
    case Take(r) => r.executionId == id && r.leaseExpiresAt == lease
    case Renew(c, given) => c == id && given == lease
    case _ => false
  }

  /** While a worker owns its claim, the lease is the one that the last renewal gave, or the claim itself. */
  lemma {:induction false} LeaseIsTheLastGiven(run: seq<Moment>, steps: seq<Step>, id: string, i: nat) returns (k: nat)
    requires IsRun(run, steps) && i < |run| && OwnerOfClaim(run[i].tables, id) == Some(Worker)
    ensures k < i && GivesLease(steps[k], id, run[i].tables.claims[id].leaseExpiresAt)
    ensures forall j :: k < j < i ==> !(steps[j].Renew? && steps[j].id == id)
  {
    TablesTellLives(run, steps, id, i);
    if i > 0 {
      TablesTellLives(run, steps, id, i - 1);
      hide After;
      if GivesLease(steps[i - 1], id, run[i].tables.claims[id].leaseExpiresAt) && LifeOf(run, steps, id, i - 1) != LifeOf(run, steps, id, i) {
        k := i - 1;
      } else if steps[i - 1].Renew? && steps[i - 1].id == id {
        k := i - 1;
      } else {
        k := LeaseIsTheLastGiven(run, steps, id, i - 1);
      }
    } else {
      assert false;
    }
  }

  /** A claim leaves its worker for a recovery owner only at or after the end of its lease. */
  lemma NobodyIsRobbed(run: seq<Moment>, steps: seq<Step>, id: string, i: nat)
    requires IsRun(run, steps) && i < |steps|
    requires OwnerOfClaim(run[i].tables, id) == Some(Worker)
    requires OwnerOfClaim(run[i + 1].tables, id).Some? && OwnerOfClaim(run[i + 1].tables, id) != Some(Worker)
    ensures run[i].tables.claims[id].leaseExpiresAt <= run[i].now
    ensures steps[i].TakeOver? && steps[i].id == id && OwnerOfClaim(run[i + 1].tables, id) == Some(RecoveryOwner(steps[i].owner))
  {
    TablesTellLives(run, steps, id, i);
    TablesTellLives(run, steps, id, i + 1);
    hide After;
  }

  lemma {:induction false} ClockAdvances(run: seq<Moment>, steps: seq<Step>, i: nat, j: nat)
    requires IsRun(run, steps) && i <= j < |run|
    ensures run[i].now <= run[j].now
    decreases j - i
  {
    if i < j {
      hide After;
      ClockAdvances(run, steps, i, j - 1);
    }
  }

  /** Before its lease ends, a worker that neither settles nor renews owns its claim, with that lease. */
  lemma {:induction false} WorkerOwnsUntilLease(run: seq<Moment>, steps: seq<Step>, id: string, i: nat, j: nat)
    requires IsRun(run, steps) && i <= j < |run| && OwnerOfClaim(run[i].tables, id) == Some(Worker)
    requires run[j].now < run[i].tables.claims[id].leaseExpiresAt
    requires forall k :: i <= k < j ==> !(steps[k].Release? && steps[k].id == id) && !(steps[k].Renew? && steps[k].id == id)
    ensures OwnerOfClaim(run[j].tables, id) == Some(Worker)
    ensures run[j].tables.claims[id].leaseExpiresAt == run[i].tables.claims[id].leaseExpiresAt
    decreases j - i
  {
    if i < j {
      ClockAdvances(run, steps, j - 1, j);
      WorkerOwnsUntilLease(run, steps, id, i, j - 1);
      TablesTellLives(run, steps, id, j - 1);
      TablesTellLives(run, steps, id, j);
      hide After, Next;
      var life, step := LifeOf(run, steps, id, j - 1), steps[j - 1];
      assert life.Working? && LifeOf(run, steps, id, j) == Lived(life, step, id, run[j - 1].now, WasGranted(run, id, j - 1));
      assert Lived(life, step, id, run[j - 1].now, WasGranted(run, id, j - 1)) == life;
    }
  }

  /** A renewal by the worker buys the lease it asks for; one by anybody else buys nothing. */
  lemma RenewalBuysItsLease(run: seq<Moment>, steps: seq<Step>, id: string, i: nat, lease: int)
    requires IsRun(run, steps) && i < |steps| && steps[i] == Renew(id, lease)
    ensures OwnerOfClaim(run[i + 1].tables, id) == OwnerOfClaim(run[i].tables, id)
    ensures OwnerOfClaim(run[i].tables, id) == Some(Worker) ==> run[i + 1].tables.claims[id].leaseExpiresAt == lease
    ensures OwnerOfClaim(run[i].tables, id) != Some(Worker) && id in run[i].tables.claims ==>
              id in run[i + 1].tables.claims && run[i + 1].tables.claims[id] == run[i].tables.claims[id]
  {
    assert Next(run[i], steps[i], run[i + 1]);
    TablesTellLives(run, steps, id, i);
    TablesTellLives(run, steps, id, i + 1);
  }

  /** Whoever asks for an expired claim, and finds no recovery under way, gets it until the moment it asks for. */
  lemma ExpiredIsTakenOver(run: seq<Moment>, steps: seq<Step>, id: string, owner: string, until: int, i: nat)
    requires IsRun(run, steps) && i < |steps| && steps[i] == TakeOver(id, owner, until) && OwnerOfClaim(run[i].tables, id).Some?
    ensures var before, after := run[i].tables.claims[id], run[i + 1].tables;
            if before.leaseExpiresAt <= run[i].now && (before.recovery.None? || before.recovery.value.expiresAt <= run[i].now)
            then OwnerOfClaim(after, id) == Some(RecoveryOwner(owner)) && after.claims[id].recovery.value.expiresAt == until
            else id in after.claims && after.claims[id] == before
  {
    TablesTellLives(run, steps, id, i);
    TablesTellLives(run, steps, id, i + 1);
    hide After;
  }

  /** The owner of a claim settles it with the status it asks for, as long as its own lease lasts; nobody else does. */
  lemma OwnersSettle(run: seq<Moment>, steps: seq<Step>, id: string, i: nat)
    requires IsRun(run, steps) && i < |steps| && OwnerOfClaim(run[i].tables, id).Some?
    ensures var before, after := run[i].tables.claims[id], run[i + 1].tables;
            id in after.claims && (after.claims[id].status != Active <==>
              match steps[i]
              case Release(c, status) => c == id && before.recovery.None? && run[i].now < before.leaseExpiresAt
              case RecoveredRelease(c, who, status) =>
                c == id && before.recovery.Some? && before.recovery.value.owner == who && run[i].now < before.recovery.value.expiresAt
              case _ => false)
    ensures run[i + 1].tables.claims[id].status != Active ==>
              && (steps[i].Release? || steps[i].RecoveredRelease?) && run[i + 1].tables.claims[id].status == steps[i].status
              && run[i + 1].tables.claims[id].finishedAt == Some(run[i].now)
  {
    assert Next(run[i], steps[i], run[i + 1]);
    TablesTellLives(run, steps, id, i);
    TablesTellLives(run, steps, id, i + 1);
    hide After;
  }
}
