/**
 * Undisturbed calls of the queue processor and of its recovery: the steps in the order of the code, and
 * exactly what they amount to when nothing crashes in between (packages/orchestrator/src/integration-queue-processor.ts).
 */
module QueueProcessorRun {
  import opened Options
  import opened TaskStates
  import opened CommitGraph
  import opened GitRepo
  import opened QueueProcessor
  import opened QueueSafety
  import opened QueueOutcomes
  import Q = IntegrationQueue

  /** `settled` tells whether the failure transaction went through; Ambiguous is left to a human. */
  datatype Outcome =
    | Empty
    | BlockedBy(entry: Entry)
    | Processed(entry: Entry)
    | NotProcessed(entry: Entry, settled: bool)
    | Ambiguous(entry: Entry)

  /** The tasks after an entry was settled. */
  function SettledTasks(w: World, e: Entry, done: bool, cancelled: bool, settles: bool): map<string, TaskStatus> {
    if done then w.tasks[e.request.taskId := Done]
    else if settles && TaskIs(w, e, Integrating) then w.tasks[e.request.taskId := if cancelled then Cancelled else Failed]
    else w.tasks
  }

  /** The other entries are as they were, and this one is finished by the settlement, or left as it was when that is rolled back. */
  ghost predicate SettledEntry(before: Q.Queue, after: Q.Queue, e: Entry, outcome: Outcome) {
    var i := Q.IntegratingWithId(before, e.id);
    && i < |before| && |after| == |before|
    && (forall k :: 0 <= k < |before| && k != i ==> after[k] == before[k])
    && (outcome.Processed? ==> after[i].status == Q.CompletedEntry)
    && (outcome.NotProcessed? ==> if outcome.settled then after[i].status == Q.FailedEntry else after == before)
    && (outcome.Processed? || outcome.NotProcessed?)
  }

  /** The settlement ends the work and leaves the repository, the events and the memory alone. */
  ghost predicate Settled(before: World, after: World, e: Entry, outcome: Outcome) {
    && after.phase.Idle? && SettledEntry(before.queue, after.queue, e, outcome)
    && after.events == before.events && after.repo == before.repo && after.tips == before.tips && after.owners == before.owners
  }

  /** HEAD takes the branch exactly when the merge is reached and goes through, and stays otherwise. */
  ghost predicate HeadFits(w: World, a: Answers, e: Entry, n: World) {
    if a.mayLoad && TaskIs(w, e, Integrating) && Merges(w, a, e)
    then BranchExists(n, e) && IsAncestor(n.repo.graph, TipOf(n, e), n.repo.head)
    else n.repo.head == w.repo.head
  }

  /** The success transaction goes through. */
  predicate FinishesTask(w: World) {
    w.phase.Verified? && w.phase.mayFinish && w.phase.e.request.taskId in w.tasks
  }

  class IntegrationQueueProcessor {
    var world: World
    var processing: bool

    constructor (world: World)
      ensures this.world == world && !processing
    {
      this.world, processing := world, false;
    }

    /** One atomic step. */
    method Perform(action: Action)
      requires WorldSound(world)
      modifies `world
      ensures world == After(old(world), action) && WorldSound(world)
    {
      hide After, WorldSound;
      StepKeepsSound(world, action);
      world := After(world, action);
    }

    /** drift.reconcile, the second evaluation and the verification of what was reconciled. */
    method Reconcile(a: Answers)
      requires WorldSound(world)
      modifies `world
      ensures WorldSound(world) && world == ReconcileSteps(old(world), a)
    {
      hide WorldSound, AfterEvaluateDrift, AfterRebase, AfterExamine, AfterVerifyReconciled;
      Perform(EvaluateDrift);
      if world.phase.Drifted? {
        Perform(Rebase(a.rebase));
        if world.phase.Drifted? {
          Perform(Rebase(Stopped));
        }
        if world.phase.Replayed? {
          Perform(Examine);
        }
        if world.phase.Reconciled? {
          Perform(VerifyReconciled(a.reconciled));
        }
      }
    }

    /** The fast-forward, its announcement, and the verification of the integrated revision. */
    method Integrate(a: Answers)
      requires WorldSound(world)
      modifies `world
      ensures WorldSound(world) && world == IntegrateSteps(old(world), a)
    {
      hide WorldSound, AfterMerge, AfterReadHead, AfterAnnounce, AfterVerifyIntegrated;
      if world.phase.Merging? {
        Perform(Merge(a.mergeOk));
        Perform(ReadHead);
      }
      if world.phase.Integrated? {
        Perform(Announce);
        Perform(VerifyIntegrated(a.verified));
      }
    }

    /** settleSuccess, with settleFailure when it throws, or settleFailure alone. */
    method Settle(a: Answers, e: Entry) returns (outcome: Outcome)
      requires WorldSound(world) && (world.phase.Failing? || world.phase.Verified?) && world.phase.e == e
      modifies `world
      ensures WorldSound(world) && Settled(old(world), world, e, outcome)
      ensures outcome == if FinishesTask(old(world)) then Processed(e) else NotProcessed(e, a.settles)
      ensures world.tasks == SettledTasks(old(world), e, FinishesTask(old(world)),
                                          old(world).phase.Failing? && old(world).phase.cancelled, a.settles)
    {
      hide WorldSound, Settled;
      if world.phase.Verified? && FinishesTask(world) {
        SuccessSettles(world, a.now);
        Perform(SettleSuccess(a.now));
        return Processed(e);
      }
      ghost var before := world;
      if world.phase.Verified? {
        RefusedSuccess(world, a.now);
        Perform(SettleSuccess(a.now));
      }
      FailureSettles(world, a);
      Perform(SettleFailure(a.settles, a.now));
      SameSettlement(before, world, e, a.settles);
      return NotProcessed(e, a.settles);
    }

    /**
     * processClaimed: the task is done exactly when the facts of the start and the answers allow it, and
     * HEAD moves exactly when the merge is reached and goes through.
     */
    method ProcessClaimed(a: Answers) returns (outcome: Outcome)
      requires WorldSound(world) && world.phase.Claimed?
      modifies `world
      ensures WorldSound(world) && world.phase.Idle?
      ensures var w, e := old(world), old(world).phase.e;
              && SettledEntry(w.queue, world.queue, e, outcome)
              && outcome == (if Succeeds(w, a, e) then Processed(e) else NotProcessed(e, a.settles))
              && world.tasks == SettledTasks(w, e, Succeeds(w, a, e), IsCancelled(w, a, e), a.settles)
              && HeadFits(w, a, e, world) && world.events == w.events + Records(w, a, e, world.repo.head)
      ensures outcome.Processed? ==> VerifiedIntegration(world, old(world).phase.e.request.taskId)
    {
      var e := world.phase.e;
      hide After, WorldSound, VerifiedIntegration, SettledEntry, Succeeds, IsCancelled, ReconcileSteps, IntegrateSteps, HeadFits, FinishesTask,
        Records;
      ghost var w := world;
      Perform(Check(a.mayLoad));
      if world.phase.Checked? {
        Reconcile(a);
        Integrate(a);
      }
      ghost var settling := world;
      CallEnds(w, a, e, settling);
      if settling.phase.Verified? {
        VerifiedHasEvidence(settling, e);
      }
      outcome := Settle(a, e);
      SameTasks(old(world), settling, e, Succeeds(old(world), a, e), IsCancelled(old(world), a, e), a.settles);
      SameHead(old(world), a, e, settling, world);
      if outcome.Processed? {
        SettlingKeepsEvidence(settling, world, e);
      }
    }

    /** processNext; None when a call is in progress. */
    method ProcessNext(a: Answers) returns (outcome: Option<Outcome>)
      requires WorldSound(world) && world.phase.Idle?
      modifies this
      ensures WorldSound(world) && world.phase.Idle? && processing == old(processing)
      ensures outcome.None? <==> old(processing)
      ensures old(processing) ==> world == old(world)
      ensures !old(processing) && Q.NextToClaim(old(world).queue).None? ==>
                && world == old(world)
                && if Q.FirstWith(world.queue, Q.Integrating) == |world.queue| then outcome == Some(Empty)
                   else outcome.value.BlockedBy? && outcome.value.entry in world.queue && outcome.value.entry.status == Q.Integrating
      ensures !old(processing) && Q.NextToClaim(old(world).queue).Some? ==>
                var w := old(world);
                var e := Q.Started(w.queue[Q.NextToClaim(w.queue).value], a.now);
                && SettledEntry(Q.Claimed(w.queue, a.now), world.queue, e, outcome.value)
                && outcome.value == (if Succeeds(w, a, e) then Processed(e) else NotProcessed(e, a.settles))
                && world.tasks == SettledTasks(w, e, Succeeds(w, a, e), IsCancelled(w, a, e), a.settles)
                && HeadFits(w, a, e, world) && world.events == w.events + Records(w, a, e, world.repo.head)
                && (outcome.value.Processed? ==> VerifiedIntegration(world, e.request.taskId))
    {
      hide WorldSound, VerifiedIntegration, SettledEntry, Succeeds, IsCancelled, HeadFits, Records;
      if processing {
        return None;
      }
      var next := Q.NextToClaim(world.queue);
      if next.None? {
        var active := Q.FirstWith(world.queue, Q.Integrating);
        return Some(if active == |world.queue| then Empty else BlockedBy(world.queue[active]));
      }
      processing := true;
      Perform(ClaimNext(a.now));
      ghost var claimed := world;
      var settled := ProcessClaimed(a);
      SameStart(old(world), claimed, a, claimed.phase.e);
      processing := false;
      return Some(settled);
    }

    method RecoveredEvidence(a: Answers)
      requires WorldSound(world)
      modifies `world
      ensures WorldSound(world) && world == RecoveredSteps(old(world), a)
    {
      hide WorldSound, AfterLoadRecovered, AfterAnnounce, AfterVerifyIntegrated;
      Perform(LoadRecovered(a.mayLoad));
      if world.phase.Integrated? {
        Perform(Announce);
        if world.phase.Announced? {
          Perform(VerifyIntegrated(a.verified));
        }
      }
    }

    /** settleAlreadyIntegrated and verifyAndSettleIntegrated. */
    method SettleIntegrated(a: Answers) returns (outcome: Outcome)
      requires WorldSound(world) && world.phase.Recovered?
      modifies `world
      ensures WorldSound(world) && world.phase.Idle? && world.repo == old(world).repo
      ensures SettledEntry(old(world).queue, world.queue, old(world).phase.e, outcome)
      ensures outcome == if MayFinishRecovered(old(world), a) then Processed(old(world).phase.e) else NotProcessed(old(world).phase.e, a.settles)
      ensures world.tasks == SettledTasks(old(world), old(world).phase.e, MayFinishRecovered(old(world), a), RecoveredIsCancelled(old(world), a), a.settles)
      ensures world.events == old(world).events + RecoveredRecords(old(world), a, old(world).phase.e, old(world).phase.revision, old(world).phase.verified)
    {
      var e := world.phase.e;
      hide RecoveredRecords, WorldSound, SettledEntry, RecoveredSteps, MayFinishRecovered, RecoveredIsCancelled;
      RecoveredComesTo(world, a);
      RecoveredEvidence(a);
      ghost var settling := world;
      hide FinishesTask;
      outcome := Settle(a, e);
      RecoveredTasks(old(world), settling, a);
    }

    /**
     * recoverAbandoned for one entry: integrated work is settled without another merge, and verified unless
     * that is recorded at HEAD; other work is taken up again as it was enqueued; without its branch it is left alone.
     */
    method RecoverEntry(id: string, a: Answers) returns (outcome: Outcome)
      requires WorldSound(world) && world.phase.Idle? && Q.IntegratingWithId(world.queue, id) < |world.queue|
      modifies `world
      ensures WorldSound(world) && world.phase.Idle?
      ensures RecoveredAs(old(world), a, old(world).queue[Q.IntegratingWithId(old(world).queue, id)], world, outcome)
    {
      hide WorldSound, SettledEntry, HeadFits, VerifiedIntegration, Succeeds, IsCancelled, IsContained, IsAncestor, SettledTasks, Records,
        HasPassed;
      ghost var w := world;
      var e := world.queue[Q.IntegratingWithId(world.queue, id)];
      RecoverExact(w, id, e);
      Perform(Recover(id));
      ghost var found := world;
      if world.phase.Recovered? {
        outcome := SettleIntegrated(a);
        SameRecovery(w, found, a, e);
      } else if world.phase.Requeuing? {
        outcome := TakeUpAgain(id, a);
        SameStart(w, found, a, e);
      } else {
        outcome := Ambiguous(e);
      }
    }

    /** requeueNotIntegrated: the entry is requeued, claimed again and processed as it was enqueued. */
    method TakeUpAgain(id: string, a: Answers) returns (outcome: Outcome)
      requires WorldSound(world) && world.phase.Requeuing? && world.phase.e.id == id && Q.IntegratingWithId(world.queue, id) < |world.queue|
      modifies `world
      ensures WorldSound(world) && world.phase.Idle?
      ensures var w, e := old(world), old(world).queue[Q.IntegratingWithId(old(world).queue, id)];
              && (outcome.Processed? <==> Succeeds(w, a, e)) && (outcome.Processed? || outcome.NotProcessed?)
              && world.tasks == SettledTasks(w, e, Succeeds(w, a, e), IsCancelled(w, a, e), a.settles)
              && world.events == w.events + Records(w, a, e, world.repo.head)
    {
      hide WorldSound, SettledEntry, HeadFits, VerifiedIntegration, Succeeds, IsCancelled, Records, AfterRequeue, AfterReclaim, SettledTasks, Q.IntegratingWithId;
      ghost var w := world;
      ghost var e := w.queue[Q.IntegratingWithId(w.queue, id)];
      TakesUpAgain(world, id, a.now);
      Perform(Requeue);
      Perform(Reclaim(a.now));
      ghost var claimed := world;
      outcome := ProcessClaimed(a);
      SameStart(w, claimed, a, claimed.phase.e);
      SameRequest(w, a, e, claimed.phase.e);
    }
  }

  // --- Settlements ---

  lemma AtSettlement(w: World)
    requires WorldSound(w) && (w.phase.Failing? || w.phase.Verified?)
    ensures IsIntegrating(w, w.phase.e)
  {
    hide RepoSound, Q.QueueInvariant, Remembered, PhaseFacts, KnownEntry;
  }

  lemma SuccessSettles(w: World, now: int)
    requires WorldSound(w) && FinishesTask(w)
    ensures var n, e := After(w, SettleSuccess(now)), w.phase.e;
            Settled(w, n, e, Processed(e)) && n.tasks == w.tasks[e.request.taskId := Done]
  {
    AtSettlement(w);
    hide WorldSound;
  }

  /** A success transaction that throws leaves the failure to be recorded. */
  lemma RefusedSuccess(w: World, now: int)
    requires w.phase.Verified? && !FinishesTask(w)
    ensures After(w, SettleSuccess(now)) == w.(phase := Failing(w.phase.e, false))
  {
  }

  lemma FailureSettles(w: World, a: Answers)
    requires WorldSound(w) && w.phase.Failing?
    ensures var n, e := After(w, SettleFailure(a.settles, a.now)), w.phase.e;
            Settled(w, n, e, NotProcessed(e, a.settles)) && n.tasks == SettledTasks(w, e, false, w.phase.cancelled, a.settles)
  {
    AtSettlement(w);
    hide WorldSound;
  }

  /** Whatever a call throws, and wherever, its entry is settled as failed, with its task, and nothing else changes. */
  lemma ThrownWorkFails(w: World, a: Answers)
    requires WorldSound(w) && !w.phase.Idle? && !w.phase.Failing? && !w.phase.Requeuing? && !w.phase.Reclaiming?
    ensures var n, e := After(After(w, Throw), SettleFailure(a.settles, a.now)), w.phase.e;
            Settled(w, n, e, NotProcessed(e, a.settles)) && n.tasks == SettledTasks(w, e, false, false, a.settles)
  {
    hide WorldSound, Settled, SettledTasks;
    var m := After(w, Throw);
    StepKeepsSound(w, Throw);
    assert m == w.(phase := Failing(w.phase.e, false));
    hide After;
    FailureSettles(m, a);
    SameThrow(w, m, After(m, SettleFailure(a.settles, a.now)), a);
  }

  lemma SameThrow(w: World, m: World, n: World, a: Answers)
    requires !w.phase.Idle? && m == w.(phase := Failing(w.phase.e, false))
    ensures Settled(m, n, w.phase.e, NotProcessed(w.phase.e, a.settles)) ==> Settled(w, n, w.phase.e, NotProcessed(w.phase.e, a.settles))
    ensures SettledTasks(m, w.phase.e, false, false, a.settles) == SettledTasks(w, w.phase.e, false, false, a.settles)
  {
  }

  lemma SameSettlement(before: World, after: World, e: Entry, settles: bool)
    ensures Settled(before.(phase := Failing(e, false)), after, e, NotProcessed(e, settles)) ==> Settled(before, after, e, NotProcessed(e, settles))
    ensures forall cancelled :: SettledTasks(before.(phase := Failing(e, false)), e, false, cancelled, settles)
                                == SettledTasks(before, e, false, cancelled, settles)
  {
  }

  lemma SameTasks(w: World, n: World, e: Entry, done: bool, cancelled: bool, settles: bool)
    requires n.tasks == w.tasks
    ensures SettledTasks(n, e, done, cancelled, settles) == SettledTasks(w, e, done, cancelled, settles)
  {
  }

  lemma EndFacts(w: World, a: Answers, e: Entry, n: World)
    requires ComesTo(w, a, e, n) && w.phase == Claimed(e)
    ensures n.tasks == w.tasks && n.queue == w.queue && (n.phase.Failing? || n.phase.Verified?) && n.phase.e == e
    ensures FinishesTask(n) <==> Succeeds(w, a, e)
    ensures n.phase.Failing? ==> n.phase.cancelled == IsCancelled(w, a, e)
    ensures n.phase.Verified? <==> Succeeds(w, a, e)
    ensures HeadFits(w, a, e, n) && n.events == w.events + Records(w, a, e, n.repo.head)
  {
    hide NothingToMerge, Merges, IsAncestor, IsCancelled, Records;
  }

  lemma CallEnds(w: World, a: Answers, e: Entry, n: World)
    requires w.phase == Claimed(e) && WorldSound(w)
    requires var c := After(w, Check(a.mayLoad)); n == if c.phase.Checked? then IntegrateSteps(ReconcileSteps(c, a), a) else c
    ensures n.tasks == w.tasks && n.queue == w.queue && (n.phase.Failing? || n.phase.Verified?) && n.phase.e == e
    ensures FinishesTask(n) <==> Succeeds(w, a, e)
    ensures n.phase.Failing? ==> n.phase.cancelled == IsCancelled(w, a, e)
    ensures n.phase.Verified? <==> Succeeds(w, a, e)
    ensures HeadFits(w, a, e, n) && n.events == w.events + Records(w, a, e, n.repo.head)
  {
    hide ComesTo, WorldSound, Succeeds, IsCancelled, HeadFits, FinishesTask, AfterCheck, ReconcileSteps, IntegrateSteps, Records;
    CallComesTo(w, a, e);
    EndFacts(w, a, e, n);
  }

  lemma SameHead(w: World, a: Answers, e: Entry, n: World, m: World)
    requires HeadFits(w, a, e, n) && m.repo == n.repo
    ensures HeadFits(w, a, e, m)
  {
    hide Merges, IsAncestor;
  }

  /** The facts of a call are the same before and after the claim of its entry. */
  lemma SameStart(w: World, n: World, a: Answers, e: Entry)
    requires n.repo == w.repo && n.tasks == w.tasks
    ensures Succeeds(n, a, e) == Succeeds(w, a, e) && IsCancelled(n, a, e) == IsCancelled(w, a, e)
    ensures forall m :: HeadFits(n, a, e, m) == HeadFits(w, a, e, m)
    ensures forall head :: Records(n, a, e, head) == Records(w, a, e, head)
    ensures forall done, cancelled, settles :: SettledTasks(n, e, done, cancelled, settles) == SettledTasks(w, e, done, cancelled, settles)
  {
    SameFacts(w, n, a, e);
    SameRebase(w, n, e, a.rebase);
    hide NothingToMerge, Merges, IsAncestor, RebaseWorks, LeavesWork, HasDrifted, TaskIs, ReconciliationRecord, IntegrationRecord;
  }

  // --- Evidence ---

  lemma VerifiedHasEvidence(w: World, e: Entry)
    requires WorldSound(w) && w.phase.Verified? && w.phase.e == e
    ensures VerifiedIntegration(w, e.request.taskId)
  {
    hide RepoSound, Q.QueueInvariant, Remembered, Contained, KnownEntry, HasPassed;
    var p := w.phase;
    assert KnownEntry(w, e) && Contained(w, e, p.included, p.revision) && HasPassed(w.events, e.request.attemptId, p.revision);
  }

  lemma SettlingKeepsEvidence(w: World, n: World, e: Entry)
    requires VerifiedIntegration(w, e.request.taskId)
    requires n.events == w.events && n.repo == w.repo && n.tips == w.tips && n.owners == w.owners
    ensures VerifiedIntegration(n, e.request.taskId)
  {
    hide HasPassed, IsAncestor;
    var f: Entry, included, revision :|
      && f.request.taskId == e.request.taskId && KnownEntry(w, f)
      && Contained(w, f, included, revision) && HasPassed(w.events, f.request.attemptId, revision);
    assert KnownEntry(n, f) && Contained(n, f, included, revision) && HasPassed(n.events, f.request.attemptId, revision);
  }

  // --- Recovery of an entry ---

  /** The steps from the recovered entry to its settlement. */
  function RecoveredSteps(w: World, a: Answers): World {
    var n := AfterLoadRecovered(w, a.mayLoad);
    if !n.phase.Integrated? then n
    else
      var m := AfterAnnounce(n);
      if m.phase.Announced? then AfterVerifyIntegrated(m, a.verified) else m
  }

  /** Recovered work is done when its task still is to be integrated, and it has been verified, or is now. */
  predicate MayFinishRecovered(w: World, a: Answers)
    requires w.phase.Recovered?
  {
    a.mayLoad && TaskIs(w, w.phase.e, Integrating) && (w.phase.verified || a.verified.Passed?)
  }

  /** What recovery records of integrated work: its completion unless that is recorded, and the verdict unless it is known to have passed. */
  ghost function RecoveredRecords(w: World, a: Answers, e: Entry, revision: string, verified: bool): seq<Event> {
    if !a.mayLoad || e.request.taskId !in w.tasks then []
    else
      (if exists r :: IntegrationCompleted(e.request.attemptId, r) in w.events then [] else [IntegrationCompleted(e.request.attemptId, revision)])
      + if verified || a.verified.NotRun? then [] else [IntegrationVerified(e.request.attemptId, revision, a.verified.Passed?)]
  }

  lemma CompletedIsRecorded(events: seq<Event>, attemptId: string)
    ensures HasCompleted(events, attemptId) <==> exists r :: IntegrationCompleted(attemptId, r) in events
  {
    if HasCompleted(events, attemptId) {
      var i :| 0 <= i < |events| && events[i].IntegrationCompleted? && events[i].attemptId == attemptId;
      assert events[i] == IntegrationCompleted(attemptId, events[i].revision);
    }
  }

  predicate RecoveredIsCancelled(w: World, a: Answers)
    requires w.phase.Recovered?
  {
    a.mayLoad && !w.phase.verified && a.verified.ChecksCancelled?
  }

  lemma RecoveredComesTo(w: World, a: Answers)
    requires w.phase.Recovered?
    ensures var n, e := RecoveredSteps(w, a), w.phase.e;
            && n.tasks == w.tasks && n.queue == w.queue && n.repo == w.repo && (n.phase.Verified? || n.phase.Failing?) && n.phase.e == e
            && (FinishesTask(n) <==> MayFinishRecovered(w, a))
            && (n.phase.Failing? && TaskIs(w, e, Integrating) ==> n.phase.cancelled == RecoveredIsCancelled(w, a))
            && (n.phase.Verified? && !MayFinishRecovered(w, a) ==> !TaskIs(w, e, Integrating))
            && n.events == w.events + RecoveredRecords(w, a, e, w.phase.revision, w.phase.verified)
  {
    CompletedIsRecorded(w.events, w.phase.e.request.attemptId);
    hide HasCompleted;
  }

  lemma RecoveredTasks(w: World, n: World, a: Answers)
    requires w.phase.Recovered? && n.tasks == w.tasks
    requires n.phase.Failing? && TaskIs(w, w.phase.e, Integrating) ==> n.phase.cancelled == RecoveredIsCancelled(w, a)
    requires n.phase.Verified? && !MayFinishRecovered(w, a) ==> !TaskIs(w, w.phase.e, Integrating)
    requires n.phase.Failing? || n.phase.Verified?
    ensures SettledTasks(n, w.phase.e, MayFinishRecovered(w, a), n.phase.Failing? && n.phase.cancelled, a.settles)
            == SettledTasks(w, w.phase.e, MayFinishRecovered(w, a), RecoveredIsCancelled(w, a), a.settles)
  {
    hide MayFinishRecovered, RecoveredIsCancelled;
  }

  /** What the recovery of an entry comes to, from the facts it starts with. */
  ghost predicate RecoveredAs(w: World, a: Answers, e: Entry, n: World, outcome: Outcome) {
    var passed := HasPassed(w.events, e.request.attemptId, w.repo.head);
    if IsContained(w, e) then
      var done := a.mayLoad && TaskIs(w, e, Integrating) && (passed || a.verified.Passed?);
      && n.repo == w.repo && (outcome.Processed? <==> done) && (outcome.Processed? || outcome.NotProcessed?)
      && n.tasks == SettledTasks(w, e, done, a.mayLoad && !passed && a.verified.ChecksCancelled?, a.settles)
      && n.events == w.events + RecoveredRecords(w, a, e, w.repo.head, passed)
    else if BranchExists(w, e) then
      && (outcome.Processed? <==> Succeeds(w, a, e)) && (outcome.Processed? || outcome.NotProcessed?)
      && n.tasks == SettledTasks(w, e, Succeeds(w, a, e), IsCancelled(w, a, e), a.settles)
      && n.events == w.events + Records(w, a, e, n.repo.head)
    else n == w && outcome == Ambiguous(e)
  }

  lemma RecoverExact(w: World, id: string, e: Entry)
    requires w.phase.Idle? && Q.IntegratingWithId(w.queue, id) < |w.queue| && e == w.queue[Q.IntegratingWithId(w.queue, id)]
    ensures var n := AfterRecover(w, id);
            && n == w.(phase := n.phase) && e.id == id
            && if IsContained(w, e) then n.phase == Recovered(e, w.repo.head, HasPassed(w.events, e.request.attemptId, w.repo.head))
               else if BranchExists(w, e) then n.phase == Requeuing(e)
               else n == w
  {
    hide IsAncestor, HasPassed;
  }

  lemma SameRecovery(w: World, n: World, a: Answers, e: Entry)
    requires n == w.(phase := Recovered(e, w.repo.head, HasPassed(w.events, e.request.attemptId, w.repo.head)))
    ensures forall done, cancelled :: SettledTasks(n, e, done, cancelled, a.settles) == SettledTasks(w, e, done, cancelled, a.settles)
    ensures MayFinishRecovered(n, a) ==
            (a.mayLoad && TaskIs(w, e, Integrating) && (HasPassed(w.events, e.request.attemptId, w.repo.head) || a.verified.Passed?))
    ensures forall revision, verified :: RecoveredRecords(n, a, e, revision, verified) == RecoveredRecords(w, a, e, revision, verified)
    ensures RecoveredIsCancelled(n, a) ==
            (a.mayLoad && !HasPassed(w.events, e.request.attemptId, w.repo.head) && a.verified.ChecksCancelled?)
  {
    hide HasPassed;
  }

  /** After a requeue the same entry is claimed again. */
  lemma TakesUpAgain(w: World, id: string, now: int)
    requires WorldSound(w) && w.phase.Requeuing? && w.phase.e.id == id && Q.IntegratingWithId(w.queue, id) < |w.queue|
    ensures var n, e := AfterReclaim(AfterRequeue(w), now), w.queue[Q.IntegratingWithId(w.queue, id)];
            && n.phase.Claimed? && n.phase.e.id == id && n.phase.e.request == e.request
            && n.repo == w.repo && n.tasks == w.tasks && n.events == w.events
  {
    Q.RequeueThenClaim(w.queue, id, []);
    hide WorldSound, Q.NextToClaim, Q.IntegratingWithId;
  }

  /** What a call comes to depends on the entry by its request only. */
  lemma SameRequest(w: World, a: Answers, e: Entry, f: Entry)
    requires f.request == e.request
    ensures Succeeds(w, a, f) == Succeeds(w, a, e) && IsCancelled(w, a, f) == IsCancelled(w, a, e)
    ensures forall done, cancelled, settles :: SettledTasks(w, f, done, cancelled, settles) == SettledTasks(w, e, done, cancelled, settles)
    ensures forall head :: Records(w, a, f, head) == Records(w, a, e, head)
  {
    hide IsAncestor, IsReplay;
  }
}
