/**
 * What one undisturbed call of the queue processor comes to, from the facts it starts with: the state of
 * the repository and the queue, and what Git, the checks and the store answer.
 */
module QueueOutcomes {
  import opened TaskStates
  import opened CommitGraph
  import opened GitRepo
  import opened QueueProcessor
  import opened QueueSafety
  import Q = IntegrationQueue

  /** What Git, the checks and the store answer during the call. */
  datatype Answers = Answers(
    now: int, mayLoad: bool, rebase: RebaseResult, reconciled: CheckResult, mergeOk: bool, verified: CheckResult, settles: bool)

  predicate TaskIs(w: World, e: Entry, status: TaskStatus) {
    e.request.taskId in w.tasks && w.tasks[e.request.taskId] == status
  }

  /** The enqueued revision is in the integration history. */
  predicate IsContained(w: World, e: Entry) {
    IsAncestor(w.repo.graph, e.request.taskRevision, w.repo.head)
  }

  /** HEAD has left the base of the attempt, and the histories of both still fit the revision. */
  predicate HasDrifted(w: World, e: Entry) {
    && !IsContained(w, e) && IsAncestor(w.repo.graph, e.request.baseRevision, e.request.taskRevision)
    && w.repo.head != e.request.baseRevision && IsAncestor(w.repo.graph, e.request.baseRevision, w.repo.head)
  }

  /** HEAD is still the base of the attempt. */
  predicate IsCurrent(w: World, e: Entry) {
    && !IsContained(w, e) && IsAncestor(w.repo.graph, e.request.baseRevision, e.request.taskRevision)
    && w.repo.head == e.request.baseRevision
  }

  /** The rebase onto HEAD goes through. */
  predicate RebaseWorks(w: World, e: Entry, result: RebaseResult) {
    BranchExists(w, e) &&
    match result
    case UpToDate => IsAncestor(w.repo.graph, w.repo.head, TipOf(w, e))
    case Replay(changes, shas) => IsReplay(w.repo.graph, TipOf(w, e), w.repo.head, changes, shas)
    case Stopped => false
  }

  /** The rebase leaves something to integrate. */
  predicate LeavesWork(w: World, e: Entry, result: RebaseResult)
    requires RebaseWorks(w, e, result)
  {
    if result.UpToDate? then TipOf(w, e) != w.repo.head else result.shas != []
  }

  /** The reconciliation ends with a fast-forward to try. */
  predicate ReachesMerge(w: World, a: Answers, e: Entry) {
    || IsCurrent(w, e)
    || (HasDrifted(w, e) && RebaseWorks(w, e, a.rebase) && LeavesWork(w, e, a.rebase) && a.reconciled.Passed?)
  }

  /** The reconciliation finds nothing left to merge. */
  predicate NothingToMerge(w: World, a: Answers, e: Entry) {
    IsContained(w, e) || (HasDrifted(w, e) && RebaseWorks(w, e, a.rebase) && !LeavesWork(w, e, a.rebase))
  }

  /** Git takes the branch as a fast-forward; after a rebase it always can. */
  predicate Merges(w: World, a: Answers, e: Entry) {
    && ReachesMerge(w, a, e) && a.mergeOk && BranchExists(w, e)
    && (IsCurrent(w, e) ==> IsAncestor(w.repo.graph, w.repo.head, TipOf(w, e)) || IsAncestor(w.repo.graph, TipOf(w, e), w.repo.head))
  }

  /** The call ends with the task done. */
  predicate Succeeds(w: World, a: Answers, e: Entry) {
    a.mayLoad && TaskIs(w, e, Integrating) && (NothingToMerge(w, a, e) || Merges(w, a, e)) && a.verified.Passed?
  }

  /** The call ends because checks were cancelled: those of the rebased branch, or those of the integrated revision. */
  predicate IsCancelled(w: World, a: Answers, e: Entry) {
    && a.mayLoad && TaskIs(w, e, Integrating)
    && if NothingToMerge(w, a, e) || Merges(w, a, e) then a.verified.ChecksCancelled?
       else HasDrifted(w, e) && RebaseWorks(w, e, a.rebase) && LeavesWork(w, e, a.rebase) && a.reconciled.ChecksCancelled?
  }

  // --- What is recorded ---

  /** The tip of the branch after the rebase. */
  function TipAfterRebase(w: World, e: Entry, result: RebaseResult): string
    requires RebaseWorks(w, e, result)
  {
    if result.UpToDate? then TipOf(w, e) else if result.shas == [] then w.repo.head else result.shas[|result.shas| - 1]
  }

  /** The verdict on the rebased branch. */
  function ReconciliationRecord(w: World, a: Answers, e: Entry): seq<Event> {
    if HasDrifted(w, e) && RebaseWorks(w, e, a.rebase) && LeavesWork(w, e, a.rebase) && !a.reconciled.NotRun? then
      [ReconciliationVerified(e.request.attemptId, TipAfterRebase(w, e, a.rebase), a.reconciled.Passed?)]
    else []
  }

  /** The integration of a revision, and the verdict on it. */
  function IntegrationRecord(a: Answers, e: Entry, revision: string): seq<Event> {
    [IntegrationCompleted(e.request.attemptId, revision)]
    + if a.verified.NotRun? then [] else [IntegrationVerified(e.request.attemptId, revision, a.verified.Passed?)]
  }

  /** All that a call records, when it leaves this HEAD. */
  function Records(w: World, a: Answers, e: Entry, head: string): seq<Event> {
    if a.mayLoad && TaskIs(w, e, Integrating) then
      ReconciliationRecord(w, a, e) + if NothingToMerge(w, a, e) || Merges(w, a, e) then IntegrationRecord(a, e, head) else []
    else []
  }

  // --- The steps ---

  /** What the reconciliation leads to. */
  ghost predicate Reconciles(w: World, a: Answers, e: Entry, n: World) {
    && n.tasks == w.tasks && n.queue == w.queue && n.repo.head == w.repo.head && n.events == w.events + ReconciliationRecord(w, a, e)
    && (NothingToMerge(w, a, e) ==>
          n.phase.Integrated? && n.phase.e == e && n.phase.revision == n.repo.head && !n.phase.recovered && !n.phase.verified && n.phase.mayFinish)
    && (ReachesMerge(w, a, e) ==> n.phase == Merging(e) && (BranchExists(n, e) <==> BranchExists(w, e)))
    && (ReachesMerge(w, a, e) && IsCurrent(w, e) ==> n.repo == w.repo)
    && (ReachesMerge(w, a, e) && !IsCurrent(w, e) ==> BranchExists(n, e) && IsAncestor(n.repo.graph, n.repo.head, TipOf(n, e)))
    && (!NothingToMerge(w, a, e) && !ReachesMerge(w, a, e) ==>
          n.phase == Failing(e, HasDrifted(w, e) && RebaseWorks(w, e, a.rebase) && LeavesWork(w, e, a.rebase) && a.reconciled.ChecksCancelled?))
  }

  /** The rebase, tried again as a failure when Git's answer does not fit. */
  function RebaseStep(w: World, result: RebaseResult): World {
    var n := AfterRebase(w, result);
    if n.phase.Drifted? then AfterRebase(n, Stopped) else n
  }

  lemma EvaluateExact(w: World, e: Entry)
    requires w.phase == Checked(e)
    ensures var n := AfterEvaluateDrift(w);
            && n == w.(phase := n.phase)
            && (IsContained(w, e) ==> n.phase == Integrated(e, e.request.taskRevision, w.repo.head, false, false, true))
            && (IsCurrent(w, e) ==> n.phase == Merging(e))
            && (HasDrifted(w, e) ==> n.phase == Drifted(e, w.repo.head))
            && (!IsContained(w, e) && !IsCurrent(w, e) && !HasDrifted(w, e) ==> n.phase == Failing(e, false))
  {
    hide IsAncestor;
  }

  /** The branch after a replay that fits. */
  lemma ReplayedBranch(w: World, e: Entry, changes: seq<Change>, shas: seq<string>)
    requires RepoSound(w.repo) && RebaseWorks(w, e, Replay(changes, shas))
    ensures var g, t := WithChain(w.repo.graph, w.repo.head, changes, shas), ChainTip(w.repo.head, shas);
            IsAncestor(g, w.repo.head, t) && (t != w.repo.head <==> shas != [])
  {
    assert WellFormed(w.repo.graph) && w.repo.head in w.repo.graph && IsAncestor(w.repo.graph, w.repo.head, w.repo.head);
    ChainHistory(w.repo.graph, w.repo.head, changes, shas);
    assert shas != [] ==> shas[|shas| - 1] !in w.repo.graph;
    hide IsAncestor, WithChain, KeepsPatches, IsOwnPatch, WellFormed, BranchSound, Unique;
  }

  /** What a rebase that goes through leaves behind. */
  ghost predicate RebaseDone(w: World, e: Entry, result: RebaseResult, n: World)
    requires RebaseWorks(w, e, result)
  {
    && n.phase == Replayed(e, w.repo.head) && BranchExists(n, e) && IsAncestor(n.repo.graph, n.repo.head, TipOf(n, e))
    && (LeavesWork(w, e, result) <==> TipOf(n, e) != n.repo.head)
    && TipOf(n, e) == TipAfterRebase(w, e, result)
  }

  lemma UpToDateExact(w: World, e: Entry)
    requires w.phase == Drifted(e, w.repo.head) && RebaseWorks(w, e, RebaseResult.UpToDate)
    ensures var n := AfterRebase(w, RebaseResult.UpToDate);
            n == w.(phase := Replayed(e, w.repo.head)) && RebaseDone(w, e, RebaseResult.UpToDate, n)
  {
    hide IsAncestor;
  }

  lemma ReplayExact(w: World, e: Entry, changes: seq<Change>, shas: seq<string>)
    requires w.phase == Drifted(e, w.repo.head) && RepoSound(w.repo) && RebaseWorks(w, e, Replay(changes, shas))
    ensures var n := AfterRebase(w, Replay(changes, shas));
            n.tasks == w.tasks && n.queue == w.queue && n.repo.head == w.repo.head && n.events == w.events
            && RebaseDone(w, e, Replay(changes, shas), n)
  {
    hide RepoSound, IsAncestor, WithChain, IsReplay;
    ReplayedBranch(w, e, changes, shas);
    HeadIsThere(w);
  }

  lemma HeadIsThere(w: World)
    requires RepoSound(w.repo)
    ensures w.repo.head in w.repo.graph
  {
  }

  lemma NoRebaseExact(w: World, e: Entry, result: RebaseResult)
    requires w.phase == Drifted(e, w.repo.head) && !RebaseWorks(w, e, result)
    ensures RebaseStep(w, result) == w.(phase := Failing(e, false))
  {
    hide IsAncestor, IsReplay, Rebased;
  }

  lemma RebaseExact(w: World, e: Entry, result: RebaseResult)
    requires w.phase == Drifted(e, w.repo.head) && RepoSound(w.repo)
    ensures var n := RebaseStep(w, result);
            && n.tasks == w.tasks && n.queue == w.queue && n.repo.head == w.repo.head && n.events == w.events
            && (RebaseWorks(w, e, result) ==> RebaseDone(w, e, result, n))
            && (!RebaseWorks(w, e, result) ==> n.phase == Failing(e, false))
  {
    if !RebaseWorks(w, e, result) {
      NoRebaseExact(w, e, result);
    } else {
      match result
      case UpToDate => UpToDateExact(w, e);
      case Replay(changes, shas) => ReplayExact(w, e, changes, shas);
      hide AfterRebase, RepoSound, IsAncestor;
    }
  }

  lemma ExamineExact(w: World, e: Entry)
    requires w.phase == Replayed(e, w.repo.head) && RepoSound(w.repo) && BranchExists(w, e)
    requires IsAncestor(w.repo.graph, w.repo.head, TipOf(w, e))
    ensures AfterExamine(w) == w.(phase := if TipOf(w, e) == w.repo.head then Integrated(e, w.repo.head, w.repo.head, false, false, true)
                                           else Reconciled(e))
  {
    assert w.repo.head in w.repo.graph && TipOf(w, e) in w.repo.graph;
    if IsAncestor(w.repo.graph, TipOf(w, e), w.repo.head) {
      AncestorAntisymmetric(w.repo.graph, TipOf(w, e), w.repo.head);
    }
    hide IsAncestor, RepoSound;
  }

  /** drift.reconcile, the second evaluation and the verification of what was reconciled. */
  function ReconcileSteps(w: World, a: Answers): World {
    var n := AfterEvaluateDrift(w);
    if n.phase.Drifted? then RebasedSteps(n, a) else n
  }

  lemma VerifyReconciledExact(w: World, e: Entry, outcome: CheckResult)
    requires w.phase == Reconciled(e) && BranchExists(w, e)
    ensures var n := AfterVerifyReconciled(w, outcome);
            && n.tasks == w.tasks && n.queue == w.queue && n.repo == w.repo
            && n.events == w.events + (if outcome.NotRun? then [] else [ReconciliationVerified(e.request.attemptId, TipOf(w, e), outcome.Passed?)])
            && n.phase == if outcome.Passed? then Merging(e) else Failing(e, outcome.ChecksCancelled?)
  {
  }

  lemma DriftedReconciles(w: World, a: Answers, e: Entry)
    requires w.phase == Checked(e) && WorldSound(w) && HasDrifted(w, e)
    ensures Reconciles(w, a, e, ReconcileSteps(w, a))
  {
    EvaluateExact(w, e);
    var n := AfterEvaluateDrift(w);
    assert n == w.(phase := Drifted(e, w.repo.head));
    SameRebase(w, n, e, a.rebase);
    EvaluateStaysSound(w);
    RebasedReconciles(n, a, e);
    hide AfterEvaluateDrift, RebasedSteps, IsAncestor, RebaseWorks, LeavesWork, WorldSound;
  }

  lemma SameRebase(w: World, n: World, e: Entry, result: RebaseResult)
    requires n.repo == w.repo
    ensures RebaseWorks(n, e, result) == RebaseWorks(w, e, result)
    ensures RebaseWorks(w, e, result) ==>
              LeavesWork(n, e, result) == LeavesWork(w, e, result) && TipAfterRebase(n, e, result) == TipAfterRebase(w, e, result)
  {
    hide IsAncestor, IsReplay;
  }

  lemma EvaluateStaysSound(w: World)
    requires WorldSound(w)
    ensures WorldSound(AfterEvaluateDrift(w))
  {
    hide WorldSound, Grows;
    StepKeepsSound(w, EvaluateDrift);
  }

  /** The steps from the rebase on. */
  function RebasedSteps(w: World, a: Answers): World {
    var m := RebaseStep(w, a.rebase);
    var k := if m.phase.Replayed? then AfterExamine(m) else m;
    if k.phase.Reconciled? then AfterVerifyReconciled(k, a.reconciled) else k
  }

  lemma RebasedReconciles(w: World, a: Answers, e: Entry)
    requires w.phase == Drifted(e, w.repo.head) && WorldSound(w)
    ensures var n := RebasedSteps(w, a);
            && n.tasks == w.tasks && n.queue == w.queue && n.repo.head == w.repo.head
            && n.events == w.events + (if RebaseWorks(w, e, a.rebase) && LeavesWork(w, e, a.rebase) && !a.reconciled.NotRun? then
                 [ReconciliationVerified(e.request.attemptId, TipAfterRebase(w, e, a.rebase), a.reconciled.Passed?)] else [])
            && (!RebaseWorks(w, e, a.rebase) ==> n.phase == Failing(e, false))
            && (RebaseWorks(w, e, a.rebase) ==>
                  && BranchExists(n, e) && IsAncestor(n.repo.graph, n.repo.head, TipOf(n, e))
                  && n.phase == if !LeavesWork(w, e, a.rebase) then Integrated(e, w.repo.head, w.repo.head, false, false, true)
                                else if a.reconciled.Passed? then Merging(e)
                                else Failing(e, a.reconciled.ChecksCancelled?))
  {
    var m := RebaseStep(w, a.rebase);
    RebaseExact(w, e, a.rebase);
    if RebaseWorks(w, e, a.rebase) {
      RebaseStaysSound(w, a.rebase);
      ExamineExact(m, e);
      if AfterExamine(m).phase.Reconciled? {
        VerifyReconciledExact(AfterExamine(m), e, a.reconciled);
      }
    }
    hide RebaseStep, AfterExamine, AfterVerifyReconciled, IsAncestor, RebaseWorks, LeavesWork, WorldSound;
  }

  lemma RebaseStaysSound(w: World, result: RebaseResult)
    requires WorldSound(w)
    ensures WorldSound(RebaseStep(w, result))
  {
    hide WorldSound, Grows, AfterRebase;
    StepKeepsSound(w, Rebase(result));
    StepKeepsSound(AfterRebase(w, result), Rebase(Stopped));
  }

  lemma ReconciliationExact(w: World, a: Answers, e: Entry)
    requires w.phase == Checked(e) && WorldSound(w)
    ensures Reconciles(w, a, e, ReconcileSteps(w, a))
  {
    hide WorldSound;
    if HasDrifted(w, e) {
      DriftedReconciles(w, a, e);
    } else {
      EvaluateExact(w, e);
      hide AfterEvaluateDrift, IsAncestor;
    }
  }

  /** The fast-forward, its announcement, and the verification of the integrated revision. */
  function IntegrateSteps(w: World, a: Answers): World {
    var n := if w.phase.Merging? then AfterReadHead(AfterMerge(w, a.mergeOk)) else w;
    var m := AfterAnnounce(n);
    if n.phase.Integrated? then AfterVerifyIntegrated(m, a.verified) else n
  }

  predicate FastForwardable(w: World, e: Entry) {
    BranchExists(w, e) && (IsAncestor(w.repo.graph, w.repo.head, TipOf(w, e)) || IsAncestor(w.repo.graph, TipOf(w, e), w.repo.head))
  }

  lemma MergeExact(w: World, ok: bool, e: Entry)
    requires w.phase == Merging(e) && RepoSound(w.repo)
    ensures var n := AfterReadHead(AfterMerge(w, ok));
            && n.tasks == w.tasks && n.queue == w.queue && n.events == w.events
            && (ok && FastForwardable(w, e) ==>
                  && n.phase == Integrated(e, TipOf(w, e), n.repo.head, false, false, true)
                  && BranchExists(n, e) && IsAncestor(n.repo.graph, TipOf(n, e), n.repo.head))
            && (!(ok && FastForwardable(w, e)) ==> n == w.(phase := Failing(e, false)))
  {
    if BranchExists(w, e) {
      MergeKeepsSound(w.repo, e.request.branch);
    }
    hide RepoSound, IsAncestor;
  }

  lemma VerifyExact(w: World, a: Answers, e: Entry)
    requires w.phase.Integrated? && w.phase.e == e && !w.phase.recovered && !w.phase.verified && w.phase.mayFinish
    ensures var n := IntegrateSteps(w, a);
            && n.tasks == w.tasks && n.queue == w.queue && n.repo == w.repo
            && n.events == w.events + IntegrationRecord(a, e, w.phase.revision)
            && (a.verified.Passed? ==> n.phase.Verified? && n.phase.e == e && n.phase.mayFinish)
            && (!a.verified.Passed? ==> n.phase == Failing(e, a.verified.ChecksCancelled?))
  {
    hide HasCompleted;
  }

  lemma MergeThenVerify(w: World, a: Answers, e: Entry)
    requires w.phase == Merging(e) && RepoSound(w.repo)
    ensures var n, merged := IntegrateSteps(w, a), a.mergeOk && FastForwardable(w, e);
            && n.tasks == w.tasks && n.queue == w.queue
            && n.events == w.events + (if merged then IntegrationRecord(a, e, n.repo.head) else [])
            && (merged ==> BranchExists(n, e) && IsAncestor(n.repo.graph, TipOf(n, e), n.repo.head))
            && (!merged ==> n.repo.head == w.repo.head)
            && (merged && a.verified.Passed? ==> n.phase.Verified? && n.phase.e == e && n.phase.mayFinish)
            && (!(merged && a.verified.Passed?) ==> n.phase == Failing(e, merged && a.verified.ChecksCancelled?))
  {
    MergeExact(w, a.mergeOk, e);
    var n := AfterReadHead(AfterMerge(w, a.mergeOk));
    if a.mergeOk && FastForwardable(w, e) {
      VerifyExact(n, a, e);
    }
    hide RepoSound, IsAncestor, FastForwardable, AfterMerge, AfterReadHead, AfterAnnounce, AfterVerifyIntegrated;
  }

  /** All steps of a call up to the settlement. */
  function MiddleSteps(w: World, a: Answers): World {
    var n := AfterCheck(w, a.mayLoad);
    if n.phase.Checked? then IntegrateSteps(ReconcileSteps(n, a), a) else n
  }

  lemma CheckExact(w: World, ok: bool, e: Entry)
    requires w.phase == Claimed(e)
    ensures AfterCheck(w, ok) == w.(phase := if ok && TaskIs(w, e, Integrating) then Checked(e) else Failing(e, false))
  {
  }

  lemma CheckStaysSound(w: World, ok: bool)
    requires WorldSound(w)
    ensures WorldSound(AfterCheck(w, ok))
  {
    hide WorldSound, Grows;
    StepKeepsSound(w, Check(ok));
  }

  lemma SameFacts(w: World, n: World, a: Answers, e: Entry)
    requires n.repo == w.repo && n.tasks == w.tasks
    ensures NothingToMerge(n, a, e) == NothingToMerge(w, a, e) && ReachesMerge(n, a, e) == ReachesMerge(w, a, e)
    ensures IsCurrent(n, e) == IsCurrent(w, e) && HasDrifted(n, e) == HasDrifted(w, e)
    ensures Merges(n, a, e) == Merges(w, a, e) && TaskIs(n, e, Integrating) == TaskIs(w, e, Integrating)
    ensures ReconciliationRecord(n, a, e) == ReconciliationRecord(w, a, e)
  {
    SameRebase(w, n, e, a.rebase);
    hide IsAncestor, RebaseWorks, LeavesWork;
  }

  /** Where the steps before the settlement lead. */
  ghost predicate ComesTo(w: World, a: Answers, e: Entry, n: World) {
    && n.tasks == w.tasks && n.queue == w.queue && n.events == w.events + Records(w, a, e, n.repo.head)
    && (Succeeds(w, a, e) ==> n.phase.Verified? && n.phase.e == e && n.phase.mayFinish)
    && (!Succeeds(w, a, e) ==> n.phase == Failing(e, IsCancelled(w, a, e)))
    && (a.mayLoad && TaskIs(w, e, Integrating) && Merges(w, a, e) ==>
          BranchExists(n, e) && IsAncestor(n.repo.graph, TipOf(n, e), n.repo.head))
    && (!(a.mayLoad && TaskIs(w, e, Integrating) && Merges(w, a, e)) ==> n.repo.head == w.repo.head)
  }

  /** A branch that is to be merged can be fast-forwarded exactly when the facts of the start say so. */
  lemma MergeablesAgree(w: World, a: Answers, e: Entry, m: World)
    requires Reconciles(w, a, e, m) && ReachesMerge(w, a, e)
    ensures (a.mergeOk && FastForwardable(m, e)) == Merges(w, a, e)
  {
    hide IsAncestor, RebaseWorks;
  }

  lemma MergeOrNot(w: World, a: Answers, e: Entry)
    ensures !(NothingToMerge(w, a, e) && ReachesMerge(w, a, e))
    ensures NothingToMerge(w, a, e) ==> !Merges(w, a, e)
  {
    hide IsAncestor, RebaseWorks, LeavesWork;
  }

  lemma ReconcilesSoundly(w: World, a: Answers)
    requires WorldSound(w)
    ensures WorldSound(ReconcileSteps(w, a))
  {
    hide WorldSound, Grows, AfterEvaluateDrift, RebaseStep, AfterExamine, AfterVerifyReconciled;
    StepKeepsSound(w, EvaluateDrift);
    var n := AfterEvaluateDrift(w);
    RebaseStaysSound(n, a.rebase);
    var m := RebaseStep(n, a.rebase);
    StepKeepsSound(m, Examine);
    var k := if m.phase.Replayed? then AfterExamine(m) else m;
    StepKeepsSound(k, VerifyReconciled(a.reconciled));
  }

  lemma ContainedComesTo(w: World, a: Answers, e: Entry)
    requires w.phase == Checked(e) && WorldSound(w) && a.mayLoad && TaskIs(w, e, Integrating)
    requires NothingToMerge(w, a, e)
    ensures ComesTo(w, a, e, IntegrateSteps(ReconcileSteps(w, a), a))
  {
    hide ReconcileSteps, IntegrateSteps, NothingToMerge, ReachesMerge, Merges, IsAncestor, WorldSound, HasDrifted, TaskIs, IsCurrent,
      ReconciliationRecord, IntegrationRecord;
    var m := ReconcileSteps(w, a);
    ReconciliationExact(w, a, e);
    MergeOrNot(w, a, e);
    VerifyExact(m, a, e);
    assert w.events + ReconciliationRecord(w, a, e) + IntegrationRecord(a, e, m.repo.head)
        == w.events + (ReconciliationRecord(w, a, e) + IntegrationRecord(a, e, m.repo.head));
  }

  lemma MergedComesTo(w: World, a: Answers, e: Entry)
    requires w.phase == Checked(e) && WorldSound(w) && a.mayLoad && TaskIs(w, e, Integrating)
    requires ReachesMerge(w, a, e)
    ensures ComesTo(w, a, e, IntegrateSteps(ReconcileSteps(w, a), a))
  {
    hide ReconcileSteps, IntegrateSteps, NothingToMerge, ReachesMerge, Merges, IsAncestor, WorldSound, HasDrifted, TaskIs, IsCurrent,
      FastForwardable, IsCancelled, ReconciliationRecord, IntegrationRecord;
    var m := ReconcileSteps(w, a);
    ReconciliationExact(w, a, e);
    MergeOrNot(w, a, e);
    MergeablesAgree(w, a, e, m);
    ReconcilesSoundly(w, a);
    RepoIsSound(m);
    MergedIsNoRefusal(w, a, e);
    MergeThenVerify(m, a, e);
    var n := IntegrateSteps(m, a);
    assert w.events + ReconciliationRecord(w, a, e) + IntegrationRecord(a, e, n.repo.head)
        == w.events + (ReconciliationRecord(w, a, e) + IntegrationRecord(a, e, n.repo.head));
    assert ReconciliationRecord(w, a, e) + [] == ReconciliationRecord(w, a, e);
    assert w.events + ReconciliationRecord(w, a, e) + [] == w.events + ReconciliationRecord(w, a, e);
  }

  lemma RepoIsSound(w: World)
    requires WorldSound(w)
    ensures RepoSound(w.repo)
  {
  }

  /** Where the merge is reached, only the last checks can have been cancelled. */
  lemma MergedIsNoRefusal(w: World, a: Answers, e: Entry)
    requires ReachesMerge(w, a, e) && a.mayLoad && TaskIs(w, e, Integrating)
    ensures IsCancelled(w, a, e) == (Merges(w, a, e) && a.verified.ChecksCancelled?)
  {
    MergeOrNot(w, a, e);
    hide IsAncestor, RebaseWorks, LeavesWork;
  }

  lemma RefusedComesTo(w: World, a: Answers, e: Entry)
    requires w.phase == Checked(e) && WorldSound(w) && a.mayLoad && TaskIs(w, e, Integrating)
    requires !NothingToMerge(w, a, e) && !ReachesMerge(w, a, e)
    ensures ComesTo(w, a, e, IntegrateSteps(ReconcileSteps(w, a), a))
  {
    ReconciliationExact(w, a, e);
    hide ReconcileSteps, NothingToMerge, ReachesMerge, IsAncestor, WorldSound, HasDrifted, RebaseWorks, LeavesWork, TaskIs, AfterMerge,
      AfterReadHead, AfterAnnounce, AfterVerifyIntegrated;
  }

  lemma CheckedComesTo(w: World, a: Answers, e: Entry)
    requires w.phase == Checked(e) && WorldSound(w) && a.mayLoad && TaskIs(w, e, Integrating)
    ensures ComesTo(w, a, e, IntegrateSteps(ReconcileSteps(w, a), a))
  {
    hide *;
    if NothingToMerge(w, a, e) {
      ContainedComesTo(w, a, e);
    } else if ReachesMerge(w, a, e) {
      MergedComesTo(w, a, e);
    } else {
      RefusedComesTo(w, a, e);
    }
  }

  /** One call comes to what the facts say. */
  lemma CallComesTo(w: World, a: Answers, e: Entry)
    requires w.phase == Claimed(e) && WorldSound(w)
    ensures ComesTo(w, a, e, MiddleSteps(w, a))
  {
    CheckExact(w, a.mayLoad, e);
    var n := AfterCheck(w, a.mayLoad);
    if n.phase.Checked? {
      CheckStaysSound(w, a.mayLoad);
      SameFacts(w, n, a, e);
      SameRebase(w, n, e, a.rebase);
      CheckedComesTo(n, a, e);
      SameEnd(w, n, a, e, MiddleSteps(w, a));
    }
    hide AfterCheck, IntegrateSteps, ReconcileSteps, IsAncestor, WorldSound, NothingToMerge, Merges, TaskIs, HasDrifted;
  }

  lemma SameEnd(w: World, n: World, a: Answers, e: Entry, m: World)
    requires n.repo == w.repo && n.tasks == w.tasks && n.queue == w.queue && n.events == w.events && ComesTo(n, a, e, m)
    ensures ComesTo(w, a, e, m)
  {
    SameFacts(w, n, a, e);
    SameRebase(w, n, e, a.rebase);
    hide IsAncestor, NothingToMerge, Merges, TaskIs, HasDrifted, RebaseWorks, LeavesWork;
  }
}
