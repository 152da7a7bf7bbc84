/**
 * Crash-safe integration: whatever crashes and whoever else acts, the integration HEAD only advances,
 * every patch enters the integration history at most once, and no task is done unverified.
 */
module QueueSafety {
  import opened Options
  import opened TaskStates
  import opened CommitGraph
  import opened GitRepo
  import opened IntegrationDrift
  import opened QueueProcessor
  import Q = IntegrationQueue

  // --- What every reachable world satisfies ---

  /** Every branch tip is remembered, and every branch has its owner. */
  ghost predicate BranchesKnown(w: World) {
    forall name :: name in w.repo.branches ==>
      name in w.owners && w.owners[name] == w.repo.branches[name].attemptId && (name, w.repo.branches[name].tip) in w.tips
  }

  /** The memory covers the branches and the entries of the queue. */
  ghost predicate Remembered(w: World) {
    && BranchesKnown(w)
    && (forall i :: 0 <= i < |w.queue| ==> KnownEntry(w, w.queue[i]))
  }

  /** The entry's revision was a tip of its attempt's branch. */
  ghost predicate KnownEntry(w: World, e: Entry) {
    && e.request.branch in w.owners && w.owners[e.request.branch] == e.request.attemptId
    && (e.request.branch, e.request.taskRevision) in w.tips
  }

  /** A tip of the entry's branch that the revision contains, in the integration history. */
  ghost predicate Contained(w: World, e: Entry, included: string, revision: string) {
    && (e.request.branch, included) in w.tips && revision in w.repo.graph
    && IsAncestor(w.repo.graph, included, revision) && IsAncestor(w.repo.graph, revision, w.repo.head)
  }

  /** The base of a rebase is in the integration history, and the branch shares nothing with it beyond the base. */
  ghost predicate RebaseBase(w: World, e: Entry, base: string) {
    && base in w.repo.graph && IsAncestor(w.repo.graph, base, w.repo.head)
    && (BranchExists(w, e) ==> SharedBelow(w.repo, TipOf(w, e), base))
  }

  ghost predicate PhaseFacts(w: World) {
    match w.phase
    case Drifted(e, base) => RebaseBase(w, e, base)
    case Replayed(e, base) => base in w.repo.graph && IsAncestor(w.repo.graph, base, w.repo.head)
    case MergedTip(e, included) => (e.request.branch, included) in w.tips && IsAncestor(w.repo.graph, included, w.repo.head)
    case Integrated(e, included, revision, recovered, verified, mayFinish) =>
      Contained(w, e, included, revision) && (verified ==> HasPassed(w.events, e.request.attemptId, revision))
    case Announced(e, included, revision, mayFinish) => Contained(w, e, included, revision)
    case Verified(e, included, revision, mayFinish) =>
      Contained(w, e, included, revision) && HasPassed(w.events, e.request.attemptId, revision)
    case Recovered(e, revision, verified) =>
      Contained(w, e, e.request.taskRevision, revision) && (verified ==> HasPassed(w.events, e.request.attemptId, revision))
    case _ => true
  }

  /** The entry that is worked on is the one the queue shows as integrating, or at its head after a requeue. */
  ghost predicate EntryFacts(w: World) {
    match w.phase
    case Idle => true
    case Reclaiming(e) => KnownEntry(w, e) && Q.NextToClaim(w.queue).Some? && w.queue[Q.NextToClaim(w.queue).value].id == e.id
    case _ => KnownEntry(w, w.phase.e) && IsIntegrating(w, w.phase.e)
  }

  ghost predicate WorldSound(w: World) {
    RepoSound(w.repo) && Q.QueueInvariant(w.queue) && Remembered(w) && PhaseFacts(w) && EntryFacts(w)
  }

  /** The second world knows at least as much: history, HEAD, tips, owners and events only grow. */
  ghost predicate Grows(w: World, n: World) {
    && Advances(w.repo, n.repo)
    && w.tips <= n.tips && (forall name :: name in w.owners ==> name in n.owners && n.owners[name] == w.owners[name])
    && |w.events| <= |n.events| && n.events[..|w.events|] == w.events
  }

  // --- The integration HEAD only advances ---

  /** The steps that leave the repository alone. */
  predicate IsQuiet(action: Action) {
    && !action.OthersCommit? && !action.Prepare? && !action.DeleteBranch? && !action.RecoveryMerge?
    && !action.Rebase? && !action.Merge?
  }

  lemma QuietStep(w: World, action: Action)
    requires IsQuiet(action)
    ensures var n := After(w, action);
            n.repo == w.repo && n.tips == w.tips && n.owners == w.owners
            && |w.events| <= |n.events| && n.events[..|w.events|] == w.events
  {
    hide DriftOf, IsAncestor, Q.Claimed, Q.Completed, Q.Failed, Q.Requeued, Q.Enqueued, Q.NextToClaim, Q.IntegratingWithId;
  }

  lemma RebaseGrows(w: World, result: RebaseResult)
    requires RepoSound(w.repo) && (w.phase.Drifted? ==> RebaseBase(w, w.phase.e, w.phase.base))
    ensures Grows(w, AfterRebase(w, result)) && RepoSound(AfterRebase(w, result).repo)
  {
    hide IsAncestor, WithChain, RepoSound, SharedBelow, IsReplay, ChainTip, Advances;
    StandsStill(w.repo);
    if AfterRebase(w, result).repo != w.repo {
      RebaseKeepsSound(w.repo, w.phase.e.request.branch, w.phase.base, result.changes, result.shas);
    }
  }

  lemma MergeGrows(w: World, ok: bool)
    requires RepoSound(w.repo)
    ensures Grows(w, AfterMerge(w, ok)) && RepoSound(AfterMerge(w, ok).repo)
  {
    hide IsAncestor, RepoSound, Merged, MergeFastForward, Advances;
    StandsStill(w.repo);
    if w.phase.Merging? && BranchExists(w, w.phase.e) {
      MergeKeepsSound(w.repo, w.phase.e.request.branch);
    }
  }

  lemma CommitGrows(w: World, sha: string)
    requires RepoSound(w.repo)
    ensures Grows(w, AfterOthersCommit(w, sha)) && RepoSound(AfterOthersCommit(w, sha).repo)
  {
    assert w.repo.head in w.repo.graph;
    hide RepoSound, Committed, Advances;
    StandsStill(w.repo);
    if sha !in w.repo.graph {
      CommitKeepsSound(w.repo, sha);
    }
  }

  lemma PrepareGrows(w: World, name: string, attemptId: string, base: string, changes: seq<Change>, shas: seq<string>)
    requires RepoSound(w.repo)
    ensures var n := AfterPrepare(w, name, attemptId, base, changes, shas); Grows(w, n) && RepoSound(n.repo)
  {
    hide RepoSound, WithChain, ChainTip, Advances, IsAncestor, FreshNames;
    StandsStill(w.repo);
    if CanPrepare(w.repo, name, attemptId, base, changes, shas) {
      PrepareKeepsSound(w.repo, name, attemptId, base, changes, shas);
    }
  }

  lemma DeleteGrows(w: World, name: string)
    requires RepoSound(w.repo)
    ensures Grows(w, After(w, DeleteBranch(name))) && RepoSound(After(w, DeleteBranch(name)).repo)
  {
    hide RepoSound, Advances;
    DeleteKeepsSound(w.repo, name);
  }

  lemma RecoveryMergeGrows(w: World, name: string)
    requires RepoSound(w.repo)
    ensures Grows(w, AfterRecoveryMerge(w, name)) && RepoSound(AfterRecoveryMerge(w, name).repo)
  {
    hide IsAncestor, RepoSound, Merged, Advances;
    StandsStill(w.repo);
    if name in w.repo.branches {
      MergeKeepsSound(w.repo, name);
    }
  }

  lemma QuietGrows(w: World, action: Action)
    requires RepoSound(w.repo) && IsQuiet(action)
    ensures Grows(w, After(w, action)) && RepoSound(After(w, action).repo)
  {
    StandsStill(w.repo);
    QuietStep(w, action);
    hide Advances, RepoSound, After;
  }

  /** Every step only adds to history, moves HEAD forward, and keeps the repository sound. */
  lemma StepGrows(w: World, action: Action)
    requires RepoSound(w.repo) && PhaseFacts(w)
    ensures Grows(w, After(w, action)) && RepoSound(After(w, action).repo)
  {
    hide Grows, RepoSound, AfterOthersCommit, AfterPrepare, AfterRecoveryMerge, AfterRebase, AfterMerge, RebaseBase, Contained;
    match action
    case OthersCommit(sha) => CommitGrows(w, sha);
    case Prepare(name, attemptId, base, changes, shas) => PrepareGrows(w, name, attemptId, base, changes, shas);
    case DeleteBranch(name) => DeleteGrows(w, name);
    case RecoveryMerge(name) => RecoveryMergeGrows(w, name);
    case Rebase(result) => RebaseGrows(w, result);
    case Merge(ok) => MergeGrows(w, ok);
    case _ => QuietGrows(w, action);
  }

  // --- The queue and the memory ---

  /** The step of the queue that an action takes, if it takes one. */
  function QueueStep(w: World, action: Action): Option<Q.Step> {
    match action
    case Enqueue(id, request) => Some(Q.Enqueue(id, request))
    case ClaimNext(now) => Some(Q.ClaimNext(now))
    case Reclaim(now) => Some(Q.ClaimNext(now))
    case SettleSuccess(now) => if w.phase.Verified? then Some(Q.Complete(w.phase.e.id, now)) else None
    case SettleFailure(commits, now) => if w.phase.Failing? then Some(Q.Fail(w.phase.e.id, "integration failed", now)) else None
    case Requeue => if w.phase.Requeuing? then Some(Q.Requeue(w.phase.e.id)) else None
    case _ => None
  }

  lemma QueueMoves(w: World, action: Action)
    ensures var n := After(w, action);
            n.queue == w.queue || (QueueStep(w, action).Some? && n.queue == Q.After(w.queue, QueueStep(w, action).value))
  {
    hide DriftOf, IsAncestor, Q.Claimed, Q.Completed, Q.Failed, Q.Requeued, Q.Enqueued, Q.NextToClaim, Q.IntegratingWithId;
  }

  lemma QueueKept(w: World, action: Action)
    requires Q.QueueInvariant(w.queue)
    ensures Q.QueueInvariant(After(w, action).queue)
  {
    QueueMoves(w, action);
    hide After, Q.QueueInvariant, Q.After, QueueStep;
    if QueueStep(w, action).Some? {
      Q.StepKeepsInvariant(w.queue, QueueStep(w, action).value);
    }
  }

  /** A queue step leaves entries their ids and requests; only an enqueue adds one. */
  lemma QueueStepEntries(q: Q.Queue, step: Q.Step)
    ensures var n := Q.After(q, step);
            |q| <= |n| && (forall i :: 0 <= i < |q| ==> n[i].id == q[i].id && n[i].request == q[i].request)
            && (|q| < |n| ==> step.Enqueue? && |n| == |q| + 1 && n[|q|].request == step.request)
  {
    hide Q.NextToClaim, Q.IntegratingWithId, Q.CanEnqueue;
  }

  lemma KnownStays(w: World, n: World, e: Entry)
    requires Grows(w, n) && KnownEntry(w, e)
    ensures KnownEntry(n, e)
  {
    hide Advances;
  }

  /** The branches of the next world are old ones, or the tip and owner are remembered with them. */
  lemma BranchesRemembered(w: World, action: Action)
    requires BranchesKnown(w)
    ensures BranchesKnown(After(w, action))
  {
    match action
    case Prepare(_, _, _, _, _) => hide CanPrepare, WithChain, ChainTip;
    case Rebase(result) => hide IsAncestor, IsReplay, WithChain, ChainTip;
    case Merge(ok) => hide MergeFastForward;
    case RecoveryMerge(name) => hide MergeFastForward;
    case OthersCommit(sha) => hide WithCommit;
    case DeleteBranch(name) =>
    case _ =>
      QuietStep(w, action);
      hide After;
  }

  lemma EntriesRemembered(w: World, action: Action)
    requires Remembered(w) && Grows(w, After(w, action))
    ensures forall i :: 0 <= i < |After(w, action).queue| ==> KnownEntry(After(w, action), After(w, action).queue[i])
  {
    var n := After(w, action);
    QueueMoves(w, action);
    if n.queue != w.queue {
      QueueStepEntries(w.queue, QueueStep(w, action).value);
    }
    if action.Enqueue? {
      assert n.queue != w.queue ==> KnownEntry(w, n.queue[|w.queue|]);
    }
    hide After, Grows, Q.After;
    forall i | 0 <= i < |n.queue| ensures KnownEntry(n, n.queue[i]) {
      if i < |w.queue| {
        assert KnownEntry(w, w.queue[i]);
        KnownStays(w, n, w.queue[i]);
      } else {
        KnownStays(w, n, n.queue[i]);
      }
    }
  }

  // --- The facts of each phase ---

  lemma ContainedStays(w: World, n: World, e: Entry, included: string, revision: string)
    requires RepoSound(w.repo) && Grows(w, n) && Contained(w, e, included, revision)
    ensures Contained(n, e, included, revision)
  {
    hide IsAncestor, RepoSound, Advances;
    HistoryStays(w.repo, n.repo, included, revision);
  }

  lemma PassedStays(w: World, n: World, attemptId: string, revision: string)
    requires Grows(w, n) && HasPassed(w.events, attemptId, revision)
    ensures HasPassed(n.events, attemptId, revision)
  {
    hide Advances;
    var i :| 0 <= i < |w.events| && w.events[i] == IntegrationVerified(attemptId, revision, true);
    assert n.events[i] == n.events[..|w.events|][i];
  }

  /** Other actors and waiting leave the facts of a phase standing, apart from what a rebase needs. */
  lemma FactsStay(w: World, n: World)
    requires RepoSound(w.repo) && PhaseFacts(w) && Grows(w, n) && n.phase == w.phase && !w.phase.Drifted?
    ensures PhaseFacts(n)
  {
    hide RepoSound, Grows, Contained, HasPassed;
    match w.phase
    case Replayed(e, base) =>
      assert IsAncestor(w.repo.graph, base, base);
      BelowHeadStays(w, n, base, base);
    case MergedTip(e, included) =>
      AncestorOfHeadStays(w, n, included);
    case Integrated(e, included, revision, recovered, verified, mayFinish) =>
      ContainedStays(w, n, e, included, revision);
      if verified {
        PassedStays(w, n, e.request.attemptId, revision);
      }
    case Announced(e, included, revision, mayFinish) => ContainedStays(w, n, e, included, revision);
    case Verified(e, included, revision, mayFinish) =>
      ContainedStays(w, n, e, included, revision);
      PassedStays(w, n, e.request.attemptId, revision);
    case Recovered(e, revision, verified) =>
      ContainedStays(w, n, e, e.request.taskRevision, revision);
      if verified {
        PassedStays(w, n, e.request.attemptId, revision);
      }
    case _ =>
  }

  lemma BelowHeadStays(w: World, n: World, a: string, b: string)
    requires RepoSound(w.repo) && Grows(w, n) && b in w.repo.graph
    requires IsAncestor(w.repo.graph, a, b) && IsAncestor(w.repo.graph, b, w.repo.head)
    ensures b in n.repo.graph && IsAncestor(n.repo.graph, a, b) && IsAncestor(n.repo.graph, b, n.repo.head)
  {
    hide IsAncestor, RepoSound, Advances;
    HistoryStays(w.repo, n.repo, a, b);
  }

  lemma AncestorOfHeadStays(w: World, n: World, a: string)
    requires RepoSound(w.repo) && Grows(w, n) && IsAncestor(w.repo.graph, a, w.repo.head)
    ensures IsAncestor(n.repo.graph, a, n.repo.head) && w.tips <= n.tips
  {
    assert w.repo.head in w.repo.graph;
    assert IsAncestor(w.repo.graph, w.repo.head, w.repo.head);
    hide IsAncestor, RepoSound;
    HistoryStays(w.repo, n.repo, a, w.repo.head);
    AncestorTransitive(n.repo.graph, a, w.repo.head, n.repo.head);
  }

  lemma CommitKeepsBase(w: World, sha: string, e: Entry, base: string)
    requires RepoSound(w.repo) && RebaseBase(w, e, base) && Grows(w, AfterOthersCommit(w, sha))
    ensures RebaseBase(AfterOthersCommit(w, sha), e, base)
  {
    assert IsAncestor(w.repo.graph, base, base);
    BelowHeadStays(w, AfterOthersCommit(w, sha), base, base);
    assert BranchExists(w, e) ==> TipOf(w, e) in w.repo.graph;
    hide IsAncestor, RepoSound, WithCommit, Advances, SharedBelow;
    if BranchExists(w, e) && sha !in w.repo.graph {
      CommitKeepsShared(w.repo, sha, TipOf(w, e), base);
    }
  }

  lemma PrepareKeepsBase(w: World, n: World, name: string, e: Entry, base: string)
    requires RepoSound(w.repo) && RebaseBase(w, e, base) && Grows(w, n) && e.request.branch in w.owners && name !in w.owners
    requires n.repo.head == w.repo.head && forall x :: x in n.repo.branches && x != name ==> x in w.repo.branches && n.repo.branches[x] == w.repo.branches[x]
    ensures RebaseBase(n, e, base)
  {
    assert IsAncestor(w.repo.graph, base, base);
    BelowHeadStays(w, n, base, base);
    assert BranchExists(w, e) ==> TipOf(w, e) in w.repo.graph;
    assert Advances(w.repo, n.repo) ==> Extends(w.repo.graph, n.repo.graph);
    hide IsAncestor, RepoSound, Advances, SharedBelow, Extends;
    if BranchExists(n, e) {
      PrepareKeepsShared(w.repo, n.repo.graph, TipOf(w, e), base);
      assert n.repo == Repo(n.repo.graph, w.repo.head, n.repo.branches);
    }
  }

  lemma DeleteKeepsBase(w: World, name: string, e: Entry, base: string)
    requires RebaseBase(w, e, base)
    ensures RebaseBase(After(w, DeleteBranch(name)), e, base)
  {
    hide IsAncestor, SharedBelow;
    if BranchExists(w, e) {
      SameShared(w.repo, After(w, DeleteBranch(name)).repo, TipOf(w, e), base);
    }
  }

  lemma RecoveryMergeKeepsBase(w: World, name: string, e: Entry, base: string)
    requires RepoSound(w.repo) && RebaseBase(w, e, base) && name != e.request.branch && Grows(w, AfterRecoveryMerge(w, name))
    ensures RebaseBase(AfterRecoveryMerge(w, name), e, base)
  {
    var n := AfterRecoveryMerge(w, name);
    assert IsAncestor(w.repo.graph, base, base);
    BelowHeadStays(w, n, base, base);
    hide IsAncestor, RepoSound, Advances, SharedBelow, MergeFastForward;
    if n != w && BranchExists(w, e) {
      MergeKeepsShared(w.repo, name, e.request.branch, base);
    }
  }

  /** What a rebase needs survives the other actors. */
  lemma RebaseBaseStays(w: World, action: Action)
    requires RepoSound(w.repo) && w.phase.Drifted? && RebaseBase(w, w.phase.e, w.phase.base) && KnownEntry(w, w.phase.e)
    requires action.OthersCommit? || action.Prepare? || action.DeleteBranch? || action.RecoveryMerge?
    requires Grows(w, After(w, action))
    ensures RebaseBase(After(w, action), w.phase.e, w.phase.base)
  {
    hide RepoSound, RebaseBase, Grows, WithChain, ChainTip, AfterOthersCommit, CanPrepare, Merged;
    match action
    case OthersCommit(sha) => CommitKeepsBase(w, sha, w.phase.e, w.phase.base);
    case Prepare(name, attemptId, from, changes, shas) =>
      var n := After(w, action);
      if n != w {
        PrepareKeepsBase(w, n, name, w.phase.e, w.phase.base);
      }
    case DeleteBranch(name) => DeleteKeepsBase(w, name, w.phase.e, w.phase.base);
    case RecoveryMerge(name) =>
      if name != w.phase.e.request.branch {
        RecoveryMergeKeepsBase(w, name, w.phase.e, w.phase.base);
      }
  }

  lemma SameShared(repo: Repo, next: Repo, tip: string, h: string)
    requires next.graph == repo.graph && next.head == repo.head
    ensures SharedBelow(next, tip, h) == SharedBelow(repo, tip, h)
  {
  }

  /** The first evaluation: either the revision is in the history, or HEAD becomes the base of a rebase. */
  lemma EvaluateFacts(w: World)
    requires RepoSound(w.repo) && w.phase.Checked? && KnownEntry(w, w.phase.e)
    ensures PhaseFacts(AfterEvaluateDrift(w))
  {
    assert w.repo.head in w.repo.graph;
    assert IsAncestor(w.repo.graph, w.repo.head, w.repo.head);
    hide RepoSound, IsAncestor;
  }

  lemma RebaseFacts(w: World, result: RebaseResult)
    requires RepoSound(w.repo) && w.phase.Drifted? && RebaseBase(w, w.phase.e, w.phase.base)
    requires Grows(w, AfterRebase(w, result))
    ensures PhaseFacts(AfterRebase(w, result))
  {
    var base, n := w.phase.base, AfterRebase(w, result);
    assert IsAncestor(w.repo.graph, base, base);
    BelowHeadStays(w, n, base, base);
    hide RepoSound, IsAncestor, IsReplay, WithChain, Advances, SharedBelow;
    if n.phase.Drifted? {
      assert n == w;
    }
  }

  lemma ExamineFacts(w: World)
    requires RepoSound(w.repo) && Remembered(w) && w.phase.Replayed? && PhaseFacts(w)
    ensures PhaseFacts(AfterExamine(w))
  {
    assert IsAncestor(w.repo.graph, w.phase.base, w.phase.base);
    hide RepoSound, IsAncestor, KnownEntry;
  }

  lemma MergeFacts(w: World, ok: bool)
    requires RepoSound(w.repo) && Remembered(w) && w.phase.Merging?
    ensures PhaseFacts(AfterMerge(w, ok))
  {
    hide RepoSound, IsAncestor, KnownEntry, MergeFastForward, Merged, Advances;
    if BranchExists(w, w.phase.e) {
      MergeKeepsSound(w.repo, w.phase.e.request.branch);
    }
  }

  lemma ReadHeadFacts(w: World)
    requires RepoSound(w.repo) && w.phase.MergedTip? && PhaseFacts(w)
    ensures PhaseFacts(AfterReadHead(w))
  {
    assert w.repo.head in w.repo.graph;
    assert IsAncestor(w.repo.graph, w.repo.head, w.repo.head);
    hide RepoSound, IsAncestor;
  }

  lemma AnnounceFacts(w: World)
    requires RepoSound(w.repo) && w.phase.Integrated? && PhaseFacts(w) && Grows(w, AfterAnnounce(w))
    ensures PhaseFacts(AfterAnnounce(w))
  {
    var p, n := w.phase, AfterAnnounce(w);
    ContainedStays(w, n, p.e, p.included, p.revision);
    if p.verified {
      PassedStays(w, n, p.e.request.attemptId, p.revision);
    }
    hide RepoSound, Contained, Grows, HasPassed;
  }

  lemma VerifyFacts(w: World, outcome: CheckResult)
    requires RepoSound(w.repo) && w.phase.Announced? && PhaseFacts(w) && Grows(w, AfterVerifyIntegrated(w, outcome))
    ensures PhaseFacts(AfterVerifyIntegrated(w, outcome))
  {
    var p, n := w.phase, AfterVerifyIntegrated(w, outcome);
    ContainedStays(w, n, p.e, p.included, p.revision);
    hide RepoSound, Contained, Grows;
    if outcome.Passed? {
      assert n.events[|w.events|] == IntegrationVerified(p.e.request.attemptId, p.revision, true);
    }
  }

  lemma IntegratingIsKnown(w: World, i: nat)
    requires RepoSound(w.repo) && Remembered(w) && i < |w.queue|
    ensures KnownEntry(w, w.queue[i])
    ensures w.repo.head in w.repo.graph && IsAncestor(w.repo.graph, w.repo.head, w.repo.head)
  {
    hide KnownEntry;
  }

  lemma RecoverFacts(w: World, id: string)
    requires RepoSound(w.repo) && Remembered(w) && w.phase.Idle?
    ensures PhaseFacts(AfterRecover(w, id))
  {
    hide RepoSound, IsAncestor, HasPassed, Remembered, Q.IntegratingWithId, BranchExists;
    var i := Q.IntegratingWithId(w.queue, id);
    if i < |w.queue| {
      IntegratingIsKnown(w, i);
    }
  }

  lemma LoadFacts(w: World, ok: bool)
    requires w.phase.Recovered? && PhaseFacts(w)
    ensures PhaseFacts(AfterLoadRecovered(w, ok))
  {
    hide IsAncestor, HasPassed;
  }

  predicate IsOthers(action: Action) {
    || action.OthersCommit? || action.Prepare? || action.DeleteBranch? || action.RecoveryMerge? || action.Enqueue?
    || action.SetTaskStatus?
  }

  lemma OthersKeepFacts(w: World, action: Action)
    requires RepoSound(w.repo) && PhaseFacts(w) && EntryFacts(w) && Grows(w, After(w, action)) && IsOthers(action)
    ensures PhaseFacts(After(w, action))
  {
    hide RepoSound, Grows, Contained, HasPassed, KnownEntry, IsIntegrating, Q.NextToClaim, CanPrepare;
    var n := After(w, action);
    assert n.phase == w.phase;
    if !w.phase.Drifted? {
      hide PhaseFacts, After;
      FactsStay(w, n);
    } else if action.Enqueue? || action.SetTaskStatus? {
      assert n.repo == w.repo;
    } else {
      hide RebaseBase, After;
      RebaseBaseStays(w, action);
    }
  }

  predicate TouchesFacts(action: Action) {
    || action.EvaluateDrift? || action.Rebase? || action.Examine? || action.Merge? || action.ReadHead? || action.Announce?
    || action.VerifyIntegrated? || action.Recover? || action.LoadRecovered?
  }

  lemma OwnStepsKeepFacts(w: World, action: Action)
    requires RepoSound(w.repo) && Remembered(w) && PhaseFacts(w) && EntryFacts(w) && Grows(w, After(w, action)) && TouchesFacts(action)
    ensures PhaseFacts(After(w, action))
  {
    hide RepoSound, Grows, Contained, HasPassed, KnownEntry, IsIntegrating, Q.NextToClaim, Remembered, RebaseBase, IsAncestor,
      Q.IntegratingWithId, DriftOf;
    match action
    case EvaluateDrift => if w.phase.Checked? { EvaluateFacts(w); }
    case Rebase(result) => if w.phase.Drifted? { RebaseFacts(w, result); }
    case Examine => if w.phase.Replayed? { ExamineFacts(w); }
    case Merge(ok) => if w.phase.Merging? { MergeFacts(w, ok); }
    case ReadHead => if w.phase.MergedTip? { ReadHeadFacts(w); }
    case Announce => if w.phase.Integrated? { AnnounceFacts(w); }
    case VerifyIntegrated(outcome) => if w.phase.Announced? { VerifyFacts(w, outcome); }
    case Recover(id) => if w.phase.Idle? { RecoverFacts(w, id); }
    case LoadRecovered(ok) => if w.phase.Recovered? { LoadFacts(w, ok); }
  }

  lemma PlainStepsKeepFacts(w: World, action: Action)
    requires PhaseFacts(w) && !IsOthers(action) && !TouchesFacts(action)
    ensures PhaseFacts(After(w, action))
  {
    hide Contained, HasPassed, RebaseBase, IsAncestor, IsIntegrating, Q.NextToClaim, Q.Claimed, Q.Completed, Q.Failed, Q.Requeued;
  }

  lemma StepKeepsFacts(w: World, action: Action)
    requires RepoSound(w.repo) && Remembered(w) && PhaseFacts(w) && EntryFacts(w) && Grows(w, After(w, action))
    ensures PhaseFacts(After(w, action))
  {
    hide RepoSound, Remembered, PhaseFacts, EntryFacts, Grows, After;
    if IsOthers(action) {
      OthersKeepFacts(w, action);
    } else if TouchesFacts(action) {
      OwnStepsKeepFacts(w, action);
    } else {
      PlainStepsKeepFacts(w, action);
    }
  }

  // --- The entry that is worked on ---

  lemma EnqueueKeepsIntegrating(w: World, id: string, request: Q.Request, e: Entry)
    requires IsIntegrating(w, e)
    ensures IsIntegrating(AfterEnqueue(w, id, request), e)
  {
    var i := Q.IntegratingWithId(w.queue, e.id);
    hide Q.CanEnqueue;
    var n := AfterEnqueue(w, id, request);
    assert n.queue[i] == w.queue[i];
    Q.FoundById(n.queue, i);
  }

  lemma EnqueueKeepsEntry(w: World, id: string, request: Q.Request)
    requires EntryFacts(w) && Q.QueueInvariant(w.queue)
    ensures EntryFacts(AfterEnqueue(w, id, request))
  {
    hide Q.QueueInvariant, Q.NextToClaim, Q.IntegratingWithId, Q.CanEnqueue, IsIntegrating;
    if w.phase.Reclaiming? {
      Q.EnqueueKeepsNext(w.queue, id, request);
    } else if !w.phase.Idle? {
      EnqueueKeepsIntegrating(w, id, request, w.phase.e);
    }
  }

  /** A step that leaves queue and phase alone leaves the entry alone. */
  lemma SameQueueKeepsEntry(w: World, n: World)
    requires EntryFacts(w) && Grows(w, n) && n.queue == w.queue && n.phase == w.phase
    ensures EntryFacts(n)
  {
    hide Q.NextToClaim, Q.IntegratingWithId;
    if !w.phase.Idle? {
      KnownStays(w, n, w.phase.e);
    }
  }

  lemma OthersKeepEntry(w: World, action: Action)
    requires EntryFacts(w) && Grows(w, After(w, action)) && IsOthers(action) && Q.QueueInvariant(w.queue)
    ensures EntryFacts(After(w, action))
  {
    hide EntryFacts, Grows, Q.QueueInvariant, AfterEnqueue, CanPrepare;
    if action.Enqueue? {
      EnqueueKeepsEntry(w, action.id, action.request);
    } else {
      SameQueueKeepsEntry(w, After(w, action));
    }
  }

  /** The entry that is claimed is known, and integrating afterwards. */
  lemma ClaimedEntry(w: World, now: int)
    requires Remembered(w) && Q.NextToClaim(w.queue).Some?
    ensures var e := Q.Started(w.queue[Q.NextToClaim(w.queue).value], now);
            KnownEntry(w, e) && Q.IntegratingWithId(Q.Claimed(w.queue, now), e.id) < |Q.Claimed(w.queue, now)|
  {
    assert KnownEntry(w, w.queue[Q.NextToClaim(w.queue).value]);
    hide Q.NextToClaim;
    Q.FoundById(Q.Claimed(w.queue, now), Q.NextToClaim(w.queue).value);
  }

  lemma ClaimKeepsEntry(w: World, now: int)
    requires Remembered(w) && EntryFacts(w)
    ensures EntryFacts(AfterClaimNext(w, now))
  {
    hide Q.NextToClaim, Q.IntegratingWithId, Q.Claimed, Q.Started;
    if Q.NextToClaim(w.queue).Some? {
      ClaimedEntry(w, now);
    }
  }

  lemma ReclaimKeepsEntry(w: World, now: int)
    requires Remembered(w) && EntryFacts(w)
    ensures EntryFacts(AfterReclaim(w, now))
  {
    hide Q.NextToClaim, Q.IntegratingWithId, Q.Claimed, Q.Started;
    if Q.NextToClaim(w.queue).Some? {
      ClaimedEntry(w, now);
    }
  }

  /** After a requeue the same entry is next. */
  lemma RequeueKeepsEntry(w: World)
    requires EntryFacts(w) && Q.QueueInvariant(w.queue)
    ensures EntryFacts(AfterRequeue(w))
  {
    hide Q.QueueInvariant;
    if w.phase.Requeuing? {
      Q.RequeueThenClaim(w.queue, w.phase.e.id, []);
    }
  }

  lemma RecoverKeepsEntry(w: World, id: string)
    requires Remembered(w) && EntryFacts(w)
    ensures EntryFacts(AfterRecover(w, id))
  {
    var i := Q.IntegratingWithId(w.queue, id);
    if i < |w.queue| {
      assert KnownEntry(w, w.queue[i]);
      Q.FoundById(w.queue, i);
    }
    hide KnownEntry, IsAncestor, Q.IntegratingWithId, HasPassed;
  }

  predicate MovesQueue(action: Action) {
    action.ClaimNext? || action.Reclaim? || action.Requeue? || action.Recover?
  }

  /** The remaining steps keep the entry and the queue, or end the work on it. */
  lemma PlainStep(w: World, action: Action)
    requires !IsOthers(action) && !MovesQueue(action)
    ensures var n := After(w, action);
            n.phase.Idle? || (!w.phase.Idle? && n.phase.e == w.phase.e && n.queue == w.queue && (n.phase.Reclaiming? <==> w.phase.Reclaiming?))
  {
    hide DriftOf, IsAncestor, IsReplay, Q.Claimed, Q.Completed, Q.Failed, Q.NextToClaim, Q.IntegratingWithId, MergeFastForward,
      HasPassed, HasCompleted;
  }

  lemma PlainStepsKeepEntry(w: World, action: Action)
    requires EntryFacts(w) && !IsOthers(action) && !MovesQueue(action) && Grows(w, After(w, action))
    ensures EntryFacts(After(w, action))
  {
    PlainStep(w, action);
    hide After, Q.NextToClaim, Q.IntegratingWithId;
    if !After(w, action).phase.Idle? {
      KnownStays(w, After(w, action), w.phase.e);
    }
  }

  lemma StepKeepsEntry(w: World, action: Action)
    requires EntryFacts(w) && Remembered(w) && Q.QueueInvariant(w.queue) && Grows(w, After(w, action))
    ensures EntryFacts(After(w, action))
  {
    hide EntryFacts, Remembered, Q.QueueInvariant, Grows, AfterClaimNext, AfterReclaim, AfterRequeue, AfterRecover;
    match action
    case ClaimNext(now) => ClaimKeepsEntry(w, now);
    case Reclaim(now) => ReclaimKeepsEntry(w, now);
    case Requeue => RequeueKeepsEntry(w);
    case Recover(id) => RecoverKeepsEntry(w, id);
    case _ =>
      hide After;
      if IsOthers(action) {
        OthersKeepEntry(w, action);
      } else {
        PlainStepsKeepEntry(w, action);
      }
  }

  // --- Over whole runs ---

  lemma StepKeepsSound(w: World, action: Action)
    requires WorldSound(w)
    ensures WorldSound(After(w, action)) && Grows(w, After(w, action))
  {
    hide RepoSound, Q.QueueInvariant, PhaseFacts, EntryFacts, Grows, After, KnownEntry;
    StepGrows(w, action);
    QueueKept(w, action);
    BranchesRemembered(w, action);
    EntriesRemembered(w, action);
    StepKeepsFacts(w, action);
    StepKeepsEntry(w, action);
  }

  lemma StartIsSound(w: World)
    requires w.queue == [] && w.phase == Idle && w.repo.branches == map[] && w.repo.graph == map[w.repo.head := Commit({}, 0, None)]
    ensures WorldSound(w)
  {
    assert Q.ShapedAt(w.queue, 0);
    hide IsAncestor;
  }

  lemma {:induction false} ReachableIsSound(run: seq<World>, actions: seq<Action>, i: nat)
    requires IsRun(run, actions) && i < |run|
    ensures WorldSound(run[i])
  {
    hide After, WorldSound;
    if i == 0 {
      StartIsSound(run[0]);
    } else {
      ReachableIsSound(run, actions, i - 1);
      StepKeepsSound(run[i - 1], actions[i - 1]);
    }
  }

  /** The integration HEAD only ever moves to a descendant of itself. */
  lemma {:induction false} HeadOnlyAdvances(run: seq<World>, actions: seq<Action>, i: nat, j: nat)
    requires IsRun(run, actions) && i <= j < |run|
    ensures IsAncestor(run[j].repo.graph, run[i].repo.head, run[j].repo.head)
    ensures Extends(run[i].repo.graph, run[j].repo.graph)
    decreases j - i
  {
    hide After, WorldSound, Grows;
    if i == j {
      assert IsAncestor(run[i].repo.graph, run[i].repo.head, run[i].repo.head);
    } else {
      hide IsAncestor;
      HeadOnlyAdvances(run, actions, i, j - 1);
      ReachableIsSound(run, actions, j - 1);
      StepKeepsSound(run[j - 1], actions[j - 1]);
      HistoryExtends(run[i], run[j - 1], run[j]);
    }
  }

  lemma HistoryExtends(u: World, w: World, n: World)
    requires WorldSound(w) && Grows(w, n)
    requires Extends(u.repo.graph, w.repo.graph) && IsAncestor(w.repo.graph, u.repo.head, w.repo.head)
    ensures Extends(u.repo.graph, n.repo.graph) && IsAncestor(n.repo.graph, u.repo.head, n.repo.head)
  {
    hide IsAncestor, RepoSound, Q.QueueInvariant, Remembered, PhaseFacts, EntryFacts;
    AncestorOfHeadStays(w, n, u.repo.head);
  }

  /** In every reachable state a patch has entered the integration history at most once. */
  lemma IntegratedAtMostOnce(run: seq<World>, actions: seq<Action>, i: nat, r: string, q: string)
    requires IsRun(run, actions) && i < |run|
    requires r in run[i].repo.graph && q in run[i].repo.graph
    requires IsAncestor(run[i].repo.graph, r, run[i].repo.head) && IsAncestor(run[i].repo.graph, q, run[i].repo.head)
    requires run[i].repo.graph[r].change.Some? && run[i].repo.graph[r].change == run[i].repo.graph[q].change
    ensures r == q
  {
    ReachableIsSound(run, actions, i);
    var repo := run[i].repo;
    assert Unique(repo.graph, repo.head, repo.head);
    hide IsAncestor, After;
    assert InHistory(repo.graph, r, repo.head, repo.head) && InHistory(repo.graph, q, repo.head, repo.head);
  }

  /** Evidence that the integrated revision of an attempt was verified. */
  ghost predicate VerifiedIntegration(w: World, taskId: string) {
    exists e: Entry, included, revision ::
      && e.request.taskId == taskId && KnownEntry(w, e)
      && Contained(w, e, included, revision) && HasPassed(w.events, e.request.attemptId, revision)
  }

  /**
   * Whenever the processor sets a task to DONE, a passed integration verification of one of its
   * attempts is recorded at a revision of the integration history that contains a tip of the attempt's branch.
   */
  lemma VerifiedBeforeDone(run: seq<World>, actions: seq<Action>, i: nat, taskId: string)
    requires IsRun(run, actions) && i < |actions| && !actions[i].SetTaskStatus?
    requires taskId in run[i + 1].tasks && run[i + 1].tasks[taskId] == Done
    requires taskId !in run[i].tasks || run[i].tasks[taskId] != Done
    ensures VerifiedIntegration(run[i], taskId)
  {
    ReachableIsSound(run, actions, i);
    OnlySettlingFinishes(run[i], actions[i], taskId);
    hide After;
    var p := run[i].phase;
    assert KnownEntry(run[i], p.e) && Contained(run[i], p.e, p.included, p.revision) && HasPassed(run[i].events, p.e.request.attemptId, p.revision);
  }

  lemma OnlySettlingFinishes(w: World, action: Action, taskId: string)
    requires !action.SetTaskStatus? && taskId in After(w, action).tasks && After(w, action).tasks[taskId] == Done
    requires taskId !in w.tasks || w.tasks[taskId] != Done
    ensures action.SettleSuccess? && w.phase.Verified? && w.phase.e.request.taskId == taskId
  {
    hide DriftOf, IsAncestor, IsReplay, CanPrepare, Q.Claimed, Q.Completed, Q.Failed, Q.NextToClaim, Q.IntegratingWithId, Q.Requeued, Q.Enqueued;
  }

  lemma EvidenceStep(w: World, n: World, taskId: string)
    requires WorldSound(w) && Grows(w, n) && VerifiedIntegration(w, taskId)
    ensures VerifiedIntegration(n, taskId)
  {
    hide Contained, KnownEntry, HasPassed, Grows, RepoSound, Q.QueueInvariant, Remembered, PhaseFacts, EntryFacts;
    var e: Entry, included, revision :|
      && e.request.taskId == taskId && KnownEntry(w, e)
      && Contained(w, e, included, revision) && HasPassed(w.events, e.request.attemptId, revision);
    KnownStays(w, n, e);
    ContainedStays(w, n, e, included, revision);
    PassedStays(w, n, e.request.attemptId, revision);
  }

  /** The evidence never goes away: what was integrated and verified stays in the history. */
  lemma {:induction false} EvidenceStays(run: seq<World>, actions: seq<Action>, i: nat, j: nat, taskId: string)
    requires IsRun(run, actions) && i <= j < |run| && VerifiedIntegration(run[i], taskId)
    ensures VerifiedIntegration(run[j], taskId)
    decreases j - i
  {
    if i < j {
      hide After, VerifiedIntegration, WorldSound, Grows;
      EvidenceStays(run, actions, i, j - 1, taskId);
      ReachableIsSound(run, actions, j - 1);
      StepKeepsSound(run[j - 1], actions[j - 1]);
      EvidenceStep(run[j - 1], run[j], taskId);
    }
  }

  /** Recovery of work that was not integrated takes up the very entry it requeued. */
  lemma RequeuedIsReclaimed(run: seq<World>, actions: seq<Action>, i: nat, now: int)
    requires IsRun(run, actions) && i < |run| && run[i].phase.Reclaiming?
    ensures var n := AfterReclaim(run[i], now); n.phase.Claimed? && n.phase.e.id == run[i].phase.e.id
  {
    ReachableIsSound(run, actions, i);
    hide After, RepoSound, PhaseFacts, Remembered, Q.QueueInvariant, KnownEntry, Q.NextToClaim;
  }

  /** Settling never finds its entry gone: the queue still shows it as integrating. */
  lemma SettlingFindsItsEntry(run: seq<World>, actions: seq<Action>, i: nat)
    requires IsRun(run, actions) && i < |run| && (run[i].phase.Verified? || run[i].phase.Failing?)
    ensures IsIntegrating(run[i], run[i].phase.e)
  {
    ReachableIsSound(run, actions, i);
    hide After, RepoSound, PhaseFacts, Remembered, Q.QueueInvariant, KnownEntry;
  }
}
