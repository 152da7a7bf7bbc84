/**
 * No work is dropped: when the queue processor or its recovery sets a task to DONE, every patch of the
 * revision that was enqueued is in the integration history, then and ever after.
 */
module QueueWork {
  import opened Options
  import opened TaskStates
  import opened CommitGraph
  import opened GitRepo
  import opened IntegrationDrift
  import opened QueueProcessor
  import opened QueueSafety
  import Q = IntegrationQueue

  /** What the first revision carries, one of the others carries. */
  ghost predicate CarriedBy(g: Graph, revision: string, a: string, b: string) {
    forall c :: Carries(g, revision, c) ==> Carries(g, a, c) || Carries(g, b, c)
  }

  /** Whatever a task branch has ever carried is on the branch or in the integration history. */
  ghost predicate TipsKept(w: World) {
    forall name: string, tip: string :: (name, tip) in w.tips ==>
      && name in w.owners && tip in w.repo.graph
      && (name in w.repo.branches ==> CarriedBy(w.repo.graph, tip, w.repo.branches[name].tip, w.repo.head))
  }

  /** The integration history carries all that a revision carries. */
  ghost predicate IntegratedWork(w: World, revision: string) {
    revision in w.repo.graph && forall c :: Carries(w.repo.graph, revision, c) ==> Carries(w.repo.graph, w.repo.head, c)
  }

  predicate CountsAsIntegrated(p: Phase) {
    p.MergedTip? || p.Integrated? || p.Announced? || p.Verified? || p.Recovered?
  }

  /** From the moment an entry counts as integrated, its work is. */
  ghost predicate PhaseWork(w: World) {
    CountsAsIntegrated(w.phase) ==> IntegratedWork(w, w.phase.e.request.taskRevision)
  }

  /** The entry that is worked on is an entry of the queue. */
  ghost predicate PhaseEntry(w: World) {
    w.phase.Idle? || exists k :: 0 <= k < |w.queue| && w.queue[k].id == w.phase.e.id && w.queue[k].request == w.phase.e.request
  }

  ghost predicate WorkSound(w: World) {
    WorldSound(w) && TipsKept(w) && PhaseWork(w) && PhaseEntry(w)
  }

  // --- What histories carry ---

  /** A longer history carries what it carried. */
  lemma CarriesMore(g: Graph, n: Graph, a: string, b: string, c: Change)
    requires WellFormed(g) && Extends(g, n) && a in g && IsAncestor(n, a, b) && Carries(g, a, c)
    ensures Carries(n, b, c)
  {
    var r :| r in g && IsAncestor(g, r, a) && g[r].change == Some(c);
    ExtensionKeepsAncestry(g, n, r, a);
    AncestorTransitive(n, r, a, b);
    assert r in n && n[r] == g[r];
  }

  /** New commits add nothing to what an old revision carries. */
  lemma CarriesNoMore(g: Graph, n: Graph, a: string, c: Change)
    requires WellFormed(g) && Extends(g, n) && a in g && Carries(n, a, c)
    ensures Carries(g, a, c)
  {
    var r :| r in n && IsAncestor(n, r, a) && n[r].change == Some(c);
    ExtensionKeepsAncestry(g, n, r, a);
    AncestorRank(g, r, a);
    assert n[r] == g[r];
  }

  /** History only grows: what is carried by either of two revisions is carried by any of their descendants. */
  lemma CarriedStays(w: World, n: World, revision: string, a: string, b: string)
    requires RepoSound(w.repo) && Grows(w, n) && revision in w.repo.graph && a in w.repo.graph
    requires CarriedBy(w.repo.graph, revision, a, w.repo.head) && IsAncestor(n.repo.graph, a, b)
    ensures CarriedBy(n.repo.graph, revision, b, n.repo.head)
  {
    var g, m := w.repo.graph, n.repo.graph;
    assert WellFormed(g) && w.repo.head in g && Extends(g, m) && IsAncestor(m, w.repo.head, n.repo.head);
    hide RepoSound, Grows, IsAncestor, WellFormed, Extends, Carries;
    forall c | Carries(m, revision, c) ensures Carries(m, b, c) || Carries(m, n.repo.head, c) {
      CarriesNoMore(g, m, revision, c);
      if Carries(g, a, c) {
        CarriesMore(g, m, a, b, c);
      } else {
        CarriesMore(g, m, w.repo.head, n.repo.head, c);
      }
    }
  }

  lemma WorkStays(w: World, n: World, revision: string)
    requires RepoSound(w.repo) && Grows(w, n) && IntegratedWork(w, revision)
    ensures IntegratedWork(n, revision)
  {
    assert w.repo.head in w.repo.graph && IsAncestor(n.repo.graph, n.repo.head, n.repo.head);
    assert Extends(w.repo.graph, n.repo.graph) && IsAncestor(n.repo.graph, w.repo.head, n.repo.head);
    hide RepoSound, Grows, IsAncestor, Carries;
    assert CarriedBy(w.repo.graph, revision, w.repo.head, w.repo.head);
    CarriedStays(w, n, revision, w.repo.head, n.repo.head);
  }

  /** A revision in the integration history is integrated work. */
  lemma AncestorsAreIntegrated(w: World, revision: string)
    requires RepoSound(w.repo) && IsAncestor(w.repo.graph, revision, w.repo.head)
    ensures IntegratedWork(w, revision)
  {
    var g := w.repo.graph;
    assert WellFormed(g) && w.repo.head in g;
    AncestorRank(g, revision, w.repo.head);
    forall c | Carries(g, revision, c) ensures Carries(g, w.repo.head, c) {
      assert Extends(g, g);
      CarriesMore(g, g, revision, w.repo.head, c);
    }
  }

  // --- Every step keeps the work of the branches ---

  /** The branches of the next world are branches of before, with their tips. */
  ghost predicate SameTips(w: World, n: World) {
    forall name :: name in n.repo.branches ==> name in w.repo.branches && n.repo.branches[name].tip == w.repo.branches[name].tip
  }

  lemma TipStays(w: World, n: World, name: string, tip: string)
    requires RepoSound(w.repo) && TipsKept(w) && Grows(w, n) && (name, tip) in w.tips
    requires name in n.repo.branches ==> name in w.repo.branches && n.repo.branches[name].tip == w.repo.branches[name].tip
    ensures name in n.owners && tip in n.repo.graph
    ensures name in n.repo.branches ==> CarriedBy(n.repo.graph, tip, n.repo.branches[name].tip, n.repo.head)
  {
    assert Extends(w.repo.graph, n.repo.graph);
    if name in n.repo.branches {
      var b := w.repo.branches[name].tip;
      assert b in w.repo.graph && IsAncestor(n.repo.graph, b, b);
      hide RepoSound, Grows, IsAncestor, CarriedBy, Extends;
      CarriedStays(w, n, tip, b, b);
    }
  }

  lemma OldTipsKept(w: World, n: World)
    requires RepoSound(w.repo) && TipsKept(w) && Grows(w, n) && SameTips(w, n) && n.tips == w.tips
    ensures TipsKept(n)
  {
    hide RepoSound, Grows, CarriedBy;
    forall name: string, tip: string | (name, tip) in n.tips
      ensures name in n.owners && tip in n.repo.graph
      ensures name in n.repo.branches ==> CarriedBy(n.repo.graph, tip, n.repo.branches[name].tip, n.repo.head)
    {
      TipStays(w, n, name, tip);
    }
  }

  lemma PrepareKeepsTips(w: World, name: string, attemptId: string, base: string, changes: seq<Change>, shas: seq<string>)
    requires RepoSound(w.repo) && TipsKept(w) && Grows(w, AfterPrepare(w, name, attemptId, base, changes, shas))
    ensures TipsKept(AfterPrepare(w, name, attemptId, base, changes, shas))
  {
    var n := AfterPrepare(w, name, attemptId, base, changes, shas);
    if n != w {
      var t := ChainTip(base, shas);
      ChainHistory(w.repo.graph, base, changes, shas);
      assert t in n.repo.graph;
      hide RepoSound, Grows, CarriedBy, CanPrepare, WithChain, ChainTip, IsAncestor, FreshNames;
      assert CarriedBy(n.repo.graph, t, t, n.repo.head) by { SelfCarried(n.repo.graph, t, n.repo.head); }
      forall other: string, tip: string | (other, tip) in n.tips && (other, tip) != (name, t)
        ensures other in n.owners && tip in n.repo.graph
        ensures other in n.repo.branches ==> CarriedBy(n.repo.graph, tip, n.repo.branches[other].tip, n.repo.head)
      {
        TipStays(w, n, other, tip);
      }
    }
  }

  lemma SelfCarried(g: Graph, revision: string, head: string)
    ensures CarriedBy(g, revision, revision, head)
  {
  }

  /** A replay carries all that its branch carried beyond the new base. */
  lemma ReplayCarries(g: Graph, tip: string, onto: string, changes: seq<Change>, shas: seq<string>, c: Change)
    requires WellFormed(g) && onto in g && IsReplay(g, tip, onto, changes, shas) && Carries(g, tip, c)
    ensures Carries(WithChain(g, onto, changes, shas), ChainTip(onto, shas), c)
  {
    var n := WithChain(g, onto, changes, shas);
    ChainHistory(g, onto, changes, shas);
    var r :| r in g && IsAncestor(g, r, tip) && g[r].change == Some(c);
    hide WithChain, ChainTip, FreshNames;
    if Carries(g, onto, c) {
      var q :| q in g && IsAncestor(g, q, onto) && g[q].change == Some(c);
      assert q in n && n[q] == g[q];
    } else {
      var i :| 0 <= i < |changes| && changes[i] == c;
      assert shas[i] in n && n[shas[i]].change == Some(c);
    }
  }

  /** What a replay makes of tips and branches. */
  lemma RebasedFacts(w: World, result: RebaseResult)
    requires RepoSound(w.repo) && BranchesKnown(w) && AfterRebase(w, result).repo != w.repo
    ensures var n, name, t := AfterRebase(w, result), w.phase.e.request.branch, ChainTip(w.phase.base, result.shas);
            && n.tips == w.tips + {(name, t)} && name in n.repo.branches && n.repo.branches[name].tip == t && t in n.repo.graph
            && name in n.owners && (forall x :: x in n.repo.branches && x != name ==> x in w.repo.branches && n.repo.branches[x] == w.repo.branches[x])
  {
    ChainHistory(w.repo.graph, w.phase.base, result.changes, result.shas);
    hide WithChain, IsAncestor, IsReplay, BranchSound, Unique;
  }

  /** A rebase that moves nothing has nothing new to remember. */
  lemma UnmovedTips(w: World, result: RebaseResult)
    requires BranchesKnown(w) && AfterRebase(w, result).repo == w.repo
    ensures AfterRebase(w, result).tips == w.tips
  {
    hide WithChain, ChainTip, IsAncestor, IsReplay;
  }

  lemma ReplayKeepsTips(w: World, result: RebaseResult)
    requires RepoSound(w.repo) && TipsKept(w) && BranchesKnown(w) && Grows(w, AfterRebase(w, result)) && AfterRebase(w, result).repo != w.repo
    ensures TipsKept(AfterRebase(w, result))
  {
    var n, name, t := AfterRebase(w, result), w.phase.e.request.branch, ChainTip(w.phase.base, result.shas);
    RebasedFacts(w, result);
    SelfCarried(n.repo.graph, t, n.repo.head);
    hide RepoSound, BranchesKnown, CarriedBy, ChainTip, Grows, AfterRebase;
    forall other: string, tip: string | (other, tip) in n.tips
      ensures other in n.owners && tip in n.repo.graph
      ensures other in n.repo.branches ==> CarriedBy(n.repo.graph, tip, n.repo.branches[other].tip, n.repo.head)
    {
      if (other, tip) in w.tips {
        if other == name {
          ReplayedTip(w, n, result, tip);
        } else {
          TipStays(w, n, other, tip);
        }
      }
    }
  }

  lemma RebaseKeepsTips(w: World, result: RebaseResult)
    requires RepoSound(w.repo) && TipsKept(w) && BranchesKnown(w) && Grows(w, AfterRebase(w, result))
    ensures TipsKept(AfterRebase(w, result))
  {
    hide RepoSound, BranchesKnown, Grows, CarriedBy, AfterRebase;
    if AfterRebase(w, result).repo == w.repo {
      UnmovedTips(w, result);
      OldTipsKept(w, AfterRebase(w, result));
    } else {
      ReplayKeepsTips(w, result);
    }
  }

  lemma ReplayedTip(w: World, n: World, result: RebaseResult, tip: string)
    requires RepoSound(w.repo) && TipsKept(w) && Grows(w, n) && n == AfterRebase(w, result) && n.repo != w.repo
    requires (w.phase.e.request.branch, tip) in w.tips
    ensures w.phase.e.request.branch in n.owners && tip in n.repo.graph
    ensures CarriedBy(n.repo.graph, tip, n.repo.branches[w.phase.e.request.branch].tip, n.repo.head)
  {
    var g, m, base, previous := w.repo.graph, n.repo.graph, w.phase.base, TipOf(w, w.phase.e);
    assert WellFormed(g) && w.repo.head in g && Extends(g, m) && n.repo.head == w.repo.head;
    assert IsAncestor(m, n.repo.head, n.repo.head);
    hide RepoSound, WithChain, ChainTip, IsAncestor, FreshNames, IsReplay, Carries, WellFormed;
    forall c | Carries(m, tip, c) ensures Carries(m, ChainTip(base, result.shas), c) || Carries(m, n.repo.head, c) {
      CarriesNoMore(g, m, tip, c);
      if Carries(g, previous, c) {
        ReplayCarries(g, previous, base, result.changes, result.shas, c);
      } else {
        CarriesMore(g, m, w.repo.head, n.repo.head, c);
      }
    }
  }

  lemma MovesKeepTips(w: World, action: Action)
    requires action.OthersCommit? || action.DeleteBranch? || action.RecoveryMerge? || action.Merge? || IsQuiet(action)
    ensures SameTips(w, After(w, action)) && After(w, action).tips == w.tips
  {
    if IsQuiet(action) {
      QuietStep(w, action);
      hide After;
    } else {
      hide MergeFastForward, WithCommit;
    }
  }

  lemma StepKeepsTips(w: World, action: Action)
    requires RepoSound(w.repo) && TipsKept(w) && BranchesKnown(w) && Grows(w, After(w, action))
    ensures TipsKept(After(w, action))
  {
    hide RepoSound, TipsKept, BranchesKnown, Grows, AfterPrepare, AfterRebase;
    match action
    case Prepare(name, attemptId, base, changes, shas) => PrepareKeepsTips(w, name, attemptId, base, changes, shas);
    case Rebase(result) => RebaseKeepsTips(w, result);
    case _ =>
      MovesKeepTips(w, action);
      hide After;
      OldTipsKept(w, After(w, action));
  }

  // --- What counts as integrated is integrated ---

  /** The steps that find an entry integrated, or integrate it. */
  predicate FindsIntegrated(action: Action) {
    action.EvaluateDrift? || action.Examine? || action.Merge? || action.Recover?
  }

  /** Any other step only goes on with an entry that counts as integrated already. */
  lemma GoesOnIntegrated(w: World, action: Action)
    requires !FindsIntegrated(action) && CountsAsIntegrated(After(w, action).phase)
    ensures CountsAsIntegrated(w.phase) && After(w, action).phase.e == w.phase.e
  {
    hide IsAncestor, IsReplay, WithChain, ChainTip, MergeFastForward, HasCompleted, Q.Claimed, Q.NextToClaim, Q.Completed, Q.Failed,
      Q.Requeued, Q.Enqueued, Q.IntegratingWithId, CanPrepare, IsIntegrating;
  }

  /** A known tip of a branch whose own tip is in the integration history is integrated work. */
  lemma TipIsIntegrated(w: World, e: Entry)
    requires RepoSound(w.repo) && TipsKept(w) && KnownEntry(w, e) && BranchExists(w, e)
    requires IsAncestor(w.repo.graph, TipOf(w, e), w.repo.head)
    ensures IntegratedWork(w, e.request.taskRevision)
  {
    var g, tip := w.repo.graph, TipOf(w, e);
    assert WellFormed(g) && w.repo.head in g && tip in g && Extends(g, g);
    hide RepoSound, IsAncestor, Carries;
    forall c | Carries(g, e.request.taskRevision, c) ensures Carries(g, w.repo.head, c) {
      if Carries(g, tip, c) {
        CarriesMore(g, g, tip, w.repo.head, c);
      }
    }
  }

  lemma ExamineFindsWork(w: World)
    requires RepoSound(w.repo) && TipsKept(w) && PhaseFacts(w) && w.phase.Replayed? && KnownEntry(w, w.phase.e)
    ensures PhaseWork(AfterExamine(w))
  {
    var n := AfterExamine(w);
    if CountsAsIntegrated(n.phase) {
      hide RepoSound, IsAncestor, TipsKept, IntegratedWork;
      TipIsIntegrated(w, w.phase.e);
      SameRepoSameWork(w, n, w.phase.e.request.taskRevision);
    }
  }

  lemma SameRepoSameWork(w: World, n: World, revision: string)
    requires n.repo == w.repo && IntegratedWork(w, revision)
    ensures IntegratedWork(n, revision)
  {
  }

  lemma MergeFindsWork(w: World, ok: bool)
    requires RepoSound(w.repo) && RepoSound(AfterMerge(w, ok).repo) && TipsKept(AfterMerge(w, ok)) && w.phase.Merging? && KnownEntry(w, w.phase.e)
    ensures PhaseWork(AfterMerge(w, ok))
  {
    var n := AfterMerge(w, ok);
    if CountsAsIntegrated(n.phase) {
      var e := w.phase.e;
      MergeKeepsSound(w.repo, e.request.branch);
      assert BranchExists(n, e) && TipOf(n, e) == TipOf(w, e) && KnownEntry(n, e) && IsAncestor(n.repo.graph, TipOf(n, e), n.repo.head);
      hide RepoSound, IsAncestor, TipsKept, IntegratedWork, AfterMerge, KnownEntry;
      TipIsIntegrated(n, e);
      assert n.phase.e == e by { MergedPhase(w, ok); }
    }
  }

  lemma MergedPhase(w: World, ok: bool)
    requires w.phase.Merging?
    ensures AfterMerge(w, ok).phase.e == w.phase.e
  {
    hide IsAncestor, MergeFastForward;
  }

  lemma RevisionFindsWork(w: World, action: Action)
    requires RepoSound(w.repo) && PhaseWork(w) && (action.EvaluateDrift? || action.Recover?)
    ensures PhaseWork(After(w, action))
  {
    var n := After(w, action);
    if CountsAsIntegrated(n.phase) {
      FoundInHistory(w, action);
      hide RepoSound, IsAncestor, IntegratedWork, After;
      if n.phase == w.phase {
        SameRepoSameWork(w, n, n.phase.e.request.taskRevision);
      } else {
        AncestorsAreIntegrated(w, n.phase.e.request.taskRevision);
        SameRepoSameWork(w, n, n.phase.e.request.taskRevision);
      }
    }
  }

  lemma FoundInHistory(w: World, action: Action)
    requires (action.EvaluateDrift? || action.Recover?) && CountsAsIntegrated(After(w, action).phase)
    ensures var n := After(w, action);
            n.repo == w.repo && (n.phase == w.phase || IsAncestor(w.repo.graph, n.phase.e.request.taskRevision, w.repo.head))
  {
    hide IsAncestor, Q.IntegratingWithId, HasPassed;
  }

  lemma StepKeepsWork(w: World, action: Action)
    requires WorldSound(w) && TipsKept(w) && PhaseWork(w)
    requires WorldSound(After(w, action)) && Grows(w, After(w, action)) && TipsKept(After(w, action))
    ensures PhaseWork(After(w, action))
  {
    var n := After(w, action);
    hide RepoSound, Q.QueueInvariant, Remembered, TipsKept, IntegratedWork, KnownEntry, Grows, Contained, RebaseBase;
    if action.Examine? && w.phase.Replayed? {
      ExamineFindsWork(w);
    } else if action.Merge? && w.phase.Merging? {
      hide PhaseFacts;
      MergeFindsWork(w, action.ok);
    } else if action.EvaluateDrift? || action.Recover? {
      hide After, EntryFacts, PhaseFacts;
      RevisionFindsWork(w, action);
    } else if CountsAsIntegrated(n.phase) {
      if action.Examine? || action.Merge? {
        assert n == w;
      } else {
        GoesOnIntegrated(w, action);
      }
      hide After, EntryFacts, PhaseFacts;
      WorkStays(w, n, w.phase.e.request.taskRevision);
    }
  }

  // --- The entry that is worked on is in the queue ---

  /** A step keeps the entry it works on, or takes one from the queue. */
  lemma EntryFromQueue(w: World, action: Action)
    ensures var n := After(w, action);
            || n.phase.Idle? || (!w.phase.Idle? && n.phase.e == w.phase.e)
            || exists k :: 0 <= k < |w.queue| && w.queue[k].id == n.phase.e.id && w.queue[k].request == n.phase.e.request
  {
    hide IsAncestor, IsReplay, WithChain, ChainTip, DriftOf, MergeFastForward, HasCompleted, HasPassed, CanPrepare, Q.Claimed, Q.Completed,
      Q.Failed, Q.Requeued, Q.Enqueued, Q.NextToClaim, Q.IntegratingWithId;
  }

  lemma StepKeepsPhaseEntry(w: World, action: Action)
    requires PhaseEntry(w)
    ensures PhaseEntry(After(w, action))
  {
    var n := After(w, action);
    EntryFromQueue(w, action);
    QueueMoves(w, action);
    if n.queue != w.queue {
      QueueStepEntries(w.queue, QueueStep(w, action).value);
    }
    hide After, Q.After, QueueStep;
    if !n.phase.Idle? {
      var k :| 0 <= k < |w.queue| && w.queue[k].id == n.phase.e.id && w.queue[k].request == n.phase.e.request;
      assert n.queue[k].id == w.queue[k].id && n.queue[k].request == w.queue[k].request;
    }
  }

  // --- Over whole runs ---

  lemma {:induction false} WorkInvariant(run: seq<World>, actions: seq<Action>, i: nat)
    requires IsRun(run, actions) && i < |run|
    ensures WorkSound(run[i])
  {
    ReachableIsSound(run, actions, i);
    hide WorldSound;
    if i > 0 {
      WorkInvariant(run, actions, i - 1);
      hide After, Grows, TipsKept, PhaseWork, PhaseEntry;
      StepKeepsSound(run[i - 1], actions[i - 1]);
      TipsStep(run[i - 1], actions[i - 1]);
      StepKeepsWork(run[i - 1], actions[i - 1]);
      StepKeepsPhaseEntry(run[i - 1], actions[i - 1]);
    }
  }

  lemma TipsStep(w: World, action: Action)
    requires WorldSound(w) && TipsKept(w) && Grows(w, After(w, action))
    ensures TipsKept(After(w, action))
  {
    hide RepoSound, Q.QueueInvariant, PhaseFacts, EntryFacts, TipsKept, Grows, After, BranchesKnown, KnownEntry;
    StepKeepsTips(w, action);
  }

  lemma {:induction false} WorkRemains(run: seq<World>, actions: seq<Action>, i: nat, j: nat, revision: string)
    requires IsRun(run, actions) && i <= j < |run| && IntegratedWork(run[i], revision)
    ensures IntegratedWork(run[j], revision)
    decreases j
  {
    if i < j {
      hide After, WorldSound, Grows, IntegratedWork;
      WorkRemains(run, actions, i, j - 1, revision);
      ReachableIsSound(run, actions, j - 1);
      StepKeepsSound(run[j - 1], actions[j - 1]);
      SoundRepo(run[j - 1]);
      WorkStays(run[j - 1], run[j], revision);
    }
  }

  lemma SoundRepo(w: World)
    requires WorldSound(w)
    ensures RepoSound(w.repo)
  {
  }

  /** The entry of the queue whose task a step sets to DONE. */
  ghost predicate FinishesEntry(w: World, n: World, k: nat, taskId: string) {
    && k < |w.queue| && k < |n.queue| && w.queue[k].request.taskId == taskId
    && w.queue[k].status == Q.Integrating && n.queue[k].status == Q.CompletedEntry
  }

  lemma SettledEntryOf(w: World, action: Action, taskId: string)
    requires WorkSound(w) && action.SettleSuccess? && w.phase.Verified? && w.phase.e.request.taskId == taskId
    requires After(w, action).tasks != w.tasks
    ensures exists k: nat :: FinishesEntry(w, After(w, action), k, taskId) && IntegratedWork(w, w.queue[k].request.taskRevision)
  {
    hide RepoSound, PhaseFacts, Remembered, KnownEntry, TipsKept, IntegratedWork;
    var i := Q.IntegratingWithId(w.queue, w.phase.e.id);
    var k :| 0 <= k < |w.queue| && w.queue[k].id == w.phase.e.id && w.queue[k].request == w.phase.e.request;
    assert k == i;
    assert FinishesEntry(w, After(w, action), k, taskId);
  }

  /**
   * Whenever the processor or its recovery sets a task to DONE, an entry of the task is completed, and every
   * patch of the revision it enqueued is in the integration history, then and at every later moment.
   */
  lemma DoneWorkIsIntegrated(run: seq<World>, actions: seq<Action>, i: nat, taskId: string) returns (k: nat)
    requires IsRun(run, actions) && i < |actions| && !actions[i].SetTaskStatus?
    requires taskId in run[i + 1].tasks && run[i + 1].tasks[taskId] == Done
    requires taskId !in run[i].tasks || run[i].tasks[taskId] != Done
    ensures FinishesEntry(run[i], run[i + 1], k, taskId)
    ensures forall j :: i <= j < |run| ==> IntegratedWork(run[j], run[i].queue[k].request.taskRevision)
  {
    WorkInvariant(run, actions, i);
    OnlySettlingFinishes(run[i], actions[i], taskId);
    hide After, WorkSound, IntegratedWork;
    SettledEntryOf(run[i], actions[i], taskId);
    k :| FinishesEntry(run[i], run[i + 1], k, taskId) && IntegratedWork(run[i], run[i].queue[k].request.taskRevision);
    forall j | i <= j < |run| ensures IntegratedWork(run[j], run[i].queue[k].request.taskRevision) {
      WorkRemains(run, actions, i, j, run[i].queue[k].request.taskRevision);
    }
  }

  /** With that, every such patch is in the integration history exactly once. */
  lemma DoneWorkIsThereOnce(run: seq<World>, actions: seq<Action>, i: nat, j: nat, taskId: string, k: nat, c: Change) returns (r: string)
    requires IsRun(run, actions) && i < |actions| && i <= j < |run| && FinishesEntry(run[i], run[i + 1], k, taskId)
    requires IntegratedWork(run[j], run[i].queue[k].request.taskRevision)
    requires Carries(run[j].repo.graph, run[i].queue[k].request.taskRevision, c)
    ensures r in run[j].repo.graph && IsAncestor(run[j].repo.graph, r, run[j].repo.head) && run[j].repo.graph[r].change == Some(c)
    ensures forall q :: q in run[j].repo.graph && IsAncestor(run[j].repo.graph, q, run[j].repo.head) && run[j].repo.graph[q].change == Some(c) ==> q == r
  {
    var g, head := run[j].repo.graph, run[j].repo.head;
    hide IsRun, IsAncestor;
    r :| r in g && IsAncestor(g, r, head) && g[r].change == Some(c);
    forall q | q in g && IsAncestor(g, q, head) && g[q].change == Some(c) ensures q == r {
      IntegratedAtMostOnce(run, actions, j, r, q);
    }
  }

  // --- Why the processor merges, and whose task it finishes ---

  /** The entry was found current: HEAD was the base of its attempt, from which its revision descends. */
  ghost predicate FoundCurrent(w: World, e: Entry) {
    && w.phase == Checked(e) && w.repo.head == e.request.baseRevision
    && IsAncestor(w.repo.graph, e.request.baseRevision, e.request.taskRevision)
  }

  /** The tip of the branch passed its verification after a rebase. */
  ghost predicate TipPassed(w: World, e: Entry) {
    BranchExists(w, e) ==> ReconciliationVerified(e.request.attemptId, TipOf(w, e), true) in w.events
  }

  ghost predicate MayMerge(run: seq<World>, i: nat, e: Entry)
    requires i < |run|
  {
    TipPassed(run[i], e) || exists k :: 0 <= k < i && FoundCurrent(run[k], e)
  }

  lemma MergingBegins(w: World, action: Action)
    requires After(w, action).phase.Merging?
    ensures var n := After(w, action);
            w.phase == n.phase || FoundCurrent(w, n.phase.e) || TipPassed(n, n.phase.e)
  {
    hide IsAncestor, IsReplay, WithChain, ChainTip, MergeFastForward, HasCompleted, HasPassed, CanPrepare, Q.Claimed, Q.Completed, Q.Failed,
      Q.Requeued, Q.Enqueued, Q.NextToClaim, Q.IntegratingWithId;
  }

  /** While the merge is due, nobody moves the tip. */
  lemma TipRests(w: World, action: Action, e: Entry)
    requires w.phase == Merging(e) && After(w, action).phase == w.phase && TipPassed(w, e) && Grows(w, After(w, action))
    requires e.request.branch in w.owners
    ensures TipPassed(After(w, action), e)
  {
    var n := After(w, action);
    assert BranchExists(n, e) ==> BranchExists(w, e) && TipOf(n, e) == TipOf(w, e) by { RestingTips(w, action, e); }
    hide After, Advances;
    if BranchExists(n, e) {
      var k :| 0 <= k < |w.events| && w.events[k] == ReconciliationVerified(e.request.attemptId, TipOf(w, e), true);
      assert n.events[k] == n.events[..|w.events|][k];
    }
  }

  lemma RestingTips(w: World, action: Action, e: Entry)
    requires w.phase == Merging(e) && e.request.branch in w.owners
    ensures BranchExists(After(w, action), e) ==> BranchExists(w, e) && TipOf(After(w, action), e) == TipOf(w, e)
  {
    if IsQuiet(action) {
      QuietStep(w, action);
      hide After;
    } else {
      hide MergeFastForward, WithCommit, WithChain, ChainTip, IsAncestor, IsReplay, CanPrepare;
    }
  }

  lemma {:induction false} MergesAreJustified(run: seq<World>, actions: seq<Action>, i: nat)
    requires IsRun(run, actions) && i < |run| && run[i].phase.Merging?
    ensures MayMerge(run, i, run[i].phase.e)
  {
    if i > 0 {
      var w, n, e := run[i - 1], run[i], run[i].phase.e;
      MergingBegins(w, actions[i - 1]);
      if w.phase == n.phase {
        MergesAreJustified(run, actions, i - 1);
        ReachableIsSound(run, actions, i - 1);
        StepKeepsSound(w, actions[i - 1]);
        if TipPassed(w, e) {
          KnownOwner(w);
          hide After, WorldSound, Grows, TipPassed, FoundCurrent;
          TipRests(w, actions[i - 1], e);
        }
      }
      hide After, TipPassed, FoundCurrent;
    }
  }

  lemma KnownOwner(w: World)
    requires WorldSound(w) && w.phase.Merging?
    ensures w.phase.e.request.branch in w.owners
  {
    hide RepoSound, Q.QueueInvariant, Remembered, PhaseFacts, IsIntegrating;
  }

  /**
   * The processor moves HEAD to the tip of the branch of its entry, and only when the entry was found
   * current before, or that very tip passed its verification after a rebase.
   */
  lemma OnlyFitWorkIsMerged(run: seq<World>, actions: seq<Action>, i: nat)
    requires IsRun(run, actions) && i < |actions| && run[i + 1].repo.head != run[i].repo.head
    requires !actions[i].OthersCommit? && !actions[i].RecoveryMerge?
    ensures run[i].phase.Merging? && BranchExists(run[i], run[i].phase.e) && run[i + 1].repo.head == TipOf(run[i], run[i].phase.e)
    ensures MayMerge(run, i, run[i].phase.e)
  {
    OnlyMergesMove(run[i], actions[i]);
    hide After, MayMerge;
    MergesAreJustified(run, actions, i);
  }

  /** A rebased branch goes to its verification only when it lies on the HEAD of that moment, and beyond it. */
  lemma OnlyCurrentWorkIsVerified(run: seq<World>, actions: seq<Action>, i: nat)
    requires IsRun(run, actions) && i < |actions| && run[i + 1].phase.Reconciled? && !run[i].phase.Reconciled?
    ensures var w, e := run[i], run[i + 1].phase.e;
            && BranchExists(w, e) && IsAncestor(w.repo.graph, w.repo.head, TipOf(w, e)) && !IsAncestor(w.repo.graph, TipOf(w, e), w.repo.head)
  {
    OnlyExamineReconciles(run[i], actions[i]);
    hide After;
  }

  lemma OnlyExamineReconciles(w: World, action: Action)
    requires After(w, action).phase.Reconciled? && !w.phase.Reconciled?
    ensures var e := After(w, action).phase.e;
            && BranchExists(w, e) && IsAncestor(w.repo.graph, w.repo.head, TipOf(w, e)) && !IsAncestor(w.repo.graph, TipOf(w, e), w.repo.head)
  {
    hide IsAncestor, WithChain, ChainTip, IsReplay, CanPrepare, HasCompleted, HasPassed, MergeFastForward, Q.Claimed, Q.Completed,
      Q.Failed, Q.Requeued, Q.Enqueued, Q.NextToClaim, Q.IntegratingWithId;
  }

  lemma OnlyMergesMove(w: World, action: Action)
    requires After(w, action).repo.head != w.repo.head && !action.OthersCommit? && !action.RecoveryMerge?
    ensures w.phase.Merging? && BranchExists(w, w.phase.e) && After(w, action).repo.head == TipOf(w, w.phase.e)
  {
    if IsQuiet(action) {
      QuietStep(w, action);
      hide After;
    } else {
      hide IsAncestor, WithChain, ChainTip, IsReplay, CanPrepare;
    }
  }

  /** The phases of an entry whose task was seen to be integrating. */
  predicate IsTrusted(p: Phase) {
    || p.Checked? || p.Drifted? || p.Replayed? || p.Reconciled? || p.Merging? || p.MergedTip?
    || ((p.Integrated? || p.Announced? || p.Verified?) && p.mayFinish)
  }

  ghost predicate SeenIntegrating(w: World, e: Entry) {
    !w.phase.Idle? && w.phase.e == e && e.request.taskId in w.tasks && w.tasks[e.request.taskId] == Integrating
  }

  lemma TrustBegins(w: World, action: Action)
    requires IsTrusted(After(w, action).phase)
    ensures var n := After(w, action);
            (IsTrusted(w.phase) && w.phase.e == n.phase.e) || SeenIntegrating(w, n.phase.e)
  {
    hide IsAncestor, IsReplay, WithChain, ChainTip, DriftOf, MergeFastForward, HasCompleted, HasPassed, CanPrepare, Q.Claimed, Q.Completed,
      Q.Failed, Q.Requeued, Q.Enqueued, Q.NextToClaim, Q.IntegratingWithId;
  }

  lemma {:induction false} TrustedWasSeen(run: seq<World>, actions: seq<Action>, i: nat) returns (k: nat)
    requires IsRun(run, actions) && i < |run| && IsTrusted(run[i].phase)
    ensures k < i && SeenIntegrating(run[k], run[i].phase.e)
  {
    hide After, SeenIntegrating;
    if i == 0 {
      assert false;
    } else {
      TrustBegins(run[i - 1], actions[i - 1]);
      if SeenIntegrating(run[i - 1], run[i].phase.e) {
        k := i - 1;
      } else {
        k := TrustedWasSeen(run, actions, i - 1);
      }
    }
  }

  /** The processor finishes only a task that it has seen to be INTEGRATING while it worked on the entry. */
  lemma OnlyIntegratingIsFinished(run: seq<World>, actions: seq<Action>, i: nat, taskId: string) returns (k: nat)
    requires IsRun(run, actions) && i < |actions| && !actions[i].SetTaskStatus?
    requires taskId in run[i + 1].tasks && run[i + 1].tasks[taskId] == Done
    requires taskId !in run[i].tasks || run[i].tasks[taskId] != Done
    ensures k < i && !run[k].phase.Idle? && !run[i].phase.Idle? && run[k].phase.e == run[i].phase.e
    ensures run[i].phase.e.request.taskId == taskId && taskId in run[k].tasks && run[k].tasks[taskId] == Integrating
  {
    OnlySettlingFinishes(run[i], actions[i], taskId);
    assert IsTrusted(run[i].phase);
    hide After;
    k := TrustedWasSeen(run, actions, i);
  }
}
