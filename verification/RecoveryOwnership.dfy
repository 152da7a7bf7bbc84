/**
 * Crash recovery under an ownership that may lapse between any two of its transactions
 * (packages/orchestrator/src/crash-recovery.ts, recoveryTransaction).
 */
module RecoveryOwnership {
  import opened Options
  import opened TaskStates
  import opened CrashRecovery

  // --- The transactions of one call ---

  /** The verification stage goes by a status of the checks. */
  predicate Verifies(s: State, f: Facts) {
    AtWork(s, Verifying) && f.inspection.Available? && f.inspection.headRevision == LastAttempt(s).baseRevision
  }

  /** No status is recorded, and the checks are run again. */
  predicate Reruns(s: State, f: Facts)
    requires s.attempts != []
  {
    Latest(s.events, VerificationEvent, LastAttempt(s).id).None? && f.checksConfigured && f.rerun.Some?
  }

  /** What the rerun, if there is one, leaves in the store. */
  function Rerun(s: State, f: Facts): State
    requires s.attempts != []
  {
    if Reruns(s, f) then AfterRerun(s, f.rerun.value) else s
  }

  predicate Commits(s: State, f: Facts)
    requires s.attempts != []
  {
    StatusToApply(s, f) == Some(ChecksPassed) && f.commit.Some?
  }

  /** The store as the call finds it, and after each transaction that is not its last. */
  function Checkpoints(s: State, f: Facts): (states: seq<State>)
    ensures states != [] && states[0] == s && forall i :: 0 <= i < |states| ==> states[i].head == s.head
  {
    if !Verifies(s, f) then [s]
    else
      [s] + (if Reruns(s, f) then [Rerun(s, f)] else [])
      + (if Commits(s, f) then [AfterCommit(Rerun(s, f), f.commit.value)] else [])
  }

  /** The commit that the call would integrate. */
  function CommitToIntegrate(s: State, f: Facts): Option<string> {
    if AtWork(s, Integrating) then RecordedCommit(s)
    else if Verifies(s, f) && Commits(s, f) then f.commit
    else None
  }

  /** Git offers a fast-forward to the commit that moves HEAD. */
  predicate FastForwards(s: State, f: Facts, commit: string) {
    && f.headReadable && f.isAncestor(commit, s.head) == Some(false)
    && f.branchExists == Some(true) && f.branchTip == Some(commit) && f.isAncestor(s.head, commit) == Some(true)
    && f.integrate.Some? && f.integrate.value != s.head
  }

  // --- What a lapse cuts off ---

  /** Two states with the same store. */
  predicate SameStore(a: State, b: State) {
    a.status == b.status && a.attempts == b.attempts && a.events == b.events
  }

  lemma RefusedEnds(s: State, f: Facts)
    requires !MayWrite(f)
    ensures Human(s, f) == Retry(s, f) == Preserve(s, f) == Fail(s, f) == Cancel(s, f) == Result(s, OwnershipLost)
    ensures s.attempts != [] ==> forall commit, revision :: Finish(s, f, commit, revision) == Result(s, OwnershipLost)
  {
    hide Latest;
  }

  /** An integration whose last transaction is refused moves HEAD exactly when Git offers the fast-forward. */
  lemma RefusedIntegration(s: State, f: Facts, commit: string)
    requires !MayWrite(f) && s.attempts != []
    ensures var r := Integration(s, f, commit);
            r.outcome == OwnershipLost && SameStore(r.state, s) && (r.state.head != s.head <==> FastForwards(s, f, commit))
  {
    RefusedEnds(s, f);
    if f.integrate.Some? {
      RefusedEnds(s.(head := f.integrate.value), f);
    }
    hide Human, Fail, Cancel, Finish, RecordedAt;
  }

  /** An accepted transaction does what it does under an ownership that lasts. */
  lemma AcceptedEnds(s: State, f: Facts)
    requires MayWrite(f)
    ensures var g := f.(lapse := None);
            && Human(s, f) == Human(s, g) && Retry(s, f) == Retry(s, g) && Preserve(s, f) == Preserve(s, g)
            && Fail(s, f) == Fail(s, g) && Cancel(s, f) == Cancel(s, g)
            && (s.attempts != [] ==> forall commit, revision :: Finish(s, f, commit, revision) == Finish(s, g, commit, revision))
  {
    hide Latest, WithLast;
  }

  lemma AcceptedIntegration(s: State, f: Facts, commit: string)
    requires MayWrite(f) && s.attempts != []
    ensures Integration(s, f, commit) == Integration(s, f.(lapse := None), commit)
    ensures var r := Integration(s, f, commit);
            r.outcome != OwnershipLost && (r.state.head != s.head <==> FastForwards(s, f, commit))
  {
    AcceptedEnds(s, f);
    IntegrationEnds(s, f.(lapse := None), commit);
    EndsKeepHead(s, f);
    if f.integrate.Some? {
      AcceptedEnds(s.(head := f.integrate.value), f);
      EndsKeepHead(s.(head := f.integrate.value), f);
    }
    hide Human, Fail, Cancel, Finish, RecordedAt;
  }

  lemma EndsKeepHead(s: State, f: Facts)
    ensures Human(s, f).state.head == Retry(s, f).state.head == Preserve(s, f).state.head == s.head
    ensures Fail(s, f).state.head == Cancel(s, f).state.head == s.head
    ensures s.attempts != [] ==> forall commit, revision :: Finish(s, f, commit, revision).state.head == s.head
  {
    hide Latest, WithLast;
  }

  /** A call that ends lost at the n-th checkpoint, or else as under an ownership that lasts. */
  ghost predicate Cut(r: Result, steady: Result, points: seq<State>, n: nat, moves: bool)
    requires points != []
  {
    && (n < |points| ==> r.outcome == OwnershipLost && SameStore(r.state, points[n]))
    && (n >= |points| ==> r == steady && r.outcome != OwnershipLost)
    && (r.state.head != points[0].head <==> moves && n >= |points| - 1)
  }

  lemma SettlesCut(s: State, f: Facts)
    requires f.lapse.Some?
    ensures var g := f.(lapse := None);
            && Cut(Human(s, f), Human(s, g), [s], f.lapse.value, false) && Cut(Retry(s, f), Retry(s, g), [s], f.lapse.value, false)
            && Cut(Preserve(s, f), Preserve(s, g), [s], f.lapse.value, false) && Cut(Fail(s, f), Fail(s, g), [s], f.lapse.value, false)
            && Cut(Cancel(s, f), Cancel(s, g), [s], f.lapse.value, false)
  {
    EndsKeepHead(s, f);
    if MayWrite(f) {
      AcceptedEnds(s, f);
      SettlesEnd(s, f.(lapse := None));
    } else {
      RefusedEnds(s, f);
    }
    hide Human, Retry, Preserve, Fail, Cancel;
  }

  lemma IntegrationCut(s: State, f: Facts, commit: string)
    requires f.lapse.Some? && s.attempts != []
    ensures Cut(Integration(s, f, commit), Integration(s, f.(lapse := None), commit), [s], f.lapse.value, FastForwards(s, f, commit))
  {
    if MayWrite(f) {
      AcceptedIntegration(s, f, commit);
    } else {
      RefusedIntegration(s, f, commit);
    }
    hide Integration;
  }

  /** A transaction in front of a call. */
  lemma OneMorePoint(s: State, r: Result, later: Result, steady: Result, points: seq<State>, n: nat, moves: bool)
    requires points != [] && points[0].head == s.head
    requires n == 0 ==> r == Result(s, OwnershipLost)
    requires n > 0 ==> r == later && Cut(later, steady, points, n - 1, moves)
    ensures Cut(r, steady, [s] + points, n, moves)
  {
  }

  lemma VerifiedCut(s: State, f: Facts)
    requires f.lapse.Some? && s.attempts != []
    ensures var points := if f.commit.Some? then [s, AfterCommit(s, f.commit.value)] else [s];
            Cut(FromVerification(s, f), FromVerification(s, f.(lapse := None)), points, f.lapse.value,
                f.commit.Some? && FastForwards(s, f, f.commit.value))
  {
    SettlesCut(s, f);
    if f.commit.Some? {
      var next, g := AfterCommit(s, f.commit.value), f.(lapse := None);
      IntegrationCut(next, Spent(f), f.commit.value);
      assert Spent(g) == g && Spent(f).(lapse := None) == g;
      assert next.head == s.head && next.attempts == s.attempts;
      hide Integration, Cut, AfterCommit;
      OneMorePoint(s, FromVerification(s, f), Integration(next, Spent(f), f.commit.value), Integration(next, g, f.commit.value), [next],
                   f.lapse.value, FastForwards(s, f, f.commit.value));
      assert [s] + [next] == [s, next];
    }
  }

  lemma ChecksCut(s: State, f: Facts, status: CheckStatus)
    requires f.lapse.Some? && s.attempts != []
    ensures var commits := status == ChecksPassed && f.commit.Some?;
            Cut(ByChecks(s, f, status), ByChecks(s, f.(lapse := None), status),
                [s] + (if commits then [AfterCommit(s, f.commit.value)] else []), f.lapse.value,
                commits && FastForwards(s, f, f.commit.value))
  {
    SettlesCut(s, f);
    VerifiedCut(s, f);
    hide Cut, FromVerification, Fail, Cancel, FastForwards, AfterCommit;
    assert [s] + [] == [s];
    if f.commit.Some? {
      assert [s] + [AfterCommit(s, f.commit.value)] == [s, AfterCommit(s, f.commit.value)];
    }
  }

  /** The verification stage, for what its checkpoints and its commit are. */
  lemma VerifyingCut(s: State, f: Facts)
    requires f.lapse.Some? && Verifies(s, f)
    ensures Cut(VerifyingStage(s, f), VerifyingStage(s, f.(lapse := None)), Checkpoints(s, f), f.lapse.value,
                Commits(s, f) && FastForwards(s, f, f.commit.value))
  {
    var id, g := LastAttempt(s).id, f.(lapse := None);
    var recorded := Latest(s.events, VerificationEvent, id);
    SettlesCut(s, f);
    if recorded.Some? {
      ChecksCut(s, f, recorded.value.status);
    } else if Reruns(s, f) {
      var next, tail := AfterRerun(s, f.rerun.value), if Commits(s, f) then [AfterCommit(Rerun(s, f), f.commit.value)] else [];
      ChecksCut(next, Spent(f), f.rerun.value);
      assert Spent(g) == g && Spent(f).(lapse := None) == g && next.head == s.head && next.attempts == s.attempts;
      hide Cut, ByChecks, AfterCommit, AfterRerun, FastForwards;
      OneMorePoint(s, VerifyingStage(s, f), ByChecks(next, Spent(f), f.rerun.value), ByChecks(next, g, f.rerun.value), [next] + tail,
                   f.lapse.value, Commits(s, f) && FastForwards(next, Spent(f), f.commit.value));
      assert [s] + ([next] + tail) == [s] + [next] + tail;
    }
  }

  predicate MovesHead(s: State, f: Facts) {
    CommitToIntegrate(s, f).Some? && FastForwards(s, f, CommitToIntegrate(s, f).value)
  }

  lemma IntegratingCut(s: State, f: Facts)
    requires f.lapse.Some? && AtWork(s, Integrating)
    ensures Cut(IntegratingStage(s, f), IntegratingStage(s, f.(lapse := None)), [s], f.lapse.value, MovesHead(s, f))
  {
    SettlesCut(s, f);
    if RecordedCommit(s).Some? {
      IntegrationCut(s, f, RecordedCommit(s).value);
    }
    hide Cut, Integration, Human, FastForwards, Latest;
  }

  lemma FailedTaskCut(s: State, f: Facts)
    requires f.lapse.Some? && FailedTask(s, f.(lapse := None)).outcome != NoOp
    ensures Cut(FailedTask(s, f), FailedTask(s, f.(lapse := None)), [s], f.lapse.value, false)
  {
    EndsKeepHead(s, f);
    if MayWrite(f) {
      AcceptedEnds(s, f);
    } else {
      RefusedEnds(s, f);
    }
    FinishOutcome(s, f, RecordedCommit(s).value, RecordedCommit(s).value);
    hide Finish, RecordedAt, Latest;
  }

  lemma CallCut(s: State, f: Facts)
    requires f.lapse.Some? && Reconcile(s, f.(lapse := None)).outcome != NoOp
    ensures Cut(Reconcile(s, f), Reconcile(s, f.(lapse := None)), Checkpoints(s, f), f.lapse.value, MovesHead(s, f))
  {
    SettlesCut(s, f);
    if s.status == Some(Failed) {
      FailedTaskCut(s, f);
    } else if AtWork(s, Integrating) {
      IntegratingCut(s, f);
    } else if Verifies(s, f) {
      VerifyingCut(s, f);
      hide VerifyingStage, Cut, Checkpoints;
    }
    hide Cut, FailedTask, IntegratingStage, Human, Retry, Preserve, FastForwards, ByChecks, Latest, Commits;
  }

  lemma NothingToDo(s: State, f: Facts)
    requires Reconcile(s, f.(lapse := None)).outcome == NoOp
    ensures Reconcile(s, f) == Reconcile(s, f.(lapse := None)) == Result(s, NoOp)
  {
    if s.status.Some? && IsActive(s.status.value) {
      RecoveryEndsInactive(s, f.(lapse := None));
    } else if s.status == Some(Failed) && s.attempts != [] && RecordedCommit(s).Some? {
      FinishOutcome(s, f.(lapse := None), RecordedCommit(s).value, RecordedCommit(s).value);
    }
    hide Finish, RecordedAt, Latest;
  }

  /**
   * A call whose ownership lapses after n transactions leaves the store as it was after those n: nothing is
   * written from the first refusal on. A lapse after the last transaction changes nothing.
   */
  lemma LostOwnerWritesNothing(s: State, f: Facts)
    requires f.lapse.Some?
    ensures var r, steady, points, n := Reconcile(s, f), Reconcile(s, f.(lapse := None)), Checkpoints(s, f), f.lapse.value;
            && (r.outcome == OwnershipLost <==> steady.outcome != NoOp && n < |points|)
            && (r.outcome == OwnershipLost ==> SameStore(r.state, points[n]))
            && (r.outcome != OwnershipLost ==> r == steady)
  {
    hide Reconcile, Checkpoints, MovesHead;
    if Reconcile(s, f.(lapse := None)).outcome == NoOp {
      NothingToDo(s, f);
    } else {
      CallCut(s, f);
    }
  }

  /**
   * HEAD moves although the owner is lost exactly when all transactions before the fast-forward were
   * accepted, the one after it is refused, and Git offers the fast-forward.
   */
  lemma LostOwnerMovesHead(s: State, f: Facts)
    ensures var r := Reconcile(s, f);
            r.outcome == OwnershipLost && r.state.head != s.head <==>
            MovesHead(s, f) && f.lapse == Some(|Checkpoints(s, f)| - 1)
  {
    hide Checkpoints;
    if f.lapse.None? {
      assert f.(lapse := None) == f;
      StaysOwner(s, f);
    } else if Reconcile(s, f.(lapse := None)).outcome == NoOp {
      NothingToDo(s, f);
      NoOpMovesNothing(s, f);
    } else {
      CallCut(s, f);
      hide Reconcile, MovesHead;
    }
  }

  lemma StaysOwner(s: State, f: Facts)
    requires f.lapse.None?
    ensures Reconcile(s, f).outcome != OwnershipLost
  {
    if s.status.Some? && IsActive(s.status.value) {
      RecoveryEndsInactive(s, f);
      hide Reconcile;
    } else if s.status == Some(Failed) && s.attempts != [] && RecordedCommit(s).Some? {
      FinishOutcome(s, f, RecordedCommit(s).value, RecordedCommit(s).value);
    }
    hide Finish, RecordedAt, Latest;
  }

  lemma NoOpMovesNothing(s: State, f: Facts)
    requires Reconcile(s, f.(lapse := None)).outcome == NoOp
    ensures CommitToIntegrate(s, f).None?
  {
    if s.status.Some? && IsActive(s.status.value) {
      RecoveryEndsInactive(s, f.(lapse := None));
    }
    hide Reconcile;
  }

  /** For example: a committed task whose owner is lost before the call, and a branch one commit ahead of HEAD. */
  lemma LostOwnerMovesHeadForExample(a: string, base: string, c: string)
    requires c != base
    ensures var s := State(Some(Integrating), [Attempt(a, base, Running)], [CommitCreated(a, c)], base);
            var f := Facts(MissingWorktree, true, None, None, true, (x: string, y: string) => Some(x == y || x == base), Some(true), Some(c),
                           Some(c), Some(0));
            Reconcile(s, f) == Result(s.(head := c), OwnershipLost)
  {
    LatestAppended([], CommitCreated(a, c));
    assert [] + [CommitCreated(a, c)] == [CommitCreated(a, c)];
    hide Latest, RecordedAt, WithLast;
  }

  // --- The next recovery ---

  /** Neither the rerun nor the commit is a verdict on an integrated commit. */
  lemma ProgressKeepsVerdict(s: State, f: Facts, commit: string)
    requires s.attempts != []
    ensures forall id, c :: RecordedAt(AfterCommit(s, commit), id, c) == RecordedAt(s, id, c)
    ensures forall id, c :: RecordedAt(Rerun(s, f), id, c) == RecordedAt(s, id, c)
  {
    LatestAppended(s.events, CommitCreated(LastAttempt(s).id, commit));
    if f.rerun.Some? {
      LatestAppended(s.events, VerificationCompleted(LastAttempt(s).id, f.rerun.value));
    }
    hide Latest;
  }

  /** What is integrated was committed by the call or before it, and no event since has spoken about it. */
  lemma LastCheckpoint(s: State, f: Facts)
    requires CommitToIntegrate(s, f).Some?
    ensures var n, c := Checkpoints(s, f)[|Checkpoints(s, f)| - 1], CommitToIntegrate(s, f).value;
            && AtWork(n, Integrating) && RecordedCommit(n) == Some(c)
            && RecordedAt(n, LastAttempt(n).id, c) == RecordedAt(s, LastAttempt(s).id, c)
  {
    if !AtWork(s, Integrating) {
      var m := Rerun(s, f);
      assert m.attempts == s.attempts;
      CommitIsRecorded(m, f.commit.value);
      ProgressKeepsVerdict(s, f, f.commit.value);
      ProgressKeepsVerdict(m, f, f.commit.value);
    }
    hide Latest, StatusToApply, RecordedCommit, RecordedAt, Rerun;
  }

  /** What recovery goes by is in the store. */
  lemma SameStoreSameEvidence(a: State, b: State)
    requires SameStore(a, b)
    ensures RecordedCommit(a) == RecordedCommit(b) && (forall status :: AtWork(a, status) == AtWork(b, status))
    ensures a.attempts != [] ==> forall id, c :: RecordedAt(a, id, c) == RecordedAt(b, id, c)
  {
    hide Latest;
  }

  /** A fast-forward by a lost owner is not lost: the next owner completes the task without another one. */
  lemma UnownedMergeIsSettledNext(s: State, f: Facts, later: Facts)
    requires Reconcile(s, f).outcome == OwnershipLost && Reconcile(s, f).state.head != s.head
    requires later.lapse.None? && later.headReadable && CommitToIntegrate(s, f).Some?
    requires later.isAncestor(CommitToIntegrate(s, f).value, Reconcile(s, f).state.head) == Some(true)
    requires RecordedAt(s, LastAttempt(s).id, CommitToIntegrate(s, f).value) in {None, Some(ChecksPassed)}
    ensures var n := Reconcile(s, f).state;
            Reconcile(n, later).outcome == Completed(CommitToIntegrate(s, f).value) && Reconcile(n, later).state.head == n.head
  {
    LostOwnerMovesHead(s, f);
    LostOwnerWritesNothing(s, f);
    LastCheckpoint(s, f);
    var n := Reconcile(s, f).state;
    hide Reconcile, Checkpoints, CommitToIntegrate, FastForwards;
    SameStoreSameEvidence(n, Checkpoints(s, f)[|Checkpoints(s, f)| - 1]);
    hide RecordedAt, RecordedCommit;
    IntegratedIsFinished(n, later, CommitToIntegrate(s, f).value);
  }
}
