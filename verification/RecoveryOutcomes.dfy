/**
 * Which end crash recovery gives a task, from the facts alone: for every outcome exactly the states and
 * answers of Git and the checks that lead to it (packages/orchestrator/src/crash-recovery.ts).
 */
module RecoveryOutcomes {
  import opened Options
  import opened TaskStates
  import opened CrashRecovery
  import opened RecoveryOwnership

  // --- The facts ---

  /** The task was with an agent when the runner stopped. */
  predicate InAgentStage(s: State) {
    AtWork(s, Planning) || AtWork(s, PlanReview) || AtWork(s, Implementing) || AtWork(s, CodeReview)
  }

  /** The worktree is there, at the base of the attempt. */
  predicate AtBase(s: State, f: Facts)
    requires s.attempts != []
  {
    f.inspection.Available? && f.inspection.headRevision == LastAttempt(s).baseRevision
  }

  /** No verification is recorded for the latest attempt. */
  predicate NothingVerified(s: State)
    requires s.attempts != []
  {
    Latest(s.events, VerificationEvent, LastAttempt(s).id).None?
  }

  /** The verification recorded, or else run again, has this status. */
  predicate VerifiedAs(s: State, f: Facts, status: CheckStatus)
    requires s.attempts != []
  {
    if NothingVerified(s) then f.checksConfigured && f.rerun == Some(status)
    else Latest(s.events, VerificationEvent, LastAttempt(s).id).value.status == status
  }

  /** HEAD contains the commit. */
  predicate Contains(s: State, f: Facts, commit: string) {
    f.headReadable && f.isAncestor(commit, s.head) == Some(true)
  }

  /** HEAD can be fast-forwarded to the commit, which the branch of the task still holds. */
  predicate CanForward(s: State, f: Facts, commit: string) {
    && f.headReadable && f.isAncestor(commit, s.head) == Some(false)
    && f.branchExists == Some(true) && f.branchTip == Some(commit) && f.isAncestor(s.head, commit) == Some(true)
  }

  predicate VerdictIs(s: State, commit: string, status: CheckStatus)
    requires s.attempts != []
  {
    RecordedAt(s, LastAttempt(s).id, commit) == Some(status)
  }

  // --- The facts that are recorded ---

  /** The i-th event is the newest of its type for the attempt. */
  ghost predicate IsNewest(events: seq<Event>, t: EventType, attemptId: string, i: int) {
    && 0 <= i < |events| && TypeOf(events[i]) == t && events[i].attemptId == attemptId
    && forall j :: i < j < |events| ==> TypeOf(events[j]) != t || events[j].attemptId != attemptId
  }

  lemma NewestOfMore(events: seq<Event>, t: EventType, attemptId: string, i: int)
    requires events != []
    ensures var n := |events| - 1;
            IsNewest(events, t, attemptId, i) <==>
            if TypeOf(events[n]) == t && events[n].attemptId == attemptId then i == n else IsNewest(events[..n], t, attemptId, i)
  {
    hide TypeOf;
  }

  lemma {:induction false} LatestIsNewest(events: seq<Event>, t: EventType, attemptId: string)
    ensures Latest(events, t, attemptId).None? <==> forall e :: e in events ==> TypeOf(e) != t || e.attemptId != attemptId
    ensures forall i :: IsNewest(events, t, attemptId, i) ==> Latest(events, t, attemptId) == Some(events[i])
    ensures Latest(events, t, attemptId).Some? ==> exists i :: IsNewest(events, t, attemptId, i)
  {
    if events != [] {
      var n := |events| - 1;
      LatestIsNewest(events[..n], t, attemptId);
      hide TypeOf;
      forall i ensures IsNewest(events, t, attemptId, i) <==>
                       if TypeOf(events[n]) == t && events[n].attemptId == attemptId then i == n else IsNewest(events[..n], t, attemptId, i) {
        NewestOfMore(events, t, attemptId, i);
      }
      assert events == events[..n] + [events[n]];
      assert TypeOf(events[n]) == t && events[n].attemptId == attemptId ==> IsNewest(events, t, attemptId, n);
      hide IsNewest;
    }
  }

  /** The facts of a state are those of the newest records of its latest attempt. */
  lemma FactsAreNewest(s: State, f: Facts)
    requires s.attempts != []
    ensures var id := LastAttempt(s).id;
            && (NothingVerified(s) <==> forall e :: e in s.events && e.attemptId == id ==> !e.VerificationCompleted?)
            && (forall status, i :: IsNewest(s.events, VerificationEvent, id, i) ==>
                  (VerifiedAs(s, f, status) <==> s.events[i] == VerificationCompleted(id, status)))
            && (forall commit, status :: VerdictIs(s, commit, status) <==>
                  exists i :: IsNewest(s.events, IntegrationVerificationEvent, id, i) && s.events[i] == IntegrationVerified(id, commit, status))
            && (forall commit :: RecordedCommit(s) == Some(commit) <==>
                  exists i :: IsNewest(s.events, CommitEvent, id, i) && s.events[i] == CommitCreated(id, commit))
  {
    var id := LastAttempt(s).id;
    LatestIsNewest(s.events, VerificationEvent, id);
    LatestIsNewest(s.events, IntegrationVerificationEvent, id);
    LatestIsNewest(s.events, CommitEvent, id);
    hide Latest, IsNewest;
  }

  // --- The outcomes ---

  predicate ShouldRetry(s: State, f: Facts) {
    InAgentStage(s) && (f.inspection.MissingWorktree? || (AtBase(s, f) && f.inspection.clean))
  }

  predicate ShouldPreserve(s: State, f: Facts) {
    InAgentStage(s) && AtBase(s, f) && !f.inspection.clean
  }

  predicate IntegrationFails(s: State, f: Facts, commit: string)
    requires s.attempts != []
  {
    (Contains(s, f, commit) && VerdictIs(s, commit, ChecksFailed)) || (CanForward(s, f, commit) && f.integrate.None?)
  }

  predicate IntegrationCompletes(s: State, f: Facts, commit: string)
    requires s.attempts != []
  {
    || (Contains(s, f, commit) && !VerdictIs(s, commit, ChecksFailed) && !VerdictIs(s, commit, ChecksCancelled))
    || (CanForward(s, f, commit) && f.integrate.Some?)
  }

  predicate ShouldFail(s: State, f: Facts) {
    || (AtWork(s, Verifying) && AtBase(s, f)
        && (VerifiedAs(s, f, ChecksFailed) || (NothingVerified(s) && f.checksConfigured && f.rerun.None?)
            || (VerifiedAs(s, f, ChecksPassed) && f.commit.None?)))
    || (CommitToIntegrate(s, f).Some? && IntegrationFails(s, f, CommitToIntegrate(s, f).value))
  }

  predicate ShouldCancel(s: State, f: Facts) {
    || (AtWork(s, Verifying) && AtBase(s, f) && VerifiedAs(s, f, ChecksCancelled))
    || (CommitToIntegrate(s, f).Some? && Contains(s, f, CommitToIntegrate(s, f).value)
        && VerdictIs(s, CommitToIntegrate(s, f).value, ChecksCancelled))
  }

  /** A failed task whose recorded commit was integrated all the same, and not found wanting. */
  predicate WasIntegrated(s: State, f: Facts, commit: string) {
    && s.status == Some(Failed) && s.attempts != [] && LastAttempt(s).status != Running && RecordedCommit(s) == Some(commit)
    && Contains(s, f, commit) && !VerdictIs(s, commit, ChecksFailed) && !VerdictIs(s, commit, ChecksCancelled)
  }

  predicate ShouldComplete(s: State, f: Facts, commit: string) {
    || (CommitToIntegrate(s, f) == Some(commit) && IntegrationCompletes(s, f, commit))
    || WasIntegrated(s, f, commit)
  }

  predicate ShouldAskHuman(s: State, f: Facts) {
    && s.status.Some? && IsActive(s.status.value)
    && (|| s.attempts == [] || LastAttempt(s).status != Running
        || (InAgentStage(s) && !f.inspection.MissingWorktree? && !AtBase(s, f))
        || (AtWork(s, Verifying) && (!AtBase(s, f) || (NothingVerified(s) && !f.checksConfigured)))
        || (AtWork(s, Integrating) && RecordedCommit(s).None?)
        || (CommitToIntegrate(s, f).Some? && !Contains(s, f, CommitToIntegrate(s, f).value) && !CanForward(s, f, CommitToIntegrate(s, f).value)))
  }

  // --- Each branch ---

  /** The outcome of an integration, from what Git and the recorded verdict say. */
  ghost predicate IntegrationFits(s: State, f: Facts, commit: string, outcome: Outcome)
    requires s.attempts != []
  {
    && (outcome == FailedOutcome <==> IntegrationFails(s, f, commit))
    && (outcome == CancelledOutcome <==> Contains(s, f, commit) && VerdictIs(s, commit, ChecksCancelled))
    && (outcome == Completed(commit) <==> IntegrationCompletes(s, f, commit))
    && (outcome == RequiresHuman <==> !Contains(s, f, commit) && !CanForward(s, f, commit))
    && (outcome == FailedOutcome || outcome == CancelledOutcome || outcome == Completed(commit) || outcome == RequiresHuman)
  }

  lemma EndOutcomes(s: State, f: Facts)
    requires f.lapse.None?
    ensures Human(s, f).outcome == RequiresHuman && Retry(s, f).outcome == SafeToRetry && Preserve(s, f).outcome == RequiresReconciliation
    ensures Fail(s, f).outcome == FailedOutcome && Cancel(s, f).outcome == CancelledOutcome
    ensures s.attempts != [] ==> forall commit, revision :: Finish(s, f, commit, revision).outcome == Completed(commit)
  {
    hide Latest, WithLast;
  }

  lemma IntegrationExact(s: State, f: Facts, commit: string)
    requires f.lapse.None? && s.attempts != []
    ensures IntegrationFits(s, f, commit, Integration(s, f, commit).outcome)
  {
    EndOutcomes(s, f);
    if f.integrate.Some? {
      EndOutcomes(s.(head := f.integrate.value), f);
    }
    hide Human, Fail, Cancel, Finish, RecordedAt;
  }

  /** What is recorded after the rerun and the commit decides the same. */
  lemma ProgressDecides(s: State, f: Facts, commit: string)
    requires s.attempts != []
    ensures var n := AfterCommit(Rerun(s, f), commit);
            && n.attempts != [] && (forall status :: VerdictIs(n, commit, status) == VerdictIs(s, commit, status))
            && Contains(n, f, commit) == Contains(s, f, commit) && CanForward(n, f, commit) == CanForward(s, f, commit)
  {
    ProgressKeepsVerdict(s, f, commit);
    ProgressKeepsVerdict(Rerun(s, f), f, commit);
  }

  lemma ProgressFits(s: State, f: Facts, commit: string, outcome: Outcome)
    requires s.attempts != [] && IntegrationFits(AfterCommit(Rerun(s, f), commit), f, commit, outcome)
    ensures IntegrationFits(s, f, commit, outcome)
  {
    hide VerdictIs, Contains, CanForward, Rerun, AfterCommit;
    ProgressDecides(s, f, commit);
  }

  lemma VerifyingExact(s: State, f: Facts)
    requires f.lapse.None? && AtWork(s, Verifying) && AtBase(s, f)
    ensures var o := VerifyingStage(s, f).outcome;
            if NothingVerified(s) && !f.checksConfigured then o == RequiresHuman
            else if NothingVerified(s) && f.rerun.None? then o == FailedOutcome
            else if VerifiedAs(s, f, ChecksFailed) then o == FailedOutcome
            else if VerifiedAs(s, f, ChecksCancelled) then o == CancelledOutcome
            else if f.commit.None? then o == FailedOutcome
            else IntegrationFits(s, f, f.commit.value, o)
  {
    var t := Rerun(s, f);
    EndOutcomes(s, f);
    EndOutcomes(t, f);
    if f.commit.Some? {
      IntegrationExact(AfterCommit(t, f.commit.value), f, f.commit.value);
      ProgressFits(s, f, f.commit.value, Integration(AfterCommit(t, f.commit.value), f, f.commit.value).outcome);
    }
    VerifyingForm(s, f);
    hide VerifyingStage, Human, Fail, Cancel, Integration, IntegrationFits, AfterCommit, Rerun, Latest;
  }

  lemma VerifyingForm(s: State, f: Facts)
    requires f.lapse.None? && AtWork(s, Verifying) && AtBase(s, f)
    ensures var r, t := VerifyingStage(s, f), Rerun(s, f);
            if NothingVerified(s) && !f.checksConfigured then r == Human(s, f)
            else if NothingVerified(s) && f.rerun.None? then r == Fail(s, f)
            else if VerifiedAs(s, f, ChecksFailed) then r == Fail(t, f)
            else if VerifiedAs(s, f, ChecksCancelled) then r == Cancel(t, f)
            else if f.commit.None? then r == Fail(t, f)
            else r == Integration(AfterCommit(t, f.commit.value), f, f.commit.value)
  {
    assert Spent(f) == f;
    hide Human, Fail, Cancel, Integration, AfterCommit, AfterRerun, Latest;
  }

  lemma WorktreeExact(s: State, f: Facts)
    requires f.lapse.None? && s.attempts != []
    ensures var o := WorktreeStage(s, f).outcome;
            if f.inspection.MissingWorktree? then o == SafeToRetry
            else if !AtBase(s, f) then o == RequiresHuman
            else if f.inspection.clean then o == SafeToRetry
            else o == RequiresReconciliation
  {
    EndOutcomes(s, f);
    hide Human, Retry, Preserve;
  }

  lemma FailedTaskExact(s: State, f: Facts)
    requires f.lapse.None? && s.status == Some(Failed)
    ensures var o := FailedTask(s, f).outcome;
            o == NoOp || (RecordedCommit(s).Some? && o == Completed(RecordedCommit(s).value))
    ensures forall commit :: FailedTask(s, f).outcome == Completed(commit) <==> WasIntegrated(s, f, commit)
  {
    EndOutcomes(s, f);
    if RecordedCommit(s).Some? {
      var recorded := RecordedAt(s, LastAttempt(s).id, RecordedCommit(s).value);
      assert recorded.None? || recorded.value.ChecksPassed? || recorded.value.ChecksFailed? || recorded.value.ChecksCancelled?;
    }
    hide Finish, RecordedAt, Latest;
  }

  // --- All of it ---

  /** For every outcome, exactly when recovery ends with it. */
  ghost predicate OutcomeFits(s: State, f: Facts, outcome: Outcome) {
    && (outcome == SafeToRetry <==> ShouldRetry(s, f))
    && (outcome == RequiresReconciliation <==> ShouldPreserve(s, f))
    && (outcome == FailedOutcome <==> ShouldFail(s, f))
    && (outcome == CancelledOutcome <==> ShouldCancel(s, f))
    && (outcome == RequiresHuman <==> ShouldAskHuman(s, f))
    && (forall commit :: outcome == Completed(commit) <==> ShouldComplete(s, f, commit))
    && (outcome == NoOp <==> (s.status.None? || !IsActive(s.status.value)) && forall commit :: !WasIntegrated(s, f, commit))
  }

  lemma AgentStageFits(s: State, f: Facts)
    requires f.lapse.None? && InAgentStage(s)
    ensures OutcomeFits(s, f, Reconcile(s, f).outcome)
  {
    WorktreeExact(s, f);
    hide WorktreeStage, Latest;
  }

  lemma VerifyingFits(s: State, f: Facts)
    requires f.lapse.None? && AtWork(s, Verifying)
    ensures OutcomeFits(s, f, Reconcile(s, f).outcome)
  {
    EndOutcomes(s, f);
    if AtBase(s, f) {
      VerifyingExact(s, f);
      hide VerifyingStage, Contains, CanForward, VerdictIs, Latest;
    } else {
      hide Human, Contains, CanForward, VerdictIs, NothingVerified, VerifiedAs;
    }
  }

  lemma IntegratingFits(s: State, f: Facts)
    requires f.lapse.None? && AtWork(s, Integrating)
    ensures OutcomeFits(s, f, Reconcile(s, f).outcome)
  {
    EndOutcomes(s, f);
    if RecordedCommit(s).Some? {
      IntegrationExact(s, f, RecordedCommit(s).value);
    }
    hide Integration, Human, Contains, CanForward, VerdictIs, Latest;
  }

  lemma IdleFits(s: State, f: Facts)
    requires f.lapse.None? && (s.status.None? || !IsActive(s.status.value) || s.attempts == [] || LastAttempt(s).status != Running)
    ensures OutcomeFits(s, f, Reconcile(s, f).outcome)
  {
    EndOutcomes(s, f);
    if s.status == Some(Failed) {
      FailedTaskExact(s, f);
    }
    hide FailedTask, Human, Contains, CanForward, VerdictIs, Latest;
  }

  /** Under an ownership that lasts, the outcome of recovery is the one that the facts call for. */
  lemma RecoveryIsExact(s: State, f: Facts)
    requires f.lapse.None?
    ensures OutcomeFits(s, f, Reconcile(s, f).outcome)
  {
    hide OutcomeFits, Reconcile;
    if InAgentStage(s) {
      AgentStageFits(s, f);
    } else if AtWork(s, Verifying) {
      VerifyingFits(s, f);
    } else if AtWork(s, Integrating) {
      IntegratingFits(s, f);
    } else {
      IdleFits(s, f);
    }
  }

  /** The status and the end of the attempt that go with an outcome. */
  function StatusFor(outcome: Outcome): Option<(TaskStatus, AttemptStatus)> {
    match outcome
    case SafeToRetry => Some((Ready, FailedAttempt))
    case RequiresReconciliation => Some((Blocked, FailedAttempt))
    case RequiresHuman => Some((NeedsHuman, FailedAttempt))
    case FailedOutcome => Some((Failed, FailedAttempt))
    case CancelledOutcome => Some((Cancelled, CancelledAttempt))
    case Completed(_) => Some((Done, SucceededAttempt))
    case NoOp => None
    case OwnershipLost => None
  }

  /** The announcement of a completed integration, unless it was made before. */
  function Completion(s: State, f: Facts, outcome: Outcome): seq<Event> {
    if outcome.Completed? && s.attempts != [] && Latest(s.events, IntegrationEvent, LastAttempt(s).id).None? then
      [IntegrationCompleted(LastAttempt(s).id, if Contains(s, f, outcome.revision) then outcome.revision
                                               else if f.integrate.Some? then f.integrate.value else "")]
    else []
  }

  /** What recovery announces: the rerun of the checks, the commit it made, and the integration it completes. */
  function Announcements(s: State, f: Facts, outcome: Outcome): seq<Event> {
    (if Verifies(s, f) && Reruns(s, f) then [VerificationCompleted(LastAttempt(s).id, f.rerun.value)] else [])
    + (if Verifies(s, f) && Commits(s, f) then [CommitCreated(LastAttempt(s).id, f.commit.value)] else [])
    + Completion(s, f, outcome)
  }

  /** The whole new state goes with the outcome. */
  ghost predicate StateFits(s: State, f: Facts, r: Result) {
    if r.outcome == NoOp then r.state == s
    else
      && StatusFor(r.outcome).Some?
      && r.state.status == Some(StatusFor(r.outcome).value.0)
      && r.state.attempts == WithLast(s, StatusFor(r.outcome).value.1)
      && r.state.events == s.events + Announcements(s, f, r.outcome)
      && r.state.head == (if r.outcome.Completed? && !Contains(s, f, r.outcome.revision) && f.integrate.Some? then f.integrate.value else s.head)
  }

  /** The state of a settlement that starts from what the call has written so far. */
  lemma SettledFits(s: State, f: Facts, t: State, attemptStatus: AttemptStatus, status: TaskStatus, events: seq<Event>, outcome: Outcome)
    requires f.lapse.None? && t.attempts == s.attempts
    ensures var r := Settle(t, f, attemptStatus, status, events, outcome);
            && r.state.status == Some(status) && r.state.attempts == WithLast(s, attemptStatus)
            && r.state.events == t.events + events && r.state.head == t.head && r.outcome == outcome
  {
  }

  lemma EndStates(s: State, f: Facts, t: State)
    requires f.lapse.None? && t.attempts == s.attempts
    ensures forall r :: r == Human(t, f) || r == Retry(t, f) || r == Preserve(t, f) || r == Fail(t, f) || r == Cancel(t, f) ==>
              && StatusFor(r.outcome).Some? && r.state.status == Some(StatusFor(r.outcome).value.0)
              && r.state.attempts == WithLast(s, StatusFor(r.outcome).value.1) && r.state.events == t.events && r.state.head == t.head
  {
    assert t.events + [] == t.events;
    SettledFits(s, f, t, FailedAttempt, NeedsHuman, [], RequiresHuman);
    SettledFits(s, f, t, FailedAttempt, Ready, [], SafeToRetry);
    SettledFits(s, f, t, FailedAttempt, Blocked, [], RequiresReconciliation);
    SettledFits(s, f, t, FailedAttempt, Failed, [], FailedOutcome);
    SettledFits(s, f, t, CancelledAttempt, Cancelled, [], CancelledOutcome);
    hide Settle, WithLast;
  }

  lemma FinishState(s: State, f: Facts, t: State, commit: string, revision: string)
    requires f.lapse.None? && t.attempts == s.attempts && s.attempts != []
    requires Latest(t.events, IntegrationEvent, LastAttempt(s).id) == Latest(s.events, IntegrationEvent, LastAttempt(s).id)
    ensures var r := Finish(t, f, commit, revision);
            && r.outcome == Completed(commit) && r.state.status == Some(Done) && r.state.attempts == WithLast(s, SucceededAttempt)
            && r.state.head == t.head
            && r.state.events == t.events + if Latest(s.events, IntegrationEvent, LastAttempt(s).id).Some? then []
                                            else [IntegrationCompleted(LastAttempt(s).id, revision)]
  {
    hide Latest;
  }

  /** Rerun and commit leave the announcement of an integration to be made or not as before. */
  lemma ProgressKeepsAnnouncement(s: State, f: Facts, commit: string)
    requires s.attempts != []
    ensures forall id :: Latest(Rerun(s, f).events, IntegrationEvent, id) == Latest(s.events, IntegrationEvent, id)
    ensures forall id :: Latest(AfterCommit(s, commit).events, IntegrationEvent, id) == Latest(s.events, IntegrationEvent, id)
  {
    LatestAppended(s.events, CommitCreated(LastAttempt(s).id, commit));
    if f.rerun.Some? {
      LatestAppended(s.events, VerificationCompleted(LastAttempt(s).id, f.rerun.value));
    }
    hide Latest;
  }

  /** An integration from a state that the call has reached. */
  lemma IntegrationState(s: State, f: Facts, t: State, commit: string)
    requires f.lapse.None? && s.attempts != [] && t.attempts == s.attempts && t.head == s.head
    requires Latest(t.events, IntegrationEvent, LastAttempt(s).id) == Latest(s.events, IntegrationEvent, LastAttempt(s).id)
    ensures var r := Integration(t, f, commit);
            && StatusFor(r.outcome).Some? && r.state.status == Some(StatusFor(r.outcome).value.0)
            && r.state.attempts == WithLast(s, StatusFor(r.outcome).value.1)
            && (r.outcome.Completed? ==> r.outcome == Completed(commit))
            && r.state.head == (if r.outcome.Completed? && !Contains(s, f, commit) && f.integrate.Some? then f.integrate.value else s.head)
            && r.state.events == t.events + Completion(s, f, r.outcome)
  {
    EndStates(s, f, t);
    EndOutcomes(t, f);
    FinishState(s, f, t, commit, commit);
    if f.integrate.Some? {
      FinishState(s, f, t.(head := f.integrate.value), commit, f.integrate.value);
    }
    assert t.events + [] == t.events;
    hide Human, Retry, Preserve, Fail, Cancel, Finish, RecordedAt, WithLast, Latest;
  }

  /** What the rerun, and the commit after it, announce. */
  lemma ProgressEvents(s: State, f: Facts)
    requires AtWork(s, Verifying) && AtBase(s, f)
    ensures var t := Rerun(s, f);
            && t.attempts == s.attempts && t.head == s.head
            && (forall outcome: Outcome :: !outcome.Completed? && !Commits(s, f) ==> t.events == s.events + Announcements(s, f, outcome))
            && (Commits(s, f) ==> AfterCommit(t, f.commit.value).attempts == s.attempts && AfterCommit(t, f.commit.value).head == s.head)
            && (forall outcome: Outcome :: Commits(s, f) ==>
                  s.events + Announcements(s, f, outcome) == AfterCommit(t, f.commit.value).events + Completion(s, f, outcome))
  {
    var t := Rerun(s, f);
    var reruns := if Reruns(s, f) then [VerificationCompleted(LastAttempt(s).id, f.rerun.value)] else [];
    assert t.events == s.events + reruns;
    if Commits(s, f) {
      var commits := [CommitCreated(LastAttempt(s).id, f.commit.value)];
      assert AfterCommit(t, f.commit.value).events == s.events + reruns + commits;
      forall outcome: Outcome
        ensures s.events + Announcements(s, f, outcome) == AfterCommit(t, f.commit.value).events + Completion(s, f, outcome)
      {
        assert Announcements(s, f, outcome) == reruns + commits + Completion(s, f, outcome);
      }
    } else {
      forall outcome: Outcome | !outcome.Completed? ensures t.events == s.events + Announcements(s, f, outcome) {
        assert Announcements(s, f, outcome) == reruns;
      }
    }
    hide Latest, StatusToApply;
  }

  /** The stage stops before the commit. */
  lemma StoppedState(s: State, f: Facts, r: Result)
    requires f.lapse.None? && AtWork(s, Verifying) && AtBase(s, f) && !Commits(s, f)
    requires r == Fail(Rerun(s, f), f) || r == Cancel(Rerun(s, f), f)
    ensures StateFits(s, f, r)
  {
    ProgressEvents(s, f);
    EndStates(s, f, Rerun(s, f));
    EndOutcomes(Rerun(s, f), f);
    hide Fail, Cancel, WithLast, Latest, Rerun, Announcements, Commits;
  }

  /** The stage goes on from the commit. */
  lemma CommittedState(s: State, f: Facts)
    requires f.lapse.None? && AtWork(s, Verifying) && AtBase(s, f) && Commits(s, f)
    ensures StateFits(s, f, Integration(AfterCommit(Rerun(s, f), f.commit.value), f, f.commit.value))
  {
    var t, c := Rerun(s, f), f.commit.value;
    ProgressEvents(s, f);
    ProgressKeepsAnnouncement(s, f, c);
    ProgressKeepsAnnouncement(t, f, c);
    IntegrationState(s, f, AfterCommit(t, c), c);
    hide Integration, WithLast, Latest, Rerun, AfterCommit, Announcements, Commits;
  }

  lemma VerifyingState(s: State, f: Facts)
    requires f.lapse.None? && AtWork(s, Verifying)
    ensures StateFits(s, f, VerifyingStage(s, f))
  {
    EndStates(s, f, s);
    EndOutcomes(s, f);
    NoAnnouncement(s, f);
    if AtBase(s, f) {
      VerifyingForm(s, f);
      VerifiedMeansStatus(s, f);
      if Commits(s, f) {
        CommittedState(s, f);
      } else if !(NothingVerified(s) && (!f.checksConfigured || f.rerun.None?)) {
        StoppedState(s, f, VerifyingStage(s, f));
      }
      hide VerifyingStage, Verifies, Reruns, VerifiedAs;
    } else {
      hide Verifies, NothingVerified, VerifiedAs;
    }
    hide Human, Retry, Preserve, Fail, Cancel, Integration, WithLast, Latest, AfterCommit, Announcements, Rerun, Commits;
  }

  lemma VerifiedMeansStatus(s: State, f: Facts)
    requires AtWork(s, Verifying) && AtBase(s, f)
    ensures Verifies(s, f)
    ensures Commits(s, f) <==> VerifiedAs(s, f, ChecksPassed) && f.commit.Some?
    ensures Commits(s, f) ==> !VerifiedAs(s, f, ChecksFailed) && !VerifiedAs(s, f, ChecksCancelled)
    ensures NothingVerified(s) && (!f.checksConfigured || f.rerun.None?) ==> !Commits(s, f) && !Reruns(s, f)
    ensures !(NothingVerified(s) && (!f.checksConfigured || f.rerun.None?)) ==>
              VerifiedAs(s, f, ChecksPassed) || VerifiedAs(s, f, ChecksFailed) || VerifiedAs(s, f, ChecksCancelled)
  {
    hide Latest;
    var recorded := Latest(s.events, VerificationEvent, LastAttempt(s).id);
    if recorded.Some? {
      assert recorded.value.status.ChecksPassed? || recorded.value.status.ChecksFailed? || recorded.value.status.ChecksCancelled?;
    } else if f.rerun.Some? {
      assert f.rerun.value.ChecksPassed? || f.rerun.value.ChecksFailed? || f.rerun.value.ChecksCancelled?;
    }
  }

  /** Nothing is announced where no checks are run and nothing is committed or completed. */
  lemma NoAnnouncement(s: State, f: Facts)
    ensures forall outcome: Outcome :: !outcome.Completed? && !(Verifies(s, f) && (Reruns(s, f) || Commits(s, f))) ==>
              s.events + Announcements(s, f, outcome) == s.events
  {
    hide Latest;
  }

  /** The whole state that recovery leaves is the one that goes with its outcome. */
  lemma RecoveredStateIsExact(s: State, f: Facts)
    requires f.lapse.None?
    ensures StateFits(s, f, Reconcile(s, f))
  {
    EndStates(s, f, s);
    EndOutcomes(s, f);
    NoAnnouncement(s, f);
    if AtWork(s, Verifying) {
      VerifyingState(s, f);
      hide StateFits;
    } else if AtWork(s, Integrating) && RecordedCommit(s).Some? {
      OutsideVerifying(s, f);
      IntegrationState(s, f, s, RecordedCommit(s).value);
    } else if s.status == Some(Failed) && RecordedCommit(s).Some? {
      OutsideVerifying(s, f);
      FailedTaskExact(s, f);
      FinishState(s, f, s, RecordedCommit(s).value, RecordedCommit(s).value);
    }
    hide VerifyingStage, Human, Retry, Preserve, Integration, Finish, WithLast, Latest, Announcements, RecordedAt;
  }

  lemma OutsideVerifying(s: State, f: Facts)
    requires s.attempts != [] && s.status != Some(Verifying)
    ensures forall outcome: Outcome :: Announcements(s, f, outcome) == Completion(s, f, outcome)
  {
    hide Latest;
    forall outcome: Outcome ensures Announcements(s, f, outcome) == Completion(s, f, outcome) {
      assert [] + [] + Completion(s, f, outcome) == Completion(s, f, outcome);
    }
  }
}
