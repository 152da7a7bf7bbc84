/** Recovery of interrupted tasks as a function of store and Git facts (packages/orchestrator/src/crash-recovery.ts). */
module CrashRecovery {
  import opened Options
  import opened TaskStates

  datatype AttemptStatus = Running | SucceededAttempt | FailedAttempt | CancelledAttempt | TimedOutAttempt

  datatype Attempt = Attempt(id: string, baseRevision: string, status: AttemptStatus)

  datatype CheckStatus = ChecksPassed | ChecksFailed | ChecksCancelled

  datatype Event =
    | VerificationCompleted(attemptId: string, status: CheckStatus)
    | CommitCreated(attemptId: string, revision: string)
    | IntegrationCompleted(attemptId: string, revision: string)
    | IntegrationVerified(attemptId: string, revision: string, status: CheckStatus)

  datatype EventType = VerificationEvent | CommitEvent | IntegrationEvent | IntegrationVerificationEvent

  function TypeOf(e: Event): EventType {
    match e
    case VerificationCompleted(_, _) => VerificationEvent
    case CommitCreated(_, _) => CommitEvent
    case IntegrationCompleted(_, _) => IntegrationEvent
    case IntegrationVerified(_, _, _) => IntegrationVerificationEvent
  }

  /** One task: its status (None when it does not exist), attempts, events, and the integration HEAD. */
  datatype State = State(status: Option<TaskStatus>, attempts: seq<Attempt>, events: seq<Event>, head: string)

  datatype Inspection = MissingWorktree | Unavailable | Available(clean: bool, headRevision: string)

  /**
   * Fixed answers of Git and the checks; None stands for a call that throws. `lapse` is the number of
   * recovery transactions that find the ownership current; after it has lapsed none does any more. None
   * stands for an ownership that lasts, and for a recovery that needs none.
   */
  datatype Facts = Facts(
    inspection: Inspection, checksConfigured: bool, rerun: Option<CheckStatus>, commit: Option<string>,
    headReadable: bool, isAncestor: (string, string) -> Option<bool>,
    branchExists: Option<bool>, branchTip: Option<string>, integrate: Option<string>,
    lapse: Option<nat>)

  /** OwnershipLost stands for the error that a lost recovery ownership raises. */
  datatype Outcome =
    | NoOp
    | SafeToRetry
    | RequiresReconciliation
    | RequiresHuman
    | Completed(revision: string)
    | FailedOutcome
    | CancelledOutcome
    | OwnershipLost

  datatype Result = Result(state: State, outcome: Outcome)

  /** The ownership check of the next recovery transaction. */
  predicate MayWrite(f: Facts) {
    f.lapse != Some(0)
  }

  /** The answers after a recovery transaction was accepted. */
  function Spent(f: Facts): Facts {
    if f.lapse.Some? && f.lapse.value > 0 then f.(lapse := Some(f.lapse.value - 1)) else f
  }

  /** A fast-forward takes the tip of the branch. */
  ghost predicate Consistent(f: Facts) {
    f.integrate.Some? && f.branchTip.Some? ==> f.isAncestor(f.branchTip.value, f.integrate.value) == Some(true)
  }

  /** latestPayloadOf: the newest event of a type for an attempt. */
  function Latest(events: seq<Event>, t: EventType, attemptId: string): (r: Option<Event>)
    ensures r.Some? ==> TypeOf(r.value) == t && r.value.attemptId == attemptId && r.value in events
  {
    if events == [] then None
    else
      var last := events[|events| - 1];
      if TypeOf(last) == t && last.attemptId == attemptId then Some(last) else Latest(events[..|events| - 1], t, attemptId)
  }

  // --- Outcomes that write ---

  function WithLast(s: State, attemptStatus: AttemptStatus): seq<Attempt> {
    if s.attempts == [] then [] else s.attempts[..|s.attempts| - 1] + [s.attempts[|s.attempts| - 1].(status := attemptStatus)]
  }

  /** One recovery transaction that ends the work on the task. */
  function Settle(s: State, f: Facts, attemptStatus: AttemptStatus, status: TaskStatus, events: seq<Event>, outcome: Outcome): Result {
    if MayWrite(f) then
      Result(s.(status := Some(status), attempts := WithLast(s, attemptStatus), events := s.events + events), outcome)
    else Result(s, OwnershipLost)
  }

  function Human(s: State, f: Facts): Result {
    Settle(s, f, FailedAttempt, NeedsHuman, [], RequiresHuman)
  }

  function Retry(s: State, f: Facts): Result {
    Settle(s, f, FailedAttempt, Ready, [], SafeToRetry)
  }

  function Preserve(s: State, f: Facts): Result {
    Settle(s, f, FailedAttempt, Blocked, [], RequiresReconciliation)
  }

  function Fail(s: State, f: Facts): Result {
    Settle(s, f, FailedAttempt, Failed, [], FailedOutcome)
  }

  function Cancel(s: State, f: Facts): Result {
    Settle(s, f, CancelledAttempt, Cancelled, [], CancelledOutcome)
  }

  function LastAttempt(s: State): Attempt
    requires s.attempts != []
  {
    s.attempts[|s.attempts| - 1]
  }

  function Finish(s: State, f: Facts, commit: string, revision: string): Result
    requires s.attempts != []
  {
    var id := LastAttempt(s).id;
    Settle(s, f, SucceededAttempt, Done,
           if Latest(s.events, IntegrationEvent, id).Some? then [] else [IntegrationCompleted(id, revision)], Completed(commit))
  }

  // --- The branches ---

  function WorktreeStage(s: State, f: Facts): Result
    requires s.attempts != []
  {
    match f.inspection
    case MissingWorktree => Retry(s, f)
    case Unavailable => Human(s, f)
    case Available(clean, headRevision) =>
      if headRevision != LastAttempt(s).baseRevision then Human(s, f)
      else if clean then Retry(s, f)
      else Preserve(s, f)
  }

  /** The status of the integration verification recorded at a commit. */
  function RecordedAt(s: State, attemptId: string, commit: string): Option<CheckStatus> {
    var e := Latest(s.events, IntegrationVerificationEvent, attemptId);
    if e.Some? && e.value.revision == commit then Some(e.value.status) else None
  }

  function Integration(s: State, f: Facts, commit: string): Result
    requires s.attempts != []
  {
    if !f.headReadable then Human(s, f)
    else
      var integrated := f.isAncestor(commit, s.head);
      if integrated.None? then Human(s, f)
      else if integrated.value then
        var recorded := RecordedAt(s, LastAttempt(s).id, commit);
        if recorded == Some(ChecksFailed) then Fail(s, f)
        else if recorded == Some(ChecksCancelled) then Cancel(s, f)
        else Finish(s, f, commit, commit)
      else if f.branchExists != Some(true) || f.branchTip != Some(commit) || f.isAncestor(s.head, commit) != Some(true) then Human(s, f)
      else if f.integrate.None? then Fail(s, f)
      else Finish(s.(head := f.integrate.value), f, commit, f.integrate.value)
  }

  /** The task with its commit, handed to integration. */
  function AfterCommit(s: State, commit: string): State
    requires s.attempts != []
  {
    s.(status := Some(Integrating), events := s.events + [CommitCreated(LastAttempt(s).id, commit)])
  }

  /** The task with a status of its verification recorded. */
  function AfterRerun(s: State, status: CheckStatus): State
    requires s.attempts != []
  {
    s.(events := s.events + [VerificationCompleted(LastAttempt(s).id, status)])
  }

  function FromVerification(s: State, f: Facts): Result
    requires s.attempts != []
  {
    if f.commit.None? then Fail(s, f)
    else if !MayWrite(f) then Result(s, OwnershipLost)
    else Integration(AfterCommit(s, f.commit.value), Spent(f), f.commit.value)
  }

  function ByChecks(s: State, f: Facts, status: CheckStatus): Result
    requires s.attempts != []
  {
    match status
    case ChecksPassed => FromVerification(s, f)
    case ChecksFailed => Fail(s, f)
    case ChecksCancelled => Cancel(s, f)
  }

  function VerifyingStage(s: State, f: Facts): Result
    requires s.attempts != []
  {
    if !f.inspection.Available? || f.inspection.headRevision != LastAttempt(s).baseRevision then Human(s, f)
    else
      var recorded := Latest(s.events, VerificationEvent, LastAttempt(s).id);
      if recorded.Some? then ByChecks(s, f, recorded.value.status)
      else if !f.checksConfigured then Human(s, f)
      else if f.rerun.None? then Fail(s, f)
      else if !MayWrite(f) then Result(s, OwnershipLost)
      else ByChecks(AfterRerun(s, f.rerun.value), Spent(f), f.rerun.value)
  }

  function IntegratingStage(s: State, f: Facts): Result
    requires s.attempts != []
  {
    var evidence := Latest(s.events, CommitEvent, LastAttempt(s).id);
    if evidence.None? then Human(s, f) else Integration(s, f, evidence.value.revision)
  }

  function FailedTask(s: State, f: Facts): Result {
    if s.attempts == [] || LastAttempt(s).status == Running then Result(s, NoOp)
    else
      var evidence := Latest(s.events, CommitEvent, LastAttempt(s).id);
      if evidence.None? || !f.headReadable || f.isAncestor(evidence.value.revision, s.head) != Some(true) then Result(s, NoOp)
      else
        var recorded := RecordedAt(s, LastAttempt(s).id, evidence.value.revision);
        if recorded.Some? && recorded != Some(ChecksPassed) then Result(s, NoOp)
        else Finish(s, f, evidence.value.revision, evidence.value.revision)
  }

  /** reconcileTask. */
  function Reconcile(s: State, f: Facts): Result {
    if s.status.None? then Result(s, NoOp)
    else if s.status.value == Failed then FailedTask(s, f)
    else if !IsActive(s.status.value) then Result(s, NoOp)
    else if s.attempts == [] || LastAttempt(s).status != Running then Human(s, f)
    else match s.status.value
      case Verifying => VerifyingStage(s, f)
      case Integrating => IntegratingStage(s, f)
      case _ => WorktreeStage(s, f)
  }

  // --- What recovery guarantees ---

  predicate AtWork(s: State, status: TaskStatus) {
    s.status == Some(status) && s.attempts != [] && LastAttempt(s).status == Running
  }

  /** The work on the task has ended: it is not active, and its latest attempt is finished. */
  ghost predicate Ended(s: State, r: Result) {
    && r.state.status.Some? && !IsActive(r.state.status.value)
    && |r.state.attempts| == |s.attempts|
    && (s.attempts != [] ==> LastAttempt(r.state).status != Running && LastAttempt(r.state).id == LastAttempt(s).id)
    && r.outcome != NoOp && r.outcome != OwnershipLost
  }

  lemma SettleEnds(s: State, f: Facts, attemptStatus: AttemptStatus, status: TaskStatus, events: seq<Event>, outcome: Outcome)
    requires f.lapse.None? && attemptStatus != Running && !IsActive(status) && outcome != NoOp && outcome != OwnershipLost
    ensures Ended(s, Settle(s, f, attemptStatus, status, events, outcome))
  {
  }

  lemma IntegrationEnds(s: State, f: Facts, commit: string)
    requires f.lapse.None? && s.attempts != []
    ensures Ended(s, Integration(s, f, commit))
  {
    SettlesEnd(s, f);
    FinishEnds(s, f, commit, commit);
    if f.integrate.Some? {
      FinishEnds(s.(head := f.integrate.value), f, commit, f.integrate.value);
    }
    hide Latest, RecordedAt, Finish, Settle;
  }

  lemma FinishEnds(s: State, f: Facts, commit: string, revision: string)
    requires f.lapse.None? && s.attempts != []
    ensures Ended(s, Finish(s, f, commit, revision))
  {
    hide Latest, WithLast;
    var id := LastAttempt(s).id;
    SettleEnds(s, f, SucceededAttempt, Done,
               if Latest(s.events, IntegrationEvent, id).Some? then [] else [IntegrationCompleted(id, revision)], Completed(commit));
    hide Settle, Ended;
  }

  lemma SettlesEnd(s: State, f: Facts)
    requires f.lapse.None?
    ensures Ended(s, Human(s, f)) && Ended(s, Retry(s, f)) && Ended(s, Preserve(s, f)) && Ended(s, Fail(s, f)) && Ended(s, Cancel(s, f))
  {
    SettleEnds(s, f, FailedAttempt, NeedsHuman, [], RequiresHuman);
    SettleEnds(s, f, FailedAttempt, Ready, [], SafeToRetry);
    SettleEnds(s, f, FailedAttempt, Blocked, [], RequiresReconciliation);
    SettleEnds(s, f, FailedAttempt, Failed, [], FailedOutcome);
    SettleEnds(s, f, CancelledAttempt, Cancelled, [], CancelledOutcome);
    hide Settle, Ended;
  }

  lemma ChecksEnd(s: State, f: Facts, status: CheckStatus)
    requires f.lapse.None? && s.attempts != []
    ensures Ended(s, ByChecks(s, f, status))
  {
    SettlesEnd(s, f);
    if f.commit.Some? {
      IntegrationEnds(AfterCommit(s, f.commit.value), f, f.commit.value);
    }
    hide Settle, Integration;
  }

  lemma VerifyingEnds(s: State, f: Facts)
    requires f.lapse.None? && s.attempts != []
    ensures Ended(s, VerifyingStage(s, f))
  {
    SettlesEnd(s, f);
    var recorded := Latest(s.events, VerificationEvent, LastAttempt(s).id);
    if recorded.Some? {
      ChecksEnd(s, f, recorded.value.status);
    } else if f.rerun.Some? {
      ChecksEnd(AfterRerun(s, f.rerun.value), f, f.rerun.value);
    }
    hide Settle, ByChecks, Latest;
  }

  /** Recovery of an active task always ends in a status that is not active, with the latest attempt finished. */
  lemma RecoveryEndsInactive(s: State, f: Facts)
    requires f.lapse.None? && s.status.Some? && IsActive(s.status.value)
    ensures Ended(s, Reconcile(s, f))
  {
    SettlesEnd(s, f);
    if s.attempts != [] {
      VerifyingEnds(s, f);
      if RecordedCommit(s).Some? {
        IntegrationEnds(s, f, RecordedCommit(s).value);
      }
    }
    hide Ended, Human, Retry, Preserve, Integration, VerifyingStage, Latest;
  }

  lemma LatestAppended(events: seq<Event>, e: Event)
    ensures Latest(events + [e], TypeOf(e), e.attemptId) == Some(e)
    ensures forall t, id :: t != TypeOf(e) ==> Latest(events + [e], t, id) == Latest(events, t, id)
  {
    assert (events + [e])[..|events|] == events;
  }

  /** The recorded commit of the latest attempt. */
  function RecordedCommit(s: State): Option<string> {
    if s.attempts == [] then None
    else
      var e := Latest(s.events, CommitEvent, LastAttempt(s).id);
      if e.Some? then Some(e.value.revision) else None
  }

  lemma CommitIsRecorded(s: State, commit: string)
    requires s.attempts != []
    ensures RecordedCommit(AfterCommit(s, commit)) == Some(commit)
  {
    LatestAppended(s.events, CommitCreated(LastAttempt(s).id, commit));
    hide Latest;
  }

  lemma FinishKeepsCommit(s: State, f: Facts, commit: string, revision: string)
    requires s.attempts != [] && MayWrite(f) && RecordedCommit(s) == Some(commit)
    ensures RecordedCommit(Finish(s, f, commit, revision).state) == Some(commit)
    ensures Finish(s, f, commit, revision).state.head == s.head
  {
    var id := LastAttempt(s).id;
    LatestAppended(s.events, IntegrationCompleted(id, revision));
    hide Latest;
    assert s.events + [] == s.events;
    assert LastAttempt(Finish(s, f, commit, revision).state).id == id;
  }

  lemma IntegrationCompletesIntegrated(s: State, f: Facts, commit: string)
    requires s.attempts != [] && Consistent(f) && RecordedCommit(s) == Some(commit)
    ensures var r := Integration(s, f, commit);
            r.outcome.Completed? ==>
              r.outcome.revision == commit && RecordedCommit(r.state) == Some(commit) && f.isAncestor(commit, r.state.head) == Some(true)
  {
    hide Latest, Finish, RecordedAt;
    FinishOutcome(s, f, commit, commit);
    if f.integrate.Some? {
      FinishOutcome(s.(head := f.integrate.value), f, commit, f.integrate.value);
    }
    if MayWrite(f) {
      FinishKeepsCommit(s, f, commit, commit);
      if f.integrate.Some? {
        var moved := s.(head := f.integrate.value);
        assert RecordedCommit(moved) == RecordedCommit(s);
        FinishKeepsCommit(moved, f, commit, f.integrate.value);
      }
    }
  }

  lemma FinishOutcome(s: State, f: Facts, commit: string, revision: string)
    requires s.attempts != []
    ensures Finish(s, f, commit, revision).outcome == if MayWrite(f) then Completed(commit) else OwnershipLost
  {
  }

  /** A completion is one of the recorded commit, which the integration HEAD contains. */
  ghost predicate CompletionSound(f: Facts, r: Result) {
    r.outcome.Completed? ==>
      RecordedCommit(r.state) == Some(r.outcome.revision) && f.isAncestor(r.outcome.revision, r.state.head) == Some(true)
  }

  lemma FailedTaskCompletes(s: State, f: Facts)
    ensures CompletionSound(f, FailedTask(s, f))
  {
    if RecordedCommit(s).Some? {
      var c := RecordedCommit(s).value;
      FinishOutcome(s, f, c, c);
      if MayWrite(f) {
        FinishKeepsCommit(s, f, c, c);
      }
    }
    hide Latest, RecordedAt, Finish;
  }

  lemma IntegratingCompletes(s: State, f: Facts)
    requires s.attempts != [] && Consistent(f)
    ensures CompletionSound(f, IntegratingStage(s, f))
  {
    if RecordedCommit(s).Some? {
      IntegrationCompletesIntegrated(s, f, RecordedCommit(s).value);
    }
    hide Latest, RecordedAt, Integration;
  }

  lemma VerifyingCompletes(s: State, f: Facts)
    requires s.attempts != [] && Consistent(f)
    ensures CompletionSound(f, VerifyingStage(s, f))
  {
    VerifiedCompletes(s, f);
    if f.rerun.Some? {
      VerifiedCompletes(AfterRerun(s, f.rerun.value), Spent(f));
    }
    hide Latest, FromVerification, RecordedCommit, AfterRerun;
  }

  /** Recovery reports completion only for the recorded commit, and only when the integration HEAD contains it. */
  lemma CompletedIsIntegrated(s: State, f: Facts)
    requires Consistent(f)
    ensures CompletionSound(f, Reconcile(s, f))
  {
    FailedTaskCompletes(s, f);
    if s.attempts != [] {
      IntegratingCompletes(s, f);
      VerifyingCompletes(s, f);
    }
    hide FailedTask, IntegratingStage, VerifyingStage, RecordedCommit;
  }

  lemma VerifiedCompletes(s: State, f: Facts)
    requires s.attempts != [] && Consistent(f)
    ensures CompletionSound(f, FromVerification(s, f))
  {
    if f.commit.Some? {
      CommitIsRecorded(s, f.commit.value);
      hide Integration, AfterCommit, RecordedCommit;
      IntegrationCompletesIntegrated(AfterCommit(s, f.commit.value), Spent(f), f.commit.value);
    }
  }

  // --- Which completions are verified ---

  /** The verdict on a completed commit is that of before, and HEAD has moved only if it did not contain the commit. */
  ghost predicate VerdictStays(s: State, f: Facts, r: Result) {
    r.outcome.Completed? ==>
      && s.attempts != []
      && RecordedAt(r.state, LastAttempt(s).id, r.outcome.revision) == RecordedAt(s, LastAttempt(s).id, r.outcome.revision)
      && if f.isAncestor(r.outcome.revision, s.head) == Some(true)
         then r.state.head == s.head && RecordedAt(s, LastAttempt(s).id, r.outcome.revision) in {None, Some(ChecksPassed)}
         else f.integrate == Some(r.state.head)
  }

  lemma FinishKeepsVerdict(s: State, f: Facts, commit: string, revision: string)
    requires s.attempts != []
    ensures forall id, c :: RecordedAt(Finish(s, f, commit, revision).state, id, c) == RecordedAt(s, id, c)
    ensures Finish(s, f, commit, revision).state.head == s.head
  {
    LatestAppended(s.events, IntegrationCompleted(LastAttempt(s).id, revision));
    hide Latest;
    assert s.events + [] == s.events;
  }

  lemma SettleOutcomes(s: State, f: Facts)
    ensures !Human(s, f).outcome.Completed? && !Fail(s, f).outcome.Completed? && !Cancel(s, f).outcome.Completed?
  {
  }

  /** How integration completes. */
  lemma IntegrationCompletes(s: State, f: Facts, commit: string)
    requires s.attempts != []
    ensures var r, recorded := Integration(s, f, commit), RecordedAt(s, LastAttempt(s).id, commit);
            r.outcome.Completed? ==>
              if f.isAncestor(commit, s.head) == Some(true)
              then r == Finish(s, f, commit, commit) && recorded != Some(ChecksFailed) && recorded != Some(ChecksCancelled)
              else f.integrate.Some? && r == Finish(s.(head := f.integrate.value), f, commit, f.integrate.value)
  {
    SettleOutcomes(s, f);
    hide Finish, Human, Fail, Cancel, RecordedAt;
  }

  lemma MovedVerdict(s: State, head: string)
    ensures forall id, c :: RecordedAt(s.(head := head), id, c) == RecordedAt(s, id, c)
  {
  }

  lemma IntegrationKeepsVerdict(s: State, f: Facts, commit: string)
    requires s.attempts != []
    ensures VerdictStays(s, f, Integration(s, f, commit))
  {
    IntegrationCompletes(s, f, commit);
    FinishKeepsVerdict(s, f, commit, commit);
    FinishOutcome(s, f, commit, commit);
    var recorded := RecordedAt(s, LastAttempt(s).id, commit);
    assert recorded.None? || recorded.value.ChecksPassed? || recorded.value.ChecksFailed? || recorded.value.ChecksCancelled?;
    if f.integrate.Some? {
      var moved := s.(head := f.integrate.value);
      FinishKeepsVerdict(moved, f, commit, f.integrate.value);
      FinishOutcome(moved, f, commit, f.integrate.value);
      MovedVerdict(s, f.integrate.value);
    }
    hide Integration, Finish, RecordedAt;
  }

  lemma EarlierVerdict(s: State, f: Facts, e: Event, n: State, r: Result)
    requires s.attempts != [] && TypeOf(e) != IntegrationVerificationEvent && n.events == s.events + [e] && n.attempts == s.attempts && n.head == s.head
    requires e.attemptId == LastAttempt(s).id && VerdictStays(n, f, r)
    ensures VerdictStays(s, f, r)
  {
    LatestAppended(s.events, e);
    hide Latest;
  }

  lemma VerifiedKeepsVerdict(s: State, f: Facts)
    requires s.attempts != []
    ensures VerdictStays(s, f, FromVerification(s, f))
  {
    if f.commit.Some? {
      var next := AfterCommit(s, f.commit.value);
      IntegrationKeepsVerdict(next, Spent(f), f.commit.value);
      EarlierVerdict(s, f, CommitCreated(LastAttempt(s).id, f.commit.value), next, Integration(next, Spent(f), f.commit.value));
    }
    hide Integration, RecordedAt;
  }

  lemma VerifyingKeepsVerdict(s: State, f: Facts)
    requires s.attempts != []
    ensures VerdictStays(s, f, VerifyingStage(s, f))
  {
    VerifiedKeepsVerdict(s, f);
    if f.rerun.Some? {
      var next := AfterRerun(s, f.rerun.value);
      VerifiedKeepsVerdict(next, Spent(f));
      EarlierVerdict(s, f, VerificationCompleted(LastAttempt(s).id, f.rerun.value), next, FromVerification(next, Spent(f)));
    }
    hide FromVerification, RecordedAt, AfterRerun, Latest;
  }

  lemma FailedTaskKeepsVerdict(s: State, f: Facts)
    ensures VerdictStays(s, f, FailedTask(s, f))
  {
    if RecordedCommit(s).Some? {
      FinishKeepsVerdict(s, f, RecordedCommit(s).value, RecordedCommit(s).value);
      FinishOutcome(s, f, RecordedCommit(s).value, RecordedCommit(s).value);
    }
    hide Finish, RecordedAt, Latest;
  }

  /**
   * Recovery completes a commit without a passed integration verification exactly when HEAD contained the
   * commit and no verdict on it was recorded, or when the fast-forward was its own and nothing was recorded
   * as passed. No completion overrules a recorded failure of a commit that HEAD contained.
   */
  lemma UnverifiedCompletions(s: State, f: Facts)
    requires Reconcile(s, f).outcome.Completed?
    ensures s.attempts != []
    ensures var r, id := Reconcile(s, f), LastAttempt(s).id;
            var c := r.outcome.revision;
            RecordedAt(r.state, id, c) != Some(ChecksPassed) <==>
            if f.isAncestor(c, s.head) == Some(true) then RecordedAt(s, id, c).None?
            else f.integrate == Some(r.state.head) && RecordedAt(s, id, c) != Some(ChecksPassed)
  {
    FailedTaskKeepsVerdict(s, f);
    if s.attempts != [] {
      VerifyingKeepsVerdict(s, f);
      if RecordedCommit(s).Some? {
        IntegrationKeepsVerdict(s, f, RecordedCommit(s).value);
      }
    }
    hide FailedTask, VerifyingStage, Integration, RecordedAt, Latest;
  }

  /** A task whose commit HEAD contains, and no verdict speaks against, is completed as it is. */
  lemma IntegratedIsFinished(s: State, f: Facts, commit: string)
    requires AtWork(s, Integrating) && RecordedCommit(s) == Some(commit) && f.lapse.None? && f.headReadable
    requires f.isAncestor(commit, s.head) == Some(true) && RecordedAt(s, LastAttempt(s).id, commit) in {None, Some(ChecksPassed)}
    ensures Reconcile(s, f).outcome == Completed(commit) && Reconcile(s, f).state.head == s.head
    ensures RecordedAt(Reconcile(s, f).state, LastAttempt(s).id, commit) == RecordedAt(s, LastAttempt(s).id, commit)
  {
    FinishOutcome(s, f, commit, commit);
    FinishKeepsVerdict(s, f, commit, commit);
    hide Finish, Latest, RecordedAt;
  }

  lemma OneCommit(a: string, c: string)
    ensures Latest([CommitCreated(a, c)], CommitEvent, a) == Some(CommitCreated(a, c))
    ensures Latest([CommitCreated(a, c)], IntegrationVerificationEvent, a) == None
  {
    LatestAppended([], CommitCreated(a, c));
    assert [] + [CommitCreated(a, c)] == [CommitCreated(a, c)];
  }

  /** For example: a committed task that the runner had merged before it stopped, and before it was verified. */
  lemma CompletesUnverifiedForExample(a: string, base: string, c: string)
    ensures var s := State(Some(Integrating), [Attempt(a, base, Running)], [CommitCreated(a, c)], c);
            var f := Facts(MissingWorktree, true, None, None, true, (x: string, y: string) => Some(x == y), None, None, None, None);
            Reconcile(s, f).outcome == Completed(c) && RecordedAt(Reconcile(s, f).state, a, c) == None
  {
    OneCommit(a, c);
    var s := State(Some(Integrating), [Attempt(a, base, Running)], [CommitCreated(a, c)], c);
    hide Latest;
    assert RecordedCommit(s) == Some(c) && RecordedAt(s, a, c) == None && AtWork(s, Integrating);
    hide RecordedCommit, RecordedAt, Reconcile;
    IntegratedIsFinished(s, Facts(MissingWorktree, true, None, None, true, (x: string, y: string) => Some(x == y), None, None, None, None), c);
  }

  // --- A second recovery ---

  /** Git and the events say that the recorded commit is integrated, and no verification speaks against it. */
  predicate IntegratedEvidence(s: State, f: Facts) {
    && s.attempts != [] && RecordedCommit(s).Some? && f.headReadable
    && f.isAncestor(RecordedCommit(s).value, s.head) == Some(true)
    && RecordedAt(s, LastAttempt(s).id, RecordedCommit(s).value) in {None, Some(ChecksPassed)}
  }

  ghost predicate SecondIsNoOp(r: Result, f: Facts) {
    Reconcile(r.state, f) == Result(r.state, NoOp)
  }

  /** After a failure the second recovery looks for integrated evidence only. */
  lemma FailThenRecover(s: State, f: Facts)
    requires f.lapse.None? && s.attempts != []
    ensures SecondIsNoOp(Fail(s, f), f) <==> !IntegratedEvidence(s, f)
  {
    var n := Fail(s, f).state;
    assert s.events + [] == s.events;
    assert n.events == s.events && LastAttempt(n).id == LastAttempt(s).id && n.head == s.head && LastAttempt(n).status == FailedAttempt;
    hide Latest, Settle;
    assert RecordedCommit(n) == RecordedCommit(s);
    if IntegratedEvidence(s, f) {
      FinishOutcome(n, f, RecordedCommit(s).value, RecordedCommit(s).value);
    }
    hide Finish;
  }

  /** The other ends leave nothing to do. */
  lemma OtherEnds(s: State, f: Facts)
    requires f.lapse.None?
    ensures SecondIsNoOp(Human(s, f), f) && SecondIsNoOp(Retry(s, f), f) && SecondIsNoOp(Preserve(s, f), f) && SecondIsNoOp(Cancel(s, f), f)
    ensures forall commit, revision :: s.attempts != [] ==> SecondIsNoOp(Finish(s, f, commit, revision), f)
  {
    hide Latest, WithLast;
  }

  /** How integration ends; it fails only without integrated evidence. */
  lemma IntegrationForms(s: State, f: Facts, commit: string)
    requires s.attempts != [] && RecordedCommit(s) == Some(commit)
    ensures var r := Integration(s, f, commit);
            || r == Human(s, f) || r == Cancel(s, f) || r == Finish(s, f, commit, commit)
            || (f.integrate.Some? && r == Finish(s.(head := f.integrate.value), f, commit, f.integrate.value))
            || (r == Fail(s, f) && !IntegratedEvidence(s, f))
  {
    hide RecordedAt, RecordedCommit, Finish, Human, Fail, Cancel, Latest;
  }

  lemma IntegrationThenRecover(s: State, f: Facts, commit: string)
    requires f.lapse.None? && s.attempts != [] && RecordedCommit(s) == Some(commit)
    ensures SecondIsNoOp(Integration(s, f, commit), f)
  {
    OtherEnds(s, f);
    FailThenRecover(s, f);
    if f.integrate.Some? {
      OtherEnds(s.(head := f.integrate.value), f);
    }
    IntegrationForms(s, f, commit);
    hide *;
  }

  lemma ChecksThenRecover(s: State, f: Facts, status: CheckStatus)
    requires f.lapse.None? && s.attempts != []
    ensures SecondIsNoOp(ByChecks(s, f, status), f) <==>
            !(IntegratedEvidence(s, f) && (status == ChecksFailed || (status == ChecksPassed && f.commit.None?)))
  {
    OtherEnds(s, f);
    FailThenRecover(s, f);
    if f.commit.Some? {
      CommitIsRecorded(s, f.commit.value);
      IntegrationThenRecover(AfterCommit(s, f.commit.value), f, f.commit.value);
    }
    hide SecondIsNoOp, IntegratedEvidence, Settle, Integration, RecordedCommit, Latest;
  }

  /** What the verification stage goes by: the recorded status, or else that of the rerun. */
  function StatusToApply(s: State, f: Facts): Option<CheckStatus>
    requires s.attempts != []
  {
    var recorded := Latest(s.events, VerificationEvent, LastAttempt(s).id);
    if recorded.Some? then Some(recorded.value.status) else if f.checksConfigured then f.rerun else None
  }

  /** The verification stage ends in a failure before a commit of its own is recorded. */
  predicate FailsBeforeCommit(s: State, f: Facts)
    requires s.attempts != []
  {
    && f.inspection.Available? && f.inspection.headRevision == LastAttempt(s).baseRevision
    && match StatusToApply(s, f)
       case Some(ChecksFailed) => true
       case Some(ChecksPassed) => f.commit.None?
       case Some(ChecksCancelled) => false
       case None => f.checksConfigured
  }

  lemma RerunKeepsEvidence(s: State, f: Facts)
    requires s.attempts != [] && f.rerun.Some?
    ensures IntegratedEvidence(AfterRerun(s, f.rerun.value), f) == IntegratedEvidence(s, f)
  {
    LatestAppended(s.events, VerificationCompleted(LastAttempt(s).id, f.rerun.value));
    hide Latest;
  }

  lemma VerifyingThenRecover(s: State, f: Facts)
    requires f.lapse.None? && s.attempts != []
    ensures SecondIsNoOp(VerifyingStage(s, f), f) <==> !(IntegratedEvidence(s, f) && FailsBeforeCommit(s, f))
  {
    OtherEnds(s, f);
    FailThenRecover(s, f);
    var recorded := Latest(s.events, VerificationEvent, LastAttempt(s).id);
    if recorded.Some? {
      ChecksThenRecover(s, f, recorded.value.status);
    } else if f.rerun.Some? {
      RerunKeepsEvidence(s, f);
      ChecksThenRecover(AfterRerun(s, f.rerun.value), f, f.rerun.value);
    }
    hide SecondIsNoOp, IntegratedEvidence, Settle, ByChecks, Latest;
  }

  /**
   * A task whose verification is recovered as failed although an older commit of the same attempt is
   * recorded and integrated: the next recovery finds that commit and completes the task.
   */
  predicate Reopens(s: State, f: Facts) {
    && s.status == Some(Verifying) && s.attempts != [] && LastAttempt(s).status == Running
    && IntegratedEvidence(s, f) && FailsBeforeCommit(s, f)
  }

  lemma FailedThenRecover(s: State, f: Facts)
    requires f.lapse.None? && s.status == Some(Failed)
    ensures SecondIsNoOp(FailedTask(s, f), f)
  {
    OtherEnds(s, f);
    hide Finish, RecordedAt, Latest;
  }

  /** Under fixed answers a second recovery does nothing, exactly unless the task reopens. */
  lemma RecoveryIsIdempotent(s: State, f: Facts)
    requires f.lapse.None?
    ensures Reconcile(Reconcile(s, f).state, f) == Result(Reconcile(s, f).state, NoOp) <==> !Reopens(s, f)
  {
    OtherEnds(s, f);
    if s.status == Some(Failed) {
      FailedThenRecover(s, f);
    }
    if s.attempts != [] {
      VerifyingThenRecover(s, f);
      if RecordedCommit(s).Some? {
        IntegrationThenRecover(s, f, RecordedCommit(s).value);
      }
    }
    FirstStepThenRecover(s, f);
  }

  lemma FirstStepThenRecover(s: State, f: Facts)
    requires f.lapse.None?
    requires SecondIsNoOp(Human(s, f), f) && SecondIsNoOp(Retry(s, f), f) && SecondIsNoOp(Preserve(s, f), f)
    requires s.status == Some(Failed) ==> SecondIsNoOp(FailedTask(s, f), f)
    requires s.attempts != [] ==>
               (SecondIsNoOp(VerifyingStage(s, f), f) <==> !(IntegratedEvidence(s, f) && FailsBeforeCommit(s, f)))
    requires s.attempts != [] && RecordedCommit(s).Some? ==> SecondIsNoOp(Integration(s, f, RecordedCommit(s).value), f)
    ensures SecondIsNoOp(Reconcile(s, f), f) <==> !Reopens(s, f)
  {
    hide Settle, FailedTask, VerifyingStage, Integration, IntegratedEvidence, FailsBeforeCommit, Latest;
    if s.status.None? || (!IsActive(s.status.value) && s.status.value != Failed) {
      assert Reconcile(s, f) == Result(s, NoOp);
    } else {
      assert IsActive(Verifying) && !IsActive(Failed);
      hide SecondIsNoOp;
    }
  }

  /** Without a commit recorded before its verification ended, recovery is idempotent. */
  lemma FreshVerificationIsIdempotent(s: State, f: Facts)
    requires f.lapse.None? && (s.status == Some(Verifying) ==> RecordedCommit(s).None?)
    ensures Reconcile(Reconcile(s, f).state, f) == Result(Reconcile(s, f).state, NoOp)
  {
    RecoveryIsIdempotent(s, f);
  }

  /** A task that reopens is reported as failed first and as completed by the next recovery. */
  lemma ReopenedIsCompleted(s: State, f: Facts)
    requires f.lapse.None? && Reopens(s, f)
    ensures Reconcile(s, f).outcome == FailedOutcome
    ensures Reconcile(Reconcile(s, f).state, f).outcome == Completed(RecordedCommit(s).value)
  {
    hide Latest, FromVerification;
    var t := s.(events := s.events + if f.rerun.Some? then [VerificationCompleted(LastAttempt(s).id, f.rerun.value)] else []);
    if f.rerun.Some? {
      RerunKeepsEvidence(s, f);
      FailThenComplete(t, f);
      LatestAppended(s.events, VerificationCompleted(LastAttempt(s).id, f.rerun.value));
    }
    FailThenComplete(s, f);
    FailsFromVerification(s, f);
    FailsFromVerification(t, f);
    hide IntegratedEvidence, Fail;
  }

  lemma FailsFromVerification(s: State, f: Facts)
    requires s.attempts != []
    ensures f.commit.None? ==> FromVerification(s, f) == Fail(s, f)
  {
  }

  lemma FailThenComplete(s: State, f: Facts)
    requires f.lapse.None? && IntegratedEvidence(s, f)
    ensures Reconcile(Fail(s, f).state, f).outcome == Completed(RecordedCommit(s).value)
    ensures Fail(s, f).outcome == FailedOutcome
  {
    var n := Fail(s, f).state;
    assert s.events + [] == s.events;
    assert n.events == s.events && LastAttempt(n).id == LastAttempt(s).id && LastAttempt(n).status == FailedAttempt;
    FinishOutcome(n, f, RecordedCommit(s).value, RecordedCommit(s).value);
    hide Latest, Settle, Finish;
  }

  /** For example: a recorded failure of the verification beside a recorded commit that HEAD equals, as no task is stored. */
  lemma ReopensForExample(a: string, base: string, c: string)
    ensures var s := State(Some(Verifying), [Attempt(a, base, Running)], [CommitCreated(a, c), VerificationCompleted(a, ChecksFailed)], c);
            Reopens(s, Facts(Available(true, base), true, None, None, true, (x: string, y: string) => Some(x == y), Some(true), Some(c), None, None))
  {
    var events := [CommitCreated(a, c), VerificationCompleted(a, ChecksFailed)];
    LatestAppended([CommitCreated(a, c)], VerificationCompleted(a, ChecksFailed));
    assert [CommitCreated(a, c)] + [VerificationCompleted(a, ChecksFailed)] == events;
    LatestAppended([], CommitCreated(a, c));
    assert [] + [CommitCreated(a, c)] == [CommitCreated(a, c)];
    assert Latest([], IntegrationVerificationEvent, a) == None;
    hide Latest;
    assert Latest(events, CommitEvent, a) == Some(CommitCreated(a, c));
    assert Latest(events, IntegrationVerificationEvent, a) == None;
  }
}
