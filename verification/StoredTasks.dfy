/**
 * What the program's own transactions make of one task: executor, coordinator, queue processor, operator
 * and crash recovery (packages/orchestrator/src/workflow-executor.ts, task-execution-coordinator.ts,
 * integration-queue-processor.ts and crash-recovery.ts).
 */
module StoredTasks {
  import opened Options
  import opened TaskStates
  import opened CrashRecovery
  import opened RecoveryOwnership

  /** The task, and whether an executor is at work on its latest attempt. */
  datatype Stored = Stored(task: State, working: bool)

  /** Every step is one transaction; `Leaves` stands for a crash, a lost claim, or the hand-over to the queue. */
  datatype Step =
    | Add(initial: TaskStatus)
    | StartAttempt(id: string, base: string)
    | Enter(to: TaskStatus)
    | RecordVerification(status: CheckStatus)
    | Commit(revision: string)
    | EndExecution(to: TaskStatus, attemptStatus: AttemptStatus)
    | Leaves
    | FailUnexpectedly(attempt: nat)
    | RecordIntegration(attempt: nat, revision: string)
    | RecordIntegrationVerification(attempt: nat, revision: string, status: CheckStatus)
    | SettleEntry(attempt: nat, to: TaskStatus, attemptStatus: AttemptStatus)
    | ReturnToReady
    | MoveHead(head: string)
    | Recover(f: Facts)

  /** The statuses of an attempt before it has a commit. */
  predicate IsUncommitted(s: TaskStatus) {
    IsActive(s) && s != Integrating
  }

  predicate IsEnd(s: TaskStatus) {
    s in {Done, Failed, Cancelled, Blocked}
  }

  predicate HasStatus(s: State, allowed: set<TaskStatus>) {
    s.status.Some? && s.status.value in allowed
  }

  function WithAttempt(s: State, k: nat, status: AttemptStatus): State
    requires k < |s.attempts|
  {
    s.(attempts := s.attempts[k := s.attempts[k].(status := status)])
  }

  function WithEvent(s: State, e: Event): State {
    s.(events := s.events + [e])
  }

  /** An executor starts an attempt under a number of its own. */
  predicate MayStart(m: Stored, id: string) {
    !m.working && m.task.status == Some(Ready) && forall k :: 0 <= k < |m.task.attempts| ==> m.task.attempts[k].id != id
  }

  /** The executor is at work, and its transition is an edge of the table. */
  predicate MayEnter(m: Stored, to: TaskStatus) {
    m.working && m.task.attempts != [] && m.task.status.Some? && CanTransition(m.task.status.value, to)
  }

  function After(m: Stored, step: Step): Stored {
    var s := m.task;
    match step
    case Add(initial) => if s.status.None? && initial in {Backlog, Ready} then m.(task := s.(status := Some(initial))) else m
    case StartAttempt(id, base) =>
      if MayStart(m, id) then Stored(s.(attempts := s.attempts + [Attempt(id, base, Running)]), true) else m
    case Enter(to) => if MayEnter(m, to) && IsUncommitted(to) then m.(task := s.(status := Some(to))) else m
    case RecordVerification(status) =>
      if m.working && s.attempts != [] && s.status == Some(Verifying) then m.(task := AfterRerun(s, status)) else m
    case Commit(revision) => if MayEnter(m, Integrating) then m.(task := AfterCommit(s, revision)) else m
    case EndExecution(to, attemptStatus) =>
      if MayEnter(m, to) && IsEnd(to) then Stored(s.(status := Some(to), attempts := WithLast(s, attemptStatus)), false) else m
    case Leaves => m.(working := false)
    case FailUnexpectedly(k) =>
      if s.status.Some? && s.status != Some(Done) then
        Stored((if k < |s.attempts| then WithAttempt(s, k, FailedAttempt) else s)
               .(status := Some(if IsActive(s.status.value) then NeedsHuman else Failed)), false)
      else m
    case RecordIntegration(k, revision) =>
      if k < |s.attempts| then m.(task := WithEvent(s, IntegrationCompleted(s.attempts[k].id, revision))) else m
    case RecordIntegrationVerification(k, revision, status) =>
      if k < |s.attempts| then m.(task := WithEvent(s, IntegrationVerified(s.attempts[k].id, revision, status))) else m
    case SettleEntry(k, to, attemptStatus) =>
      if !m.working && k < |s.attempts| && to in {Done, Failed, Cancelled} then
        m.(task := WithAttempt(s, k, attemptStatus).(status := if s.status == Some(Integrating) then Some(to) else s.status))
      else m
    case ReturnToReady => if !m.working && HasStatus(s, {Failed, NeedsHuman, Blocked}) then m.(task := s.(status := Some(Ready))) else m
    case MoveHead(head) => m.(task := s.(head := head))
    case Recover(f) => if m.working then m else m.(task := Reconcile(s, f).state)
  }

  /** A run from before the task was added. */
  ghost predicate IsRun(run: seq<Stored>, steps: seq<Step>) {
    && |run| == |steps| + 1
    && run[0].task.status == None && run[0].task.attempts == [] && run[0].task.events == [] && !run[0].working
    && forall i :: 0 <= i < |steps| ==> run[i + 1] == After(run[i], steps[i])
  }

  // --- What every stored task satisfies ---

  ghost predicate HasAttempt(s: State, id: string) {
    exists k :: 0 <= k < |s.attempts| && s.attempts[k].id == id
  }

  ghost predicate KnownEvents(s: State) {
    forall i :: 0 <= i < |s.events| ==> HasAttempt(s, s.events[i].attemptId)
  }

  ghost predicate DistinctAttempts(s: State) {
    forall i, j :: 0 <= i < j < |s.attempts| ==> s.attempts[i].id != s.attempts[j].id
  }

  /** The latest attempt has a commit exactly in INTEGRATING, as long as it is worked on. */
  ghost predicate CommitFitsStatus(m: Stored) {
    && (m.task.status.Some? && IsUncommitted(m.task.status.value) ==> RecordedCommit(m.task).None?)
    && (m.task.status == Some(Integrating) ==> RecordedCommit(m.task).Some?)
    && (m.working && m.task.status == Some(Ready) ==> RecordedCommit(m.task).None?)
  }

  ghost predicate StoredSound(m: Stored) {
    && DistinctAttempts(m.task) && KnownEvents(m.task) && CommitFitsStatus(m)
    && (m.working ==> m.task.attempts != [] && m.task.status.Some? && (m.task.status.value == Ready || IsActive(m.task.status.value)))
  }

  /** The same attempts, and more events, all of them about these attempts. */
  ghost predicate GoesOn(s: State, n: State) {
    && |n.attempts| == |s.attempts| && (forall k :: 0 <= k < |s.attempts| ==> n.attempts[k].id == s.attempts[k].id)
    && |s.events| <= |n.events| && n.events[..|s.events|] == s.events
    && (forall i :: |s.events| <= i < |n.events| ==> HasAttempt(s, n.events[i].attemptId))
  }

  lemma GoingOnKeepsEvents(s: State, n: State)
    requires DistinctAttempts(s) && KnownEvents(s) && GoesOn(s, n)
    ensures DistinctAttempts(n) && KnownEvents(n)
  {
    forall i | 0 <= i < |n.events| ensures HasAttempt(n, n.events[i].attemptId) {
      if i < |s.events| {
        assert s.events[i] == n.events[..|s.events|][i];
      }
      SameAttempts(s, n, n.events[i].attemptId);
    }
  }

  lemma SameAttempts(s: State, n: State, id: string)
    requires GoesOn(s, n)
    ensures HasAttempt(s, id) <==> HasAttempt(n, id)
  {
    if HasAttempt(s, id) {
      var k :| 0 <= k < |s.attempts| && s.attempts[k].id == id;
      assert n.attempts[k].id == id;
    }
    if HasAttempt(n, id) {
      var k :| 0 <= k < |n.attempts| && n.attempts[k].id == id;
      assert s.attempts[k].id == id;
    }
  }

  lemma GoesOnTwice(s: State, m: State, n: State)
    requires GoesOn(s, m) && GoesOn(m, n)
    ensures GoesOn(s, n)
  {
    assert n.events[..|s.events|] == n.events[..|m.events|][..|s.events|];
    forall i | |s.events| <= i < |n.events| ensures HasAttempt(s, n.events[i].attemptId) {
      if i < |m.events| {
        assert n.events[i] == n.events[..|m.events|][i];
      } else {
        SameAttempts(s, m, n.events[i].attemptId);
      }
    }
  }

  lemma {:induction false} LatestCommitStays(events: seq<Event>, more: seq<Event>, id: string)
    requires forall i :: 0 <= i < |more| ==> !more[i].CommitCreated?
    ensures Latest(events + more, CommitEvent, id) == Latest(events, CommitEvent, id)
    decreases |more|
  {
    if more == [] {
      assert events + more == events;
    } else {
      var front := more[..|more| - 1];
      LatestCommitStays(events, front, id);
      assert (events + more)[..|events + more| - 1] == events + front;
    }
  }

  /** The latest commit is that of before when no commit event was added. */
  lemma CommitStays(s: State, n: State)
    requires GoesOn(s, n)
    requires forall i :: |s.events| <= i < |n.events| ==> !n.events[i].CommitCreated?
    ensures RecordedCommit(n) == RecordedCommit(s)
  {
    var more := n.events[|s.events|..];
    assert n.events == s.events + more;
    hide Latest;
    if s.attempts != [] {
      LatestCommitStays(s.events, more, LastAttempt(s).id);
    }
  }

  lemma {:induction false} NothingRecorded(events: seq<Event>, t: EventType, id: string)
    requires forall i :: 0 <= i < |events| ==> events[i].attemptId != id
    ensures Latest(events, t, id) == None
  {
    if events != [] {
      NothingRecorded(events[..|events| - 1], t, id);
    }
  }

  // --- Every step keeps it ---

  lemma StepGoesOn(m: Stored, step: Step)
    requires !step.StartAttempt? && !step.Recover?
    ensures GoesOn(m.task, After(m, step).task)
  {
    hide IsActive, CanTransition;
  }

  /** Apart from the commit, no step adds a commit event. */
  lemma StepAddsNoCommit(m: Stored, step: Step)
    requires !step.Commit? && !step.StartAttempt? && !step.Recover?
    ensures forall i :: |m.task.events| <= i < |After(m, step).task.events| ==> !After(m, step).task.events[i].CommitCreated?
  {
    hide IsActive, CanTransition;
  }

  /** The statuses that a step can lead to. */
  lemma StepStatuses(m: Stored, step: Step)
    requires StoredSound(m) && !step.Commit? && !step.StartAttempt? && !step.Recover?
    ensures var n := After(m, step);
            && (n.task.status.Some? && IsUncommitted(n.task.status.value) ==>
                  n.task.status == m.task.status || (m.working && m.task.status.Some? && (m.task.status.value == Ready || IsUncommitted(m.task.status.value))))
            && (n.task.status == Some(Integrating) ==> m.task.status == Some(Integrating))
            && (n.working ==> m.working && n.task.status.Some? && (n.task.status == m.task.status || IsActive(n.task.status.value)))
  {
    hide KnownEvents, DistinctAttempts, CommitFitsStatus;
  }

  lemma PlainStepKeepsSound(m: Stored, step: Step)
    requires StoredSound(m) && !step.Commit? && !step.StartAttempt? && !step.Recover?
    ensures StoredSound(After(m, step))
  {
    var n := After(m, step);
    StepGoesOn(m, step);
    StepAddsNoCommit(m, step);
    StepStatuses(m, step);
    GoingOnKeepsEvents(m.task, n.task);
    CommitStays(m.task, n.task);
    hide After, GoesOn, KnownEvents, DistinctAttempts, Latest;
  }

  lemma CommitKeepsSound(m: Stored, revision: string)
    requires StoredSound(m)
    ensures StoredSound(After(m, Commit(revision)))
  {
    var n := After(m, Commit(revision));
    if MayEnter(m, Integrating) {
      CommitIsRecorded(m.task, revision);
      assert m.task.attempts[|m.task.attempts| - 1].id == LastAttempt(m.task).id;
      assert GoesOn(m.task, n.task);
      GoingOnKeepsEvents(m.task, n.task);
    }
    hide GoesOn, KnownEvents, DistinctAttempts, RecordedCommit, Latest;
  }

  lemma StartKeepsSound(m: Stored, id: string, base: string)
    requires StoredSound(m)
    ensures StoredSound(After(m, StartAttempt(id, base)))
  {
    var s, n := m.task, After(m, StartAttempt(id, base)).task;
    if MayStart(m, id) {
      forall i | 0 <= i < |s.events| ensures s.events[i].attemptId != id && HasAttempt(n, s.events[i].attemptId) {
        var k :| 0 <= k < |s.attempts| && s.attempts[k].id == s.events[i].attemptId;
        assert n.attempts[k] == s.attempts[k];
      }
      NothingRecorded(s.events, CommitEvent, id);
      assert RecordedCommit(n) == None;
    }
    hide Latest;
  }

  // --- Crash recovery keeps it ---

  lemma SettleGoesOn(s: State, f: Facts, attemptStatus: AttemptStatus, status: TaskStatus, events: seq<Event>, outcome: Outcome)
    requires forall i :: 0 <= i < |events| ==> HasAttempt(s, events[i].attemptId)
    ensures GoesOn(s, Settle(s, f, attemptStatus, status, events, outcome).state)
  {
  }

  lemma EndsGoOn(s: State, f: Facts)
    ensures GoesOn(s, Human(s, f).state) && GoesOn(s, Retry(s, f).state) && GoesOn(s, Preserve(s, f).state)
    ensures GoesOn(s, Fail(s, f).state) && GoesOn(s, Cancel(s, f).state)
    ensures s.attempts != [] ==> forall commit, revision :: GoesOn(s, Finish(s, f, commit, revision).state)
  {
    SettleGoesOn(s, f, FailedAttempt, NeedsHuman, [], RequiresHuman);
    SettleGoesOn(s, f, FailedAttempt, Ready, [], SafeToRetry);
    SettleGoesOn(s, f, FailedAttempt, Blocked, [], RequiresReconciliation);
    SettleGoesOn(s, f, FailedAttempt, Failed, [], FailedOutcome);
    SettleGoesOn(s, f, CancelledAttempt, Cancelled, [], CancelledOutcome);
    if s.attempts != [] {
      var id := LastAttempt(s).id;
      assert HasAttempt(s, id) by {
        assert s.attempts[|s.attempts| - 1].id == id;
      }
      forall commit, revision ensures GoesOn(s, Finish(s, f, commit, revision).state) {
        hide GoesOn, Settle, HasAttempt, Latest;
        SettleGoesOn(s, f, SucceededAttempt, Done,
                     if Latest(s.events, IntegrationEvent, id).Some? then [] else [IntegrationCompleted(id, revision)], Completed(commit));
      }
    }
    hide GoesOn, Settle, Finish;
  }

  lemma IntegrationGoesOn(s: State, f: Facts, commit: string)
    requires s.attempts != []
    ensures GoesOn(s, Integration(s, f, commit).state)
  {
    EndsGoOn(s, f);
    if f.integrate.Some? {
      var moved := s.(head := f.integrate.value);
      EndsGoOn(moved, f);
      assert GoesOn(s, moved);
      GoesOnTwice(s, moved, Finish(moved, f, commit, f.integrate.value).state);
    }
    hide GoesOn, Human, Fail, Cancel, Finish, RecordedAt;
  }

  lemma EventGoesOn(s: State, e: Event)
    requires s.attempts != [] && e.attemptId == LastAttempt(s).id
    ensures forall status :: GoesOn(s, s.(status := status, events := s.events + [e]))
  {
    assert s.attempts[|s.attempts| - 1].id == e.attemptId;
  }

  lemma ChecksGoOn(s: State, f: Facts, status: CheckStatus)
    requires s.attempts != []
    ensures GoesOn(s, ByChecks(s, f, status).state)
  {
    EndsGoOn(s, f);
    assert GoesOn(s, s);
    if f.commit.Some? {
      var next := AfterCommit(s, f.commit.value);
      EventGoesOn(s, CommitCreated(LastAttempt(s).id, f.commit.value));
      IntegrationGoesOn(next, Spent(f), f.commit.value);
      GoesOnTwice(s, next, Integration(next, Spent(f), f.commit.value).state);
    }
    hide GoesOn, Integration, Fail, Cancel, AfterCommit;
  }

  lemma VerifyingGoesOn(s: State, f: Facts)
    requires s.attempts != []
    ensures GoesOn(s, VerifyingStage(s, f).state)
  {
    EndsGoOn(s, f);
    assert GoesOn(s, s);
    var recorded := Latest(s.events, VerificationEvent, LastAttempt(s).id);
    if recorded.Some? {
      ChecksGoOn(s, f, recorded.value.status);
    } else if f.rerun.Some? {
      var next := AfterRerun(s, f.rerun.value);
      EventGoesOn(s, VerificationCompleted(LastAttempt(s).id, f.rerun.value));
      assert next == s.(status := s.status, events := next.events);
      ChecksGoOn(next, Spent(f), f.rerun.value);
      GoesOnTwice(s, next, ByChecks(next, Spent(f), f.rerun.value).state);
    }
    hide GoesOn, ByChecks, Fail, Human, AfterRerun, Latest;
  }

  lemma RecoveryGoesOn(s: State, f: Facts)
    ensures GoesOn(s, Reconcile(s, f).state)
  {
    EndsGoOn(s, f);
    assert GoesOn(s, s);
    if s.attempts != [] {
      VerifyingGoesOn(s, f);
      if RecordedCommit(s).Some? {
        IntegrationGoesOn(s, f, RecordedCommit(s).value);
      }
    }
    hide GoesOn, VerifyingStage, Integration, Finish, Human, Retry, Preserve, RecordedAt, Latest;
  }

  /** The commit fits the status of the task. */
  ghost predicate Fits(s: State) {
    && (s.status.Some? && IsUncommitted(s.status.value) ==> RecordedCommit(s).None?)
    && (s.status == Some(Integrating) ==> RecordedCommit(s).Some?)
  }

  lemma CheckpointFits(s: State, f: Facts, k: nat)
    requires Fits(s) && k < |Checkpoints(s, f)|
    ensures Fits(Checkpoints(s, f)[k])
  {
    if Verifies(s, f) {
      if f.commit.Some? {
        CommitIsRecorded(Rerun(s, f), f.commit.value);
      }
      if Reruns(s, f) {
        LatestAppended(s.events, VerificationCompleted(LastAttempt(s).id, f.rerun.value));
      }
    }
    hide Latest, StatusToApply, AtWork;
  }

  /** Recovery leaves the task inactive, as it was, or at one of its checkpoints. */
  lemma RecoveryFits(s: State, f: Facts)
    requires Fits(s)
    ensures Fits(Reconcile(s, f).state)
  {
    var g := f.(lapse := None);
    var r := Reconcile(s, f);
    if s.status.Some? && IsActive(s.status.value) {
      RecoveryEndsInactive(s, g);
    } else {
      InactiveStays(s, g);
    }
    if f.lapse.Some? {
      LostOwnerWritesNothing(s, f);
      if r.outcome == OwnershipLost {
        CheckpointFits(s, f, f.lapse.value);
        hide Reconcile, Checkpoints;
        SameStoreSameEvidence(r.state, Checkpoints(s, f)[f.lapse.value]);
      }
    } else {
      assert g == f;
    }
    hide Reconcile, Checkpoints, RecordedCommit;
  }

  lemma InactiveStays(s: State, f: Facts)
    requires s.status.None? || !IsActive(s.status.value)
    ensures Reconcile(s, f).state == s || (Reconcile(s, f).state.status.Some? && !IsActive(Reconcile(s, f).state.status.value))
  {
    hide Latest, RecordedAt;
  }

  lemma RecoveryKeepsSound(m: Stored, f: Facts)
    requires StoredSound(m)
    ensures StoredSound(After(m, Recover(f)))
  {
    assert Fits(m.task);
    RecoveryFits(m.task, f);
    RecoveryGoesOn(m.task, f);
    hide Reconcile, GoesOn, RecordedCommit;
    if !m.working {
      GoingOnKeepsEvents(m.task, Reconcile(m.task, f).state);
    }
    hide DistinctAttempts, KnownEvents;
  }

  // --- Over whole runs ---

  lemma StepKeepsSound(m: Stored, step: Step)
    requires StoredSound(m)
    ensures StoredSound(After(m, step))
  {
    hide StoredSound, After;
    match step
    case StartAttempt(id, base) => StartKeepsSound(m, id, base);
    case Commit(revision) => CommitKeepsSound(m, revision);
    case Recover(f) => RecoveryKeepsSound(m, f);
    case _ => PlainStepKeepsSound(m, step);
  }

  lemma {:induction false} InvariantHolds(run: seq<Stored>, steps: seq<Step>, i: nat)
    requires IsRun(run, steps) && i < |run|
    ensures StoredSound(run[i])
  {
    hide After;
    if i > 0 {
      hide StoredSound;
      InvariantHolds(run, steps, i - 1);
      StepKeepsSound(run[i - 1], steps[i - 1]);
    }
  }

  /** The latest attempt of a stored task has a commit in INTEGRATING, and none while it is worked on before that. */
  lemma CommitMeansIntegrating(run: seq<Stored>, steps: seq<Step>, i: nat)
    requires IsRun(run, steps) && i < |run| && run[i].task.status.Some? && IsActive(run[i].task.status.value)
    ensures RecordedCommit(run[i].task).Some? <==> run[i].task.status == Some(Integrating)
  {
    InvariantHolds(run, steps, i);
    hide After, RecordedCommit;
  }

  /** Whatever state the program's transactions have left, a second recovery under fixed answers does nothing. */
  lemma StoredRecoveryIsIdempotent(run: seq<Stored>, steps: seq<Step>, i: nat, f: Facts)
    requires IsRun(run, steps) && i < |run| && f.lapse.None?
    ensures !Reopens(run[i].task, f)
    ensures Reconcile(Reconcile(run[i].task, f).state, f) == Result(Reconcile(run[i].task, f).state, NoOp)
  {
    if run[i].task.status == Some(Verifying) {
      CommitMeansIntegrating(run, steps, i);
    }
    hide After, Reconcile, RecordedCommit, FailsBeforeCommit;
    RecoveryIsIdempotent(run[i].task, f);
  }
}
