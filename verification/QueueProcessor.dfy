/**
 * The integration queue processor as atomic steps, with a crash possible between any two of them and
 * other actors in between (packages/orchestrator/src/integration-queue-processor.ts and
 * packages/orchestrator/src/integration-drift.ts).
 */
module QueueProcessor {
  import opened Options
  import opened TaskStates
  import opened CommitGraph
  import opened GitRepo
  import opened IntegrationDrift
  import Q = IntegrationQueue

  type Entry = Q.Entry

  datatype Event =
    | IntegrationCompleted(attemptId: string, revision: string)
    | IntegrationVerified(attemptId: string, revision: string, passed: bool)
    | ReconciliationVerified(attemptId: string, revision: string, passed: bool)

  /**
   * Where the processor stands. `included` is the task revision or branch tip that was found in, or
   * merged into, the integration history; `revision` is the integrated revision.
   */
  datatype Phase =
    | Idle
    | Claimed(e: Entry)
    | Checked(e: Entry)
    | Drifted(e: Entry, base: string)
    | Replayed(e: Entry, base: string)
    | Reconciled(e: Entry)
    | Merging(e: Entry)
    | MergedTip(e: Entry, included: string)
    | Integrated(e: Entry, included: string, revision: string, recovered: bool, verified: bool, mayFinish: bool)
    | Announced(e: Entry, included: string, revision: string, mayFinish: bool)
    | Verified(e: Entry, included: string, revision: string, mayFinish: bool)
    | Failing(e: Entry, cancelled: bool)
    | Recovered(e: Entry, revision: string, verified: bool)
    | Requeuing(e: Entry)
    | Reclaiming(e: Entry)

  /** `tips` remembers every tip a task branch has had, `owners` the attempt of every task branch. */
  datatype World = World(
    repo: Repo, queue: Q.Queue, tasks: map<string, TaskStatus>, events: seq<Event>, phase: Phase,
    tips: set<(string, string)>, owners: map<string, string>)

  datatype CheckResult = Passed | NotPassed | ChecksCancelled | NotRun

  datatype RebaseResult = UpToDate | Replay(changes: seq<Change>, shas: seq<string>) | Stopped

  datatype Action =
    // other actors
    | OthersCommit(sha: string)
    | Prepare(name: string, attemptId: string, base: string, changes: seq<Change>, shas: seq<string>)
    | DeleteBranch(name: string)
    | RecoveryMerge(name: string)
    | Enqueue(id: string, request: Q.Request)
    | SetTaskStatus(taskId: string, status: TaskStatus)
    // the processor
    | Crash
    | Throw
    | ClaimNext(now: int)
    | Check(ok: bool)
    | EvaluateDrift
    | Rebase(result: RebaseResult)
    | Examine
    | VerifyReconciled(outcome: CheckResult)
    | Merge(ok: bool)
    | ReadHead
    | Announce
    | VerifyIntegrated(outcome: CheckResult)
    | SettleSuccess(now: int)
    | SettleFailure(commits: bool, now: int)
    // recovery of an abandoned entry
    | Recover(id: string)
    | LoadRecovered(ok: bool)
    | Requeue
    | Reclaim(now: int)

  predicate HasPassed(events: seq<Event>, attemptId: string, revision: string) {
    IntegrationVerified(attemptId, revision, true) in events
  }

  predicate HasCompleted(events: seq<Event>, attemptId: string) {
    exists i :: 0 <= i < |events| && events[i].IntegrationCompleted? && events[i].attemptId == attemptId
  }

  predicate BranchExists(w: World, e: Entry) {
    e.request.branch in w.repo.branches
  }

  function TipOf(w: World, e: Entry): string
    requires BranchExists(w, e)
  {
    w.repo.branches[e.request.branch].tip
  }

  predicate IsIntegrating(w: World, e: Entry) {
    Q.IntegratingWithId(w.queue, e.id) < |w.queue|
  }

  // --- Other actors ---

  function AfterOthersCommit(w: World, sha: string): World {
    if w.repo.head in w.repo.graph && sha !in w.repo.graph then w.(repo := Committed(w.repo, sha)) else w
  }

  function AfterPrepare(w: World, name: string, attemptId: string, base: string, changes: seq<Change>, shas: seq<string>): World {
    if CanPrepare(w.repo, name, attemptId, base, changes, shas) && name !in w.owners then
      w.(repo := Prepared(w.repo, name, attemptId, base, changes, shas),
         tips := w.tips + {(name, ChainTip(base, shas))}, owners := w.owners[name := attemptId])
    else w
  }

  /**
   * Crash recovery of a task fast-forwards to the task's branch, at any time but while the processor
   * rebases that very branch: tasks with an open queue entry are left to the processor.
   */
  function AfterRecoveryMerge(w: World, name: string): World {
    if name in w.repo.branches && !(w.phase.Drifted? && w.phase.e.request.branch == name) then w.(repo := Merged(w.repo, name)) else w
  }

  /** An attempt enqueues the tip of its own branch. */
  function AfterEnqueue(w: World, id: string, request: Q.Request): World {
    if request.branch in w.repo.branches && w.repo.branches[request.branch] == Branch(request.taskRevision, request.attemptId) then
      w.(queue := Q.Enqueued(w.queue, id, request))
    else w
  }

  // --- The steps of processClaimed ---

  function AfterClaimNext(w: World, now: int): World {
    var next := Q.NextToClaim(w.queue);
    if w.phase.Idle? && next.Some? then
      w.(queue := Q.Claimed(w.queue, now), phase := Claimed(Q.Started(w.queue[next.value], now)))
    else w
  }

  /** The task and attempt are there, the task is integrating, and its checks are configured. */
  function AfterCheck(w: World, ok: bool): World {
    if !w.phase.Claimed? then w
    else
      var e := w.phase.e;
      w.(phase := if ok && e.request.taskId in w.tasks && w.tasks[e.request.taskId] == Integrating then Checked(e) else Failing(e, false))
  }

  /** drift.reconcile up to the rebase. */
  function AfterEvaluateDrift(w: World): World {
    if !w.phase.Checked? then w
    else
      var e, head := w.phase.e, w.repo.head;
      w.(phase := match DriftOf(w.repo.graph, e.request.baseRevision, e.request.taskRevision, head)
                  case AlreadyIntegrated => Integrated(e, e.request.taskRevision, head, false, false, true)
                  case Unsafe => Failing(e, false)
                  case Current => Merging(e)
                  case Drifting => Drifted(e, head))
  }

  /** The rebase of the task branch; it moves the branch or leaves it. */
  function AfterRebase(w: World, result: RebaseResult): World {
    if !w.phase.Drifted? then w
    else
      var e, base := w.phase.e, w.phase.base;
      if result.Stopped? || !BranchExists(w, e) then w.(phase := Failing(e, false))
      else if result.UpToDate? then
        if IsAncestor(w.repo.graph, base, TipOf(w, e)) then w.(phase := Replayed(e, base)) else w
      else if base in w.repo.graph && IsReplay(w.repo.graph, TipOf(w, e), base, result.changes, result.shas) then
        w.(repo := Rebased(w.repo, e.request.branch, base, result.changes, result.shas),
           phase := Replayed(e, base), tips := w.tips + {(e.request.branch, ChainTip(base, result.shas))})
      else w
  }

  /** The tip after the rebase, and the second evaluation against the HEAD of now. */
  function AfterExamine(w: World): World {
    if !w.phase.Replayed? then w
    else
      var e, base := w.phase.e, w.phase.base;
      w.(phase := if !BranchExists(w, e) then Failing(e, false)
                  else if TipOf(w, e) == base then Integrated(e, base, base, false, false, true)
                  else if DriftOf(w.repo.graph, base, TipOf(w, e), w.repo.head) == Current then Reconciled(e)
                  else Failing(e, false))
  }

  function AfterVerifyReconciled(w: World, outcome: CheckResult): World {
    if !w.phase.Reconciled? then w
    else
      var e := w.phase.e;
      if !BranchExists(w, e) || outcome.NotRun? then w.(phase := Failing(e, false))
      else
        w.(events := w.events + [ReconciliationVerified(e.request.attemptId, TipOf(w, e), outcome.Passed?)],
           phase := if outcome.Passed? then Merging(e) else Failing(e, outcome.ChecksCancelled?))
  }

  function AfterMerge(w: World, ok: bool): World {
    if !w.phase.Merging? then w
    else
      var e := w.phase.e;
      if !ok || !BranchExists(w, e) || MergeFastForward(w.repo.graph, w.repo.head, TipOf(w, e)).Diverged? then
        w.(phase := Failing(e, false))
      else w.(repo := Merged(w.repo, e.request.branch), phase := MergedTip(e, TipOf(w, e)))
  }

  function AfterReadHead(w: World): World {
    if w.phase.MergedTip? then
      w.(phase := Integrated(w.phase.e, w.phase.included, w.repo.head, false, false, true))
    else w
  }

  function AfterAnnounce(w: World): World {
    if !w.phase.Integrated? then w
    else
      var p := w.phase;
      w.(events := if p.recovered && HasCompleted(w.events, p.e.request.attemptId) then w.events
                   else w.events + [IntegrationCompleted(p.e.request.attemptId, p.revision)],
         phase := if p.verified then Verified(p.e, p.included, p.revision, p.mayFinish)
                  else Announced(p.e, p.included, p.revision, p.mayFinish))
  }

  function AfterVerifyIntegrated(w: World, outcome: CheckResult): World {
    if !w.phase.Announced? then w
    else
      var p := w.phase;
      if outcome.NotRun? then w.(phase := Failing(p.e, false))
      else
        w.(events := w.events + [IntegrationVerified(p.e.request.attemptId, p.revision, outcome.Passed?)],
           phase := if outcome.Passed? then Verified(p.e, p.included, p.revision, p.mayFinish) else Failing(p.e, outcome.ChecksCancelled?))
  }

  function AfterSettleSuccess(w: World, now: int): World {
    if !w.phase.Verified? then w
    else
      var e := w.phase.e;
      if w.phase.mayFinish && e.request.taskId in w.tasks && IsIntegrating(w, e) then
        w.(tasks := w.tasks[e.request.taskId := Done], queue := Q.Completed(w.queue, e.id, now), phase := Idle)
      else w.(phase := Failing(e, false))
  }

  /** The failure transaction, which may itself be rolled back. */
  function AfterSettleFailure(w: World, commits: bool, now: int): World {
    if !w.phase.Failing? then w
    else
      var e := w.phase.e;
      if commits && IsIntegrating(w, e) then
        w.(tasks := if e.request.taskId in w.tasks && w.tasks[e.request.taskId] == Integrating then
                      w.tasks[e.request.taskId := if w.phase.cancelled then Cancelled else Failed]
                    else w.tasks,
           queue := Q.Failed(w.queue, e.id, "integration failed", now), phase := Idle)
      else w.(phase := Idle)
  }

  /** A Git or store call throws: everything up to the settlement leads to the failure transaction. */
  function AfterThrow(w: World): World {
    if w.phase.Idle? || w.phase.Failing? || w.phase.Requeuing? || w.phase.Reclaiming? then w
    else w.(phase := Failing(w.phase.e, false))
  }

  // --- The steps of recoverAbandoned ---

  /** classifyAbandoned for one entry that is integrating. */
  function AfterRecover(w: World, id: string): World {
    var i := Q.IntegratingWithId(w.queue, id);
    if !w.phase.Idle? || i == |w.queue| then w
    else
      var e, head := w.queue[i], w.repo.head;
      w.(phase := if !IsAncestor(w.repo.graph, e.request.taskRevision, head) then
                    if BranchExists(w, e) then Requeuing(e) else Idle
                  else Recovered(e, head, HasPassed(w.events, e.request.attemptId, head)))
  }

  function AfterLoadRecovered(w: World, ok: bool): World {
    if !w.phase.Recovered? then w
    else
      var e := w.phase.e;
      w.(phase := if ok && e.request.taskId in w.tasks then
                    Integrated(e, e.request.taskRevision, w.phase.revision, true, w.phase.verified,
                               w.tasks[e.request.taskId] == Integrating)
                  else Failing(e, false))
  }

  function AfterRequeue(w: World): World {
    if w.phase.Requeuing? then w.(queue := Q.Requeued(w.queue, w.phase.e.id), phase := Reclaiming(w.phase.e)) else w
  }

  function AfterReclaim(w: World, now: int): World {
    if !w.phase.Reclaiming? then w
    else
      var next := Q.NextToClaim(w.queue);
      w.(queue := Q.Claimed(w.queue, now),
         phase := if next.Some? && w.queue[next.value].id == w.phase.e.id then Claimed(Q.Started(w.queue[next.value], now))
                  else Idle)
  }

  function After(w: World, action: Action): World {
    match action
    case OthersCommit(sha) => AfterOthersCommit(w, sha)
    case Prepare(name, attemptId, base, changes, shas) => AfterPrepare(w, name, attemptId, base, changes, shas)
    case DeleteBranch(name) => w.(repo := w.repo.(branches := w.repo.branches - {name}))
    case RecoveryMerge(name) => AfterRecoveryMerge(w, name)
    case Enqueue(id, request) => AfterEnqueue(w, id, request)
    case SetTaskStatus(taskId, status) => w.(tasks := w.tasks[taskId := status])
    case Crash => w.(phase := Idle)
    case Throw => AfterThrow(w)
    case ClaimNext(now) => AfterClaimNext(w, now)
    case Check(ok) => AfterCheck(w, ok)
    case EvaluateDrift => AfterEvaluateDrift(w)
    case Rebase(result) => AfterRebase(w, result)
    case Examine => AfterExamine(w)
    case VerifyReconciled(outcome) => AfterVerifyReconciled(w, outcome)
    case Merge(ok) => AfterMerge(w, ok)
    case ReadHead => AfterReadHead(w)
    case Announce => AfterAnnounce(w)
    case VerifyIntegrated(outcome) => AfterVerifyIntegrated(w, outcome)
    case SettleSuccess(now) => AfterSettleSuccess(w, now)
    case SettleFailure(commits, now) => AfterSettleFailure(w, commits, now)
    case Recover(id) => AfterRecover(w, id)
    case LoadRecovered(ok) => AfterLoadRecovered(w, ok)
    case Requeue => AfterRequeue(w)
    case Reclaim(now) => AfterReclaim(w, now)
  }

  /** A run from an empty queue and a history without task patches; head is its only commit. */
  ghost predicate IsRun(run: seq<World>, actions: seq<Action>) {
    && |run| == |actions| + 1
    && run[0].queue == [] && run[0].events == [] && run[0].phase == Idle && run[0].tips == {} && run[0].owners == map[]
    && run[0].repo.branches == map[] && run[0].repo.graph == map[run[0].repo.head := Commit({}, 0, None)]
    && forall i :: 0 <= i < |actions| ==> run[i + 1] == After(run[i], actions[i])
  }
}
