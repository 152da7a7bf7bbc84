/**
 * One workflow execution and its bounded review loops (packages/orchestrator/src/workflow-executor.ts,
 * review-fix-loop.ts, workflow-failures.ts and packages/core/src/domain/review-cycle-policy.ts).
 */
module WorkflowExecutor {
  import opened Options
  import opened Text
  import opened TaskStates
  import W = WorkflowDefinition
  import opened StageRunIds

  datatype CycleOutcome = Passed | FixAllowed | LimitExhausted | Inconsistent

  /** evaluateReviewCycle. */
  function EvaluateReviewCycle(approved: bool, completed: int, limit: int): (r: CycleOutcome)
    ensures r != Inconsistent <==> 0 <= completed <= limit && limit > 0
    ensures r == FixAllowed <==> !approved && 0 <= completed < limit
    ensures r == Passed ==> approved
  {
    if limit < 1 || completed < 0 || completed > limit then Inconsistent
    else if approved then Passed
    else if completed >= limit then LimitExhausted
    else FixAllowed
  }

  /** How a stage run of an agent ends. */
  datatype StageResult = Succeeded | StageFailed | StageTimedOut | StageCancelled

  /** A completed review carries its decision. */
  datatype ReviewResult = Reviewed(approved: bool) | NotReviewed(end: StageResult)

  datatype CheckResult = ChecksPassed | ChecksFailed | ChecksCancelled | ChecksNotRun

  datatype FailureKind = Error | Timeout | WasCancelled | VerificationFailed | ReviewExhausted

  /** What agents, Git, checks and the store answer; `throws(n)` tells whether the n-th call throws. */
  datatype Outside = Outside(
    throws: nat -> bool, canStart: bool,
    planWork: nat -> StageResult, planReview: nat -> ReviewResult,
    codeWork: nat -> StageResult, codeReview: nat -> ReviewResult,
    worktreeClean: bool, inScope: bool, verification: CheckResult, revision: string, integrationVerification: CheckResult)

  datatype LoopOutcome = Approved(cycles: nat) | Exhausted(cycles: nat) | Broken(kind: FailureKind)

  datatype Attempted = Integrated(revision: string) | Queued | Broke(kind: FailureKind)

  datatype Outcome =
    | Rejected
    | Completed(revision: string)
    | PendingIntegration
    | FailedRun
    | CancelledRun
    | BlockedRun
    | Threw

  datatype Event = IntegrationVerified(attemptId: string, revision: string, passed: bool)

  /** terminalStageFailure: the kind of failure that the last stage run of a broken loop stands for. */
  function FailureOf(end: StageResult): FailureKind {
    match end
    case StageTimedOut => Timeout
    case StageCancelled => WasCancelled
    case _ => Error
  }

  /** resolveWorkflowFailure: the status that a failed execution leaves the task in. */
  function ResolvedStatus(kind: FailureKind): TaskStatus {
    match kind
    case WasCancelled => Cancelled
    case ReviewExhausted => Blocked
    case _ => Failed
  }

  function ResolvedOutcome(kind: FailureKind): Outcome {
    match kind
    case WasCancelled => CancelledRun
    case ReviewExhausted => BlockedRun
    case _ => FailedRun
  }

  /** What an outcome says about the status of the task; one that threw says nothing. */
  predicate OutcomeFits(before: TaskStatus, outcome: Outcome, status: TaskStatus) {
    match outcome
    case Rejected => status == before
    case Completed(_) => status == Done
    case PendingIntegration => status == Integrating
    case FailedRun => status == Failed
    case CancelledRun => status == Cancelled
    case BlockedRun => status == Blocked
    case Threw => true
  }

  /** Every move of the history is an edge of the transition table. */
  ghost predicate Legal(history: seq<TaskStatus>) {
    history != [] && forall i :: 0 < i < |history| ==> CanTransition(history[i - 1], history[i])
  }

  /** The statuses of a running execution; from each of them it may fail, be cancelled or be blocked. */
  predicate IsRunning(s: TaskStatus) {
    s == Ready || IsActive(s)
  }

  lemma RunningMayFail(s: TaskStatus, kind: FailureKind)
    requires IsRunning(s)
    ensures CanTransition(s, ResolvedStatus(kind))
  {
  }

  /** The history goes on from an earlier one. */
  ghost predicate Continues(before: seq<TaskStatus>, history: seq<TaskStatus>) {
    |before| <= |history| && history[..|before|] == before
  }

  lemma ContinuesItself(history: seq<TaskStatus>)
    ensures Continues(history, history)
  {
  }

  lemma ContinuesOn(a: seq<TaskStatus>, b: seq<TaskStatus>, c: seq<TaskStatus>)
    requires Continues(a, b) && Continues(b, c)
    ensures Continues(a, c)
  {
    assert c[..|a|] == c[..|b|][..|a|];
  }

  /** The stage and cycle of a stage run. */
  datatype Run = Run(stage: W.Stage, cycle: nat)

  ghost predicate DistinctRuns(runs: seq<Run>) {
    && (forall i :: 0 <= i < |runs| ==> runs[i].cycle >= 1)
    && (forall i, j :: 0 <= i < j < |runs| ==> runs[i] != runs[j])
  }

  ghost predicate WithinLimit(runs: seq<Run>, limit: int) {
    forall i :: 0 <= i < |runs| ==> runs[i].cycle == 1 || runs[i].cycle <= limit
  }

  /** The identities of these stages are unused from this cycle on. */
  ghost predicate Unused(runs: seq<Run>, work: W.Stage, review: W.Stage, cycle: nat) {
    forall i :: 0 <= i < |runs| && (runs[i].stage == work || runs[i].stage == review) ==> runs[i].cycle < cycle
  }

  /** A loop has started runs of its two stages only, within the limit. */
  ghost predicate Started(before: seq<Run>, runs: seq<Run>, work: W.Stage, review: W.Stage, limit: int) {
    && |before| <= |runs| && runs[..|before|] == before
    && forall i :: |before| <= i < |runs| ==> (runs[i].stage == work || runs[i].stage == review) && runs[i].cycle <= limit
  }

  /** The runs after one more cycle. */
  ghost predicate AfterCycle(runs: seq<Run>, next: seq<Run>, work: W.Stage, review: W.Stage, cycle: nat) {
    next == runs || next == runs + [Run(work, cycle)] || next == runs + [Run(work, cycle), Run(review, cycle)]
  }

  /** The runs of the first k cycles of a loop, both stages of each. */
  function CycleRuns(work: W.Stage, review: W.Stage, k: nat): seq<Run> {
    if k == 0 then [] else CycleRuns(work, review, k - 1) + [Run(work, k), Run(review, k)]
  }

  lemma {:induction false} FirstCycleRuns(work: W.Stage, review: W.Stage, k: nat)
    requires k >= 1
    ensures Run(work, 1) in CycleRuns(work, review, k) && Run(review, 1) in CycleRuns(work, review, k)
  {
    if k > 1 {
      FirstCycleRuns(work, review, k - 1);
    }
  }

  lemma StartedRuns(before: seq<Run>, runs: seq<Run>, work: W.Stage, review: W.Stage, limit: int)
    requires Started(before, runs, work, review, limit)
    ensures forall run :: run in before ==> run in runs
  {
    assert forall i :: 0 <= i < |before| ==> runs[i] == runs[..|before|][i];
  }

  lemma OneMoreStage(runs: seq<Run>, mid: seq<Run>, next: seq<Run>, work: W.Stage, review: W.Stage, cycle: nat)
    ensures mid == runs || mid == runs + [Run(work, cycle)] ==> AfterCycle(runs, mid, work, review, cycle)
    ensures mid == runs + [Run(work, cycle)] && (next == mid || next == mid + [Run(review, cycle)]) ==>
              AfterCycle(runs, next, work, review, cycle)
  {
    assert runs + [Run(work, cycle)] + [Run(review, cycle)] == runs + [Run(work, cycle), Run(review, cycle)];
  }

  lemma OneMoreCycle(before: seq<Run>, runs: seq<Run>, next: seq<Run>, work: W.Stage, review: W.Stage, cycle: nat, limit: int)
    requires Started(before, runs, work, review, limit) && Unused(runs, work, review, cycle) && cycle <= limit
    requires AfterCycle(runs, next, work, review, cycle)
    ensures Started(before, next, work, review, limit) && Unused(next, work, review, cycle + 1)
  {
    assert runs <= next;
    assert next[..|before|] == runs[..|before|];
  }

  lemma UnusedNames(runs: seq<Run>, work: W.Stage, review: W.Stage, cycle: nat)
    requires work != review && Unused(runs, work, review, cycle)
    ensures Run(work, cycle) !in runs && Run(review, cycle) !in runs + [Run(work, cycle)]
  {
  }

  /** Every stage run of an execution has an identity of its own. */
  lemma RunsHaveDistinctIds(attemptId: string, runs: seq<Run>, i: nat, j: nat)
    requires DistinctRuns(runs) && i < j < |runs|
    ensures StageRunId(attemptId, runs[i].stage, runs[i].cycle) != StageRunId(attemptId, runs[j].stage, runs[j].cycle)
  {
    IdsAreDistinct(attemptId, runs[i].stage, runs[j].stage, runs[i].cycle, runs[j].cycle);
  }

  function CountOf(runs: seq<Run>, stage: W.Stage): nat {
    if runs == [] then 0 else (if runs[0].stage == stage then 1 else 0) + CountOf(runs[1..], stage)
  }

  function CyclesOf(runs: seq<Run>, stage: W.Stage): (cycles: set<nat>)
    ensures forall c :: c in cycles ==> Run(stage, c) in runs
  {
    if runs == [] then {}
    else
      assert runs == [runs[0]] + runs[1..];
      (if runs[0].stage == stage then {runs[0].cycle} else {}) + CyclesOf(runs[1..], stage)
  }

  lemma {:induction false} EachCycleOnce(runs: seq<Run>, stage: W.Stage)
    requires DistinctRuns(runs)
    ensures CountOf(runs, stage) == |CyclesOf(runs, stage)|
  {
    if runs != [] {
      RestIsDistinct(runs);
      hide DistinctRuns;
      var rest := runs[1..];
      EachCycleOnce(rest, stage);
      assert runs[0].stage == stage ==> runs[0].cycle !in CyclesOf(rest, stage);
    }
  }

  lemma RestIsDistinct(runs: seq<Run>)
    requires DistinctRuns(runs) && runs != []
    ensures DistinctRuns(runs[1..]) && runs[0] !in runs[1..]
  {
  }

  lemma {:induction false} SmallCycles(cycles: set<nat>, limit: nat)
    requires forall c :: c in cycles ==> 1 <= c <= limit
    ensures |cycles| <= limit
  {
    if limit == 0 {
      assert cycles == {};
    } else {
      SmallCycles(cycles - {limit}, limit - 1);
      if limit in cycles {
        assert |cycles| == |cycles - {limit}| + 1;
      } else {
        assert cycles - {limit} == cycles;
      }
    }
  }

  /** An execution runs every stage at most maxReviewCycles times. */
  lemma StageRunsAreBounded(runs: seq<Run>, stage: W.Stage, limit: int)
    requires DistinctRuns(runs) && WithinLimit(runs, limit)
    ensures CountOf(runs, stage) <= if limit < 1 then 1 else limit
  {
    EachCycleOnce(runs, stage);
    forall c | c in CyclesOf(runs, stage) ensures 1 <= c <= if limit < 1 then 1 else limit {
      assert Run(stage, c) in runs;
    }
    SmallCycles(CyclesOf(runs, stage), if limit < 1 then 1 else limit);
  }

  /** What a review leads to; None for another cycle. */
  function AfterReview(review: ReviewResult, cycle: nat, limit: int): (outcome: Option<LoopOutcome>)
    requires 1 <= cycle <= limit
    ensures outcome.None? <==> review == Reviewed(false) && cycle < limit
    ensures outcome == Some(Approved(cycle)) <==> review == Reviewed(true)
    ensures outcome == Some(Exhausted(cycle)) <==> review == Reviewed(false) && cycle == limit
    ensures outcome.Some? && !outcome.value.Broken? ==> outcome.value.cycles == cycle
    ensures review.NotReviewed? ==> outcome == Some(Broken(FailureOf(review.end)))
  {
    match review
    case NotReviewed(end) => Some(Broken(FailureOf(end)))
    case Reviewed(approved) =>
      var evaluation := EvaluateReviewCycle(approved, cycle, limit);
      if evaluation == Passed then Some(Approved(cycle))
      else if evaluation == LimitExhausted then Some(Exhausted(cycle))
      else assert evaluation == FixAllowed; None
  }

  lemma StartedStages(before: seq<Run>, runs: seq<Run>, work: W.Stage, review: W.Stage, limit: int)
    requires Started(before, runs, work, review, limit)
    ensures forall i :: 0 <= i < |runs| ==> (i < |before| && runs[i] == before[i]) || runs[i].stage == work || runs[i].stage == review
  {
    assert forall i :: 0 <= i < |before| ==> runs[i] == runs[..|before|][i];
  }

  // --- How an execution ends when nothing throws, from the answers alone ---

  /** Every cycle before k was worked out and sent back. */
  ghost predicate SentBack(work: nat -> StageResult, review: nat -> ReviewResult, k: nat) {
    forall c :: 1 <= c < k ==> work(c) == Succeeded && review(c) == Reviewed(false)
  }

  predicate StageBreaks(work: StageResult, review: ReviewResult, kind: FailureKind) {
    if work != Succeeded then kind == FailureOf(work) else review.NotReviewed? && kind == FailureOf(review.end)
  }

  ghost predicate BreaksAt(work: nat -> StageResult, review: nat -> ReviewResult, limit: int, kind: FailureKind, k: nat) {
    1 <= k <= limit && SentBack(work, review, k) && StageBreaks(work(k), review(k), kind)
  }

  /** How a loop ends: with the first approval, when the limit is used up, or with the first stage that breaks. */
  ghost predicate LoopEndsAs(work: nat -> StageResult, review: nat -> ReviewResult, limit: int, outcome: LoopOutcome) {
    match outcome
    case Approved(k) => 1 <= k <= limit && SentBack(work, review, k) && work(k) == Succeeded && review(k) == Reviewed(true)
    case Exhausted(k) => 1 <= k == limit && SentBack(work, review, k + 1)
    case Broken(kind) => if limit < 1 then kind == Error else exists k: nat :: BreaksAt(work, review, limit, kind, k)
  }

  /** A loop has one end only. */
  lemma LoopEndsOnce(work: nat -> StageResult, review: nat -> ReviewResult, limit: int, a: LoopOutcome, b: LoopOutcome)
    requires LoopEndsAs(work, review, limit, a) && LoopEndsAs(work, review, limit, b)
    ensures a == b
  {
    if limit >= 1 {
      var j := LastCycle(work, review, limit, a);
      var k := LastCycle(work, review, limit, b);
      assert j == k;
    }
  }

  /** The cycle that a loop ends in: the first that is not sent back, or the last of all. */
  lemma LastCycle(work: nat -> StageResult, review: nat -> ReviewResult, limit: int, outcome: LoopOutcome) returns (k: nat)
    requires limit >= 1 && LoopEndsAs(work, review, limit, outcome)
    ensures 1 <= k <= limit && SentBack(work, review, k)
    ensures outcome.Exhausted? ==> k == limit && outcome.cycles == k && work(k) == Succeeded && review(k) == Reviewed(false)
    ensures outcome.Approved? ==> outcome.cycles == k && work(k) == Succeeded && review(k) == Reviewed(true)
    ensures outcome.Broken? ==> StageBreaks(work(k), review(k), outcome.kind)
  {
    match outcome
    case Approved(c) => k := c;
    case Exhausted(c) => k := c;
    case Broken(kind) => k :| BreaksAt(work, review, limit, kind, k);
  }

  function KindOfLoop(outcome: LoopOutcome): Option<FailureKind> {
    match outcome
    case Approved(_) => None
    case Exhausted(_) => Some(ReviewExhausted)
    case Broken(kind) => Some(kind)
  }

  function KindOfStage(result: StageResult): Option<FailureKind> {
    if result == Succeeded then None else Some(FailureOf(result))
  }

  /** A stage family ends in a failure, or passes: with a review loop, with a single stage, or as there is none. */
  ghost predicate FamilyEndsAs(stages: seq<W.Stage>, stage: W.Stage, review: W.Stage, work: nat -> StageResult, reviews: nat -> ReviewResult,
                               limit: int, end: Option<FailureKind>) {
    if review in stages then exists o :: LoopEndsAs(work, reviews, limit, o) && end == KindOfLoop(o)
    else if stage in stages then end == KindOfStage(work(1))
    else end == None
  }

  /** Worktree, scope and verification. */
  function ChangeEnd(o: Outside): Option<FailureKind> {
    if o.worktreeClean || !o.inScope then Some(Error)
    else match o.verification
      case ChecksPassed => None
      case ChecksFailed => Some(VerificationFailed)
      case ChecksCancelled => Some(WasCancelled)
      case ChecksNotRun => Some(Error)
  }

  function IntegrationEnd(o: Outside): Option<FailureKind> {
    match o.integrationVerification
    case ChecksPassed => None
    case ChecksFailed => Some(VerificationFailed)
    case ChecksCancelled => Some(WasCancelled)
    case ChecksNotRun => Some(VerificationFailed)
  }

  ghost predicate PlanEndsAs(stages: seq<W.Stage>, limit: int, o: Outside, end: Option<FailureKind>) {
    FamilyEndsAs(stages, W.Plan, W.PlanReview, o.planWork, o.planReview, limit, end)
  }

  ghost predicate CodeEndsAs(stages: seq<W.Stage>, limit: int, o: Outside, end: Option<FailureKind>) {
    FamilyEndsAs(stages, W.Implement, W.CodeReview, o.codeWork, o.codeReview, limit, end)
  }

  /** The end of the agent stages. */
  ghost predicate AgentsEndAs(stages: seq<W.Stage>, limit: int, o: Outside, end: Option<FailureKind>) {
    exists plan, code :: PlanEndsAs(stages, limit, o, plan) && CodeEndsAs(stages, limit, o, code) && end == if plan.Some? then plan else code
  }

  /** The first failure on the way from the plan to the verified integration; None when there is none. */
  ghost predicate EndsAs(stages: seq<W.Stage>, limit: int, queued: bool, o: Outside, end: Option<FailureKind>) {
    exists agents :: AgentsEndAs(stages, limit, o, agents) && end == FirstFailure(agents, ChangeEnd(o), if queued then None else IntegrationEnd(o))
  }

  lemma PlanDecides(stages: seq<W.Stage>, limit: int, o: Outside, plan: Option<FailureKind>)
    requires PlanEndsAs(stages, limit, o, plan) && plan.Some?
    ensures AgentsEndAs(stages, limit, o, plan)
  {
    var code := FamilyEnds(stages, W.Implement, W.CodeReview, o.codeWork, o.codeReview, limit);
    hide FamilyEndsAs;
    assert CodeEndsAs(stages, limit, o, code);
  }

  lemma CodeDecides(stages: seq<W.Stage>, limit: int, o: Outside, code: Option<FailureKind>)
    requires PlanEndsAs(stages, limit, o, None) && CodeEndsAs(stages, limit, o, code)
    ensures AgentsEndAs(stages, limit, o, code)
  {
    hide PlanEndsAs, CodeEndsAs;
  }

  /** Every loop ends in some way. */
  lemma {:induction false} LoopEnds(work: nat -> StageResult, review: nat -> ReviewResult, limit: int, k: nat) returns (outcome: LoopOutcome)
    requires limit < 1 || (1 <= k <= limit && SentBack(work, review, k))
    ensures LoopEndsAs(work, review, limit, outcome)
    decreases limit - k
  {
    if limit < 1 {
      outcome := Broken(Error);
    } else if work(k) != Succeeded {
      outcome := Broken(FailureOf(work(k)));
      assert BreaksAt(work, review, limit, FailureOf(work(k)), k);
    } else if review(k).NotReviewed? {
      outcome := Broken(FailureOf(review(k).end));
      assert BreaksAt(work, review, limit, FailureOf(review(k).end), k);
    } else if review(k).approved {
      outcome := Approved(k);
    } else if k == limit {
      outcome := Exhausted(k);
    } else {
      outcome := LoopEnds(work, review, limit, k + 1);
    }
  }

  lemma FamilyEnds(stages: seq<W.Stage>, stage: W.Stage, review: W.Stage, work: nat -> StageResult, reviews: nat -> ReviewResult, limit: int)
    returns (end: Option<FailureKind>)
    ensures FamilyEndsAs(stages, stage, review, work, reviews, limit, end)
  {
    if review in stages {
      var o := LoopEnds(work, reviews, limit, 1);
      end := KindOfLoop(o);
    } else {
      end := if stage in stages then KindOfStage(work(1)) else None;
    }
  }

  lemma FamilyEndsOnce(stages: seq<W.Stage>, stage: W.Stage, review: W.Stage, work: nat -> StageResult, reviews: nat -> ReviewResult,
                       limit: int, a: Option<FailureKind>, b: Option<FailureKind>)
    requires FamilyEndsAs(stages, stage, review, work, reviews, limit, a) && FamilyEndsAs(stages, stage, review, work, reviews, limit, b)
    ensures a == b
  {
    if review in stages {
      var x :| LoopEndsAs(work, reviews, limit, x) && a == KindOfLoop(x);
      var y :| LoopEndsAs(work, reviews, limit, y) && b == KindOfLoop(y);
      LoopEndsOnce(work, reviews, limit, x, y);
    }
  }

  lemma AgentsEndOnce(stages: seq<W.Stage>, limit: int, o: Outside, a: Option<FailureKind>, b: Option<FailureKind>)
    requires AgentsEndAs(stages, limit, o, a) && AgentsEndAs(stages, limit, o, b)
    ensures a == b
  {
    hide FamilyEndsAs;
    var p, c :| PlanEndsAs(stages, limit, o, p) && CodeEndsAs(stages, limit, o, c) && a == if p.Some? then p else c;
    var q, d :| PlanEndsAs(stages, limit, o, q) && CodeEndsAs(stages, limit, o, d) && b == if q.Some? then q else d;
    FamilyEndsOnce(stages, W.Plan, W.PlanReview, o.planWork, o.planReview, limit, p, q);
    FamilyEndsOnce(stages, W.Implement, W.CodeReview, o.codeWork, o.codeReview, limit, c, d);
  }

  /** The answers allow one end of an execution only. */
  lemma EndsOnce(stages: seq<W.Stage>, limit: int, queued: bool, o: Outside, a: Option<FailureKind>, b: Option<FailureKind>)
    requires EndsAs(stages, limit, queued, o, a) && EndsAs(stages, limit, queued, o, b)
    ensures a == b
  {
    hide AgentsEndAs, FirstFailure, ChangeEnd, IntegrationEnd;
    var x :| AgentsEndAs(stages, limit, o, x) && a == FirstFailure(x, ChangeEnd(o), if queued then None else IntegrationEnd(o));
    var y :| AgentsEndAs(stages, limit, o, y) && b == FirstFailure(y, ChangeEnd(o), if queued then None else IntegrationEnd(o));
    AgentsEndOnce(stages, limit, o, x, y);
  }

  /** The outcome that goes with the end of an execution. */
  function OutcomeFor(end: Option<FailureKind>, queued: bool, revision: string): Outcome {
    if end.Some? then ResolvedOutcome(end.value) else if queued then PendingIntegration else Completed(revision)
  }

  function FirstFailure(a: Option<FailureKind>, b: Option<FailureKind>, c: Option<FailureKind>): Option<FailureKind> {
    if a.Some? then a else if b.Some? then b else c
  }

  /** Some review within the limit approved, after changes had been required by every earlier one. */
  ghost predicate ReviewPassed(reviews: nat -> ReviewResult, limit: int) {
    exists c: nat :: 1 <= c <= limit && reviews(c) == Reviewed(true) && forall k :: 1 <= k < c ==> reviews(k) == Reviewed(false)
  }

  /** An executable workflow begins with a plan or with the implementation, and has a plan only at the beginning. */
  lemma FirstStage(stages: seq<W.Stage>)
    requires W.IsSubsequence(stages, W.LIFECYCLE) && W.Implement in stages && (W.PlanReview in stages ==> W.Plan in stages)
    ensures stages != [] && (stages[0] == W.Plan || stages[0] == W.Implement)
    ensures W.Plan in stages <==> stages[0] == W.Plan
  {
    assert W.LIFECYCLE[0..] == W.LIFECYCLE;
    W.SubsequenceIsAscending(stages, 0);
  }

  /** A workflow that the validation and the executor's own checks accept. */
  ghost predicate Executable(stages: seq<W.Stage>) {
    && W.IsSubsequence(stages, W.LIFECYCLE) && (forall s :: s in W.BACKBONE ==> s in stages)
    && (W.PlanReview in stages ==> W.Plan in stages)
  }

  lemma BeginsWell(stages: seq<W.Stage>, limit: int, o: Outside)
    requires Executable(stages)
    ensures stages != [] && (stages[0] == W.Plan || stages[0] == W.Implement) && W.Implement in stages
    ensures W.Plan in stages <==> stages[0] == W.Plan
    ensures W.Plan !in stages ==> W.PlanReview !in stages && PlanEndsAs(stages, limit, o, None)
  {
    assert W.Implement in W.BACKBONE;
    FirstStage(stages);
  }

  /** Every agent stage of the workflow has been run. */
  ghost predicate AgentStagesRan(stages: seq<W.Stage>, runs: seq<Run>) {
    forall s :: s in stages && s != W.Verify && s != W.Integrate ==> Run(s, 1) in runs
  }

  lemma FourAgentStages(stages: seq<W.Stage>, runs: seq<Run>)
    requires forall s :: s in [W.Plan, W.PlanReview, W.Implement, W.CodeReview] && s in stages ==> Run(s, 1) in runs
    ensures AgentStagesRan(stages, runs)
  {
    assert forall s: W.Stage :: s.Plan? || s.PlanReview? || s.Implement? || s.CodeReview? || s.Verify? || s.Integrate?;
  }

  /** Every stage of the workflow has been run. */
  ghost predicate AllRun(stages: seq<W.Stage>, runs: seq<Run>) {
    forall s :: s in stages ==> Run(s, 1) in runs
  }

  class Executor {
    const attemptId: string
    const workflowId: string
    const stages: seq<W.Stage>
    const maxReviewCycles: int
    const queued: bool
    const outside: Outside
    var status: TaskStatus
    var runs: seq<Run>
    var events: seq<Event>
    var calls: nat
    ghost var history: seq<TaskStatus>

    ghost predicate Valid()
      reads this
    {
      Legal(history) && history[|history| - 1] == status && DistinctRuns(runs) && WithinLimit(runs, maxReviewCycles)
    }

    constructor (attemptId: string, workflowId: string, stages: seq<W.Stage>, maxReviewCycles: int, queued: bool, outside: Outside, status: TaskStatus)
      ensures Valid() && this.status == status && runs == [] && events == [] && history == [status]
      ensures this.attemptId == attemptId && this.workflowId == workflowId && this.stages == stages
      ensures this.maxReviewCycles == maxReviewCycles && this.queued == queued && this.outside == outside
    {
      this.attemptId, this.workflowId, this.stages := attemptId, workflowId, stages;
      this.maxReviewCycles, this.queued, this.outside := maxReviewCycles, queued, outside;
      this.status, runs, events, calls := status, [], [], 0;
      history := [status];
    }

    /** No store or Git call throws. */
    ghost predicate Quiet() {
      forall n :: !outside.throws(n)
    }

    /** A store or Git call that has no other effect here. */
    method Call() returns (threw: bool)
      modifies `calls
      ensures Quiet() ==> !threw
    {
      threw := outside.throws(calls);
      calls := calls + 1;
    }

    /** transitionTask: the transition table allows the move, so that its assertion never throws. */
    method TransitionTask(to: TaskStatus) returns (threw: bool)
      requires Valid() && CanTransition(status, to)
      modifies `calls, `status, `history
      ensures Valid()
      ensures if threw then status == old(status) && history == old(history) else status == to && history == old(history) + [to]
      ensures Continues(old(history), history)
      ensures Quiet() ==> !threw
    {
      threw := Call();
      if !threw {
        status := to;
        history := history + [to];
      }
    }

    method TransitionToStageStatus(to: TaskStatus) returns (threw: bool)
      requires Valid() && (status == to || CanTransition(status, to))
      modifies `calls, `status, `history
      ensures Valid() && Continues(old(history), history)
      ensures if threw then status == old(status) else status == to
      ensures Quiet() ==> !threw
    {
      if status == to {
        return false;
      }
      threw := TransitionTask(to);
    }

    /** Starts the stage run of a cycle; its identity has not been used. */
    method StartRun(stage: W.Stage, cycle: nat) returns (threw: bool)
      requires Valid() && cycle >= 1 && Run(stage, cycle) !in runs && (cycle == 1 || cycle <= maxReviewCycles)
      modifies `calls, `runs
      ensures Valid()
      ensures runs == if threw then old(runs) else old(runs) + [Run(stage, cycle)]
      ensures Quiet() ==> !threw
    {
      threw := Call();
      if !threw {
        runs := runs + [Run(stage, cycle)];
      }
    }

    /** The status hook of a stage, and its stage run. */
    method RunStage(stage: W.Stage, stageStatus: TaskStatus, cycle: nat) returns (threw: bool)
      requires Valid() && IsRunning(status) && IsActive(stageStatus) && (status == stageStatus || CanTransition(status, stageStatus))
      requires 1 <= cycle && (cycle == 1 || cycle <= maxReviewCycles) && Run(stage, cycle) !in runs
      modifies `calls, `status, `history, `runs
      ensures Valid() && IsRunning(status) && Continues(old(history), history)
      ensures runs == old(runs) || runs == old(runs) + [Run(stage, cycle)]
      ensures !threw ==> status == stageStatus && runs == old(runs) + [Run(stage, cycle)]
      ensures Quiet() ==> !threw
    {
      hide Legal, DistinctRuns, WithinLimit, CanTransition, IsActive;
      threw := TransitionToStageStatus(stageStatus);
      if !threw {
        threw := StartRun(stage, cycle);
      }
    }

    /** The body of the loop: one work stage and one review. */
    method RunCycle(work: W.Stage, review: W.Stage, workStatus: TaskStatus, reviewStatus: TaskStatus,
                    workResult: StageResult, reviewResult: ReviewResult, cycle: nat)
      returns (outcome: Option<LoopOutcome>)
      requires Valid() && (status == workStatus || CanTransition(status, workStatus)) && IsRunning(status)
      requires IsActive(workStatus) && IsActive(reviewStatus) && CanTransition(workStatus, reviewStatus)
      requires work != review && 1 <= cycle <= maxReviewCycles && Unused(runs, work, review, cycle)
      modifies `calls, `status, `history, `runs
      ensures Valid() && IsRunning(status) && Continues(old(history), history)
      ensures AfterCycle(old(runs), runs, work, review, cycle)
      ensures outcome.None? || !outcome.value.Broken? ==>
                workResult == Succeeded && runs == old(runs) + [Run(work, cycle), Run(review, cycle)]
      ensures outcome.None? ==> status == reviewStatus && reviewResult == Reviewed(false) && cycle < maxReviewCycles
      ensures outcome.Some? && !outcome.value.Broken? ==>
                status == reviewStatus && reviewResult.Reviewed? && outcome.value.cycles == cycle
                && outcome.value.Approved? == reviewResult.approved && (outcome.value.Exhausted? ==> cycle == maxReviewCycles)
      ensures Quiet() && outcome.Some? && outcome.value.Broken? ==> StageBreaks(workResult, reviewResult, outcome.value.kind)
    {
      hide Valid, CanTransition, IsActive, IsRunning, Continues, FailureOf, Unused, AfterReview, AfterCycle;
      UnusedNames(runs, work, review, cycle);
      var threw := RunStage(work, workStatus, cycle);
      ghost var midway, mid := history, runs;
      OneMoreStage(old(runs), mid, mid, work, review, cycle);
      if threw { return Some(Broken(Error)); }
      if workResult != Succeeded {
        return Some(Broken(FailureOf(workResult)));
      }
      threw := RunStage(review, reviewStatus, cycle);
      ContinuesOn(old(history), midway, history);
      OneMoreStage(old(runs), mid, runs, work, review, cycle);
      if threw { return Some(Broken(Error)); }
      return AfterReview(reviewResult, cycle, maxReviewCycles);
    }

    /** runReviewFixLoop. */
    method RunReviewFixLoop(work: W.Stage, review: W.Stage, workStatus: TaskStatus, reviewStatus: TaskStatus,
                            workResult: nat -> StageResult, reviewResult: nat -> ReviewResult)
      returns (outcome: LoopOutcome)
      requires Valid() && IsRunning(status) && (status == workStatus || CanTransition(status, workStatus))
      requires IsActive(workStatus) && IsActive(reviewStatus) && CanTransition(workStatus, reviewStatus) && CanTransition(reviewStatus, workStatus)
      requires work != review && Unused(runs, work, review, 1)
      modifies `calls, `status, `history, `runs
      ensures Valid() && IsRunning(status) && Continues(old(history), history)
      ensures Started(old(runs), runs, work, review, maxReviewCycles)
      ensures outcome.Approved? ==> status == reviewStatus && 1 <= outcome.cycles <= maxReviewCycles && reviewResult(outcome.cycles) == Reviewed(true)
      ensures outcome.Approved? ==> forall c :: 1 <= c < outcome.cycles ==> reviewResult(c) == Reviewed(false)
      ensures outcome.Approved? ==>
                runs == old(runs) + CycleRuns(work, review, outcome.cycles) && forall c :: 1 <= c <= outcome.cycles ==> workResult(c) == Succeeded
      ensures outcome.Exhausted? ==> outcome.cycles == maxReviewCycles && forall c :: 1 <= c <= maxReviewCycles ==> reviewResult(c) == Reviewed(false)
      ensures Quiet() ==> LoopEndsAs(workResult, reviewResult, maxReviewCycles, outcome)
    {
      hide Valid, CanTransition, IsActive, IsRunning, Unused, AfterCycle;
      assert Started(old(runs), runs, work, review, maxReviewCycles) && Continues(old(history), history);
      hide Started, Continues;
      if maxReviewCycles < 1 {
        return Broken(Error);
      }
      for cycle := 1 to maxReviewCycles + 1
        invariant Valid() && IsRunning(status) && Continues(old(history), history)
        invariant status == workStatus || CanTransition(status, workStatus)
        invariant Started(old(runs), runs, work, review, maxReviewCycles) && Unused(runs, work, review, cycle)
        invariant forall c :: 1 <= c < cycle ==> reviewResult(c) == Reviewed(false) && workResult(c) == Succeeded
        invariant runs == old(runs) + CycleRuns(work, review, cycle - 1)
      {
        ghost var earlier, soFar := runs, history;
        var done := RunCycle(work, review, workStatus, reviewStatus, workResult(cycle), reviewResult(cycle), cycle);
        ContinuesOn(old(history), soFar, history);
        OneMoreCycle(old(runs), earlier, runs, work, review, cycle, maxReviewCycles);
        ghost var pair := [Run(work, cycle), Run(review, cycle)];
        assert old(runs) + CycleRuns(work, review, cycle - 1) + pair == old(runs) + (CycleRuns(work, review, cycle - 1) + pair);
        if done.Some? {
          assert Quiet() && done.value.Broken? ==> BreaksAt(workResult, reviewResult, maxReviewCycles, done.value.kind, cycle);
          return done.value;
        }
      }
      return Exhausted(maxReviewCycles);
    }

    /** A single agent stage without a review. */
    method RunSingleStage(stage: W.Stage, result: StageResult) returns (broken: Option<FailureKind>)
      requires Valid() && Run(stage, 1) !in runs
      modifies `calls, `runs
      ensures Valid() && (runs == old(runs) || runs == old(runs) + [Run(stage, 1)])
      ensures broken.None? ==> result == Succeeded && runs == old(runs) + [Run(stage, 1)]
      ensures Quiet() ==> broken == KindOfStage(result)
    {
      var threw := StartRun(stage, 1);
      if threw { return Some(Error); }
      if result != Succeeded {
        return Some(FailureOf(result));
      }
      return None;
    }

    /** runVerificationStage. */
    method RunVerification() returns (broken: Option<FailureKind>)
      requires Valid() && Run(W.Verify, 1) !in runs
      modifies `calls, `runs
      ensures Valid() && (runs == old(runs) || runs == old(runs) + [Run(W.Verify, 1)])
      ensures broken.None? ==> outside.verification == ChecksPassed
      ensures outside.verification == ChecksFailed && broken.Some? ==> broken.value in {Error, VerificationFailed}
      ensures outside.verification == ChecksCancelled && broken.Some? ==> broken.value in {Error, WasCancelled}
      ensures broken.None? ==> runs == old(runs) + [Run(W.Verify, 1)]
      ensures Quiet() && !outside.worktreeClean && outside.inScope ==> broken == ChangeEnd(outside)
    {
      var threw := StartRun(W.Verify, 1);
      if threw { return Some(Error); }
      if outside.verification == ChecksNotRun { return Some(Error); }
      threw := Call();
      if threw { return Some(Error); }
      if outside.verification == ChecksCancelled { return Some(WasCancelled); }
      if outside.verification == ChecksFailed { return Some(VerificationFailed); }
      threw := Call();
      return if threw then Some(Error) else None;
    }

    /** runIntegrationStage: success needs a passed verification of the integrated revision, and records it. */
    method RunIntegration() returns (broken: Option<FailureKind>)
      requires Valid() && Run(W.Integrate, 1) !in runs
      modifies `calls, `runs, `events
      ensures Valid()
      ensures broken.None? ==> IntegrationVerified(attemptId, outside.revision, true) in events && outside.integrationVerification == ChecksPassed
      ensures broken.None? ==> runs == old(runs) + [Run(W.Integrate, 1)]
      ensures Quiet() ==> broken == IntegrationEnd(outside)
    {
      var threw := StartRun(W.Integrate, 1);
      if threw { return Some(Error); }
      threw := Call();
      if threw { return Some(Error); }
      threw := Call();
      if threw { return Some(Error); }
      if outside.integrationVerification == ChecksNotRun { return Some(VerificationFailed); }
      threw := Call();
      if threw { return Some(Error); }
      events := events + [IntegrationVerified(attemptId, outside.revision, outside.integrationVerification == ChecksPassed)];
      if outside.integrationVerification == ChecksCancelled { return Some(WasCancelled); }
      if outside.integrationVerification == ChecksFailed { return Some(VerificationFailed); }
      threw := Call();
      return if threw then Some(Error) else None;
    }

    /** The plan stages; on success the task is still where the implementation may start. */
    method RunPlanStages() returns (broken: Option<FailureKind>)
      requires Valid() && runs == [] && IsActive(status) && W.Plan in stages && status == Planning
      modifies `calls, `status, `history, `runs
      ensures Valid() && IsRunning(status) && Continues(old(history), history)
      ensures forall i :: 0 <= i < |runs| ==> runs[i].stage == W.Plan || runs[i].stage == W.PlanReview
      ensures broken.None? ==> CanTransition(status, Implementing) && (W.PlanReview in stages ==> ReviewPassed(outside.planReview, maxReviewCycles))
      ensures broken.None? ==> Run(W.Plan, 1) in runs && (W.PlanReview in stages ==> Run(W.PlanReview, 1) in runs)
      ensures Quiet() ==> PlanEndsAs(stages, maxReviewCycles, outside, broken)
    {
      hide Valid, Continues, LoopEndsAs;
      ContinuesItself(history);
      if W.PlanReview in stages {
        var outcome := RunReviewFixLoop(W.Plan, W.PlanReview, Planning, TaskStatus.PlanReview, outside.planWork, outside.planReview);
        match outcome {
          case Approved(cycles) =>
            broken := None;
            FirstCycleRuns(W.Plan, W.PlanReview, cycles);
          case Exhausted(cycles) => broken := Some(ReviewExhausted);
          case Broken(kind) => broken := Some(kind);
        }
        assert Quiet() ==> LoopEndsAs(outside.planWork, outside.planReview, maxReviewCycles, outcome) && broken == KindOfLoop(outcome);
      } else {
        broken := RunSingleStage(W.Plan, outside.planWork(1));
      }
    }

    /** The implementation stages. */
    method RunImplementStages() returns (broken: Option<FailureKind>)
      requires Valid() && status == Implementing
      requires forall i :: 0 <= i < |runs| ==> runs[i].stage == W.Plan || runs[i].stage == W.PlanReview
      modifies `calls, `status, `history, `runs
      ensures Valid() && IsRunning(status) && Continues(old(history), history)
      ensures forall i :: 0 <= i < |runs| ==> runs[i].stage != W.Verify && runs[i].stage != W.Integrate
      ensures broken.None? ==> CanTransition(status, Verifying) && (W.CodeReview in stages ==> ReviewPassed(outside.codeReview, maxReviewCycles))
      ensures forall run :: run in old(runs) ==> run in runs
      ensures broken.None? ==> Run(W.Implement, 1) in runs && (W.CodeReview in stages ==> Run(W.CodeReview, 1) in runs)
      ensures Quiet() && W.Implement in stages ==> CodeEndsAs(stages, maxReviewCycles, outside, broken)
    {
      hide Valid, Continues, LoopEndsAs;
      ContinuesItself(history);
      ghost var before := runs;
      if W.CodeReview in stages {
        var outcome := RunReviewFixLoop(W.Implement, W.CodeReview, Implementing, TaskStatus.CodeReview, outside.codeWork, outside.codeReview);
        match outcome {
          case Approved(cycles) =>
            broken := None;
            FirstCycleRuns(W.Implement, W.CodeReview, cycles);
          case Exhausted(cycles) => broken := Some(ReviewExhausted);
          case Broken(kind) => broken := Some(kind);
        }
        assert Quiet() ==> LoopEndsAs(outside.codeWork, outside.codeReview, maxReviewCycles, outcome) && broken == KindOfLoop(outcome);
        StartedRuns(before, runs, W.Implement, W.CodeReview, maxReviewCycles);
        StartedStages(before, runs, W.Implement, W.CodeReview, maxReviewCycles);
      } else {
        broken := RunSingleStage(W.Implement, outside.codeWork(1));
      }
    }

    /** From the worktree change to the commit: scope, verification, commit. */
    method RunChangeStages() returns (broken: Option<FailureKind>)
      requires Valid() && IsRunning(status) && CanTransition(status, Verifying)
      requires forall i :: 0 <= i < |runs| ==> runs[i].stage != W.Verify && runs[i].stage != W.Integrate
      modifies `calls, `status, `history, `runs
      ensures Valid() && IsRunning(status) && Continues(old(history), history)
      ensures forall i :: 0 <= i < |runs| ==> runs[i].stage != W.Integrate
      ensures broken.None? ==> status == Integrating && !outside.worktreeClean && outside.inScope && outside.verification == ChecksPassed
      ensures forall run :: run in old(runs) ==> run in runs
      ensures broken.None? ==> Run(W.Verify, 1) in runs
      ensures Quiet() ==> broken == ChangeEnd(outside)
    {
      var threw := Call();
      if threw || outside.worktreeClean || !outside.inScope { return Some(Error); }
      threw := TransitionTask(Verifying);
      if threw { return Some(Error); }
      broken := RunVerification();
      if broken.Some? { return; }
      threw := Call();
      if threw { return Some(Error); }
      threw := TransitionTask(Integrating);
      if threw { return Some(Error); }
    }

    /** What has to hold before the commit is handed to integration. */
    ghost predicate GatesPassed() {
      && (W.PlanReview in stages ==> ReviewPassed(outside.planReview, maxReviewCycles))
      && (W.CodeReview in stages ==> ReviewPassed(outside.codeReview, maxReviewCycles))
      && !outside.worktreeClean && outside.inScope && outside.verification == ChecksPassed
    }

    /** Plan and implementation stages, from READY to the finished implementation. */
    method RunAgentStages() returns (broken: Option<FailureKind>)
      requires Valid() && status == Ready && runs == [] && Executable(stages)
      modifies `calls, `status, `history, `runs
      ensures Valid() && IsRunning(status) && Continues(old(history), history)
      ensures forall i :: 0 <= i < |runs| ==> runs[i].stage != W.Verify && runs[i].stage != W.Integrate
      ensures broken.None? ==>
                && CanTransition(status, Verifying)
                && (W.PlanReview in stages ==> ReviewPassed(outside.planReview, maxReviewCycles))
                && (W.CodeReview in stages ==> ReviewPassed(outside.codeReview, maxReviewCycles))
                && AgentStagesRan(stages, runs)
      ensures Quiet() ==> AgentsEndAs(stages, maxReviewCycles, outside, broken)
    {
      hide Executable, ReviewPassed, W.IsSubsequence, PlanEndsAs, CodeEndsAs, AgentsEndAs, Continues;
      BeginsWell(stages, maxReviewCycles, outside);
      var threw := TransitionTask(if stages[0] == W.Plan then Planning else Implementing);
      if threw { return Some(Error); }
      threw := Call();
      if threw { return Some(Error); }
      ghost var started := history;
      if W.Plan in stages {
        broken := RunPlanStages();
        ContinuesOn(old(history), started, history);
        if broken.Some? {
          if Quiet() {
            PlanDecides(stages, maxReviewCycles, outside, broken);
          }
          return;
        }
      }
      ghost var planned := history;
      threw := TransitionToStageStatus(Implementing);
      ContinuesOn(old(history), planned, history);
      if threw { return Some(Error); }
      ghost var ready := history;
      broken := RunImplementStages();
      ContinuesOn(old(history), ready, history);
      if Quiet() {
        CodeDecides(stages, maxReviewCycles, outside, broken);
      }
      if broken.None? {
        FourAgentStages(stages, runs);
      }
    }

    /** The body of the try block up to the integration. */
    method RunStages() returns (attempted: Attempted)
      requires Valid() && status == Ready && runs == [] && Executable(stages)
      modifies `calls, `status, `history, `runs, `events
      ensures Valid() && IsRunning(status) && Continues(old(history), history)
      ensures !attempted.Broke? ==> status == Integrating && GatesPassed()
      ensures attempted.Queued? ==> queued
      ensures attempted.Integrated? ==>
                !queued && attempted.revision == outside.revision && IntegrationVerified(attemptId, outside.revision, true) in events
      ensures !attempted.Broke? ==> AllRun(stages, runs)
      ensures Quiet() ==> EndsAs(stages, maxReviewCycles, queued, outside, if attempted.Broke? then Some(attempted.kind) else None)
    {
      hide Executable, ReviewPassed, Continues, AgentsEndAs;
      var broken := RunAgentStages();
      assert Quiet() ==> AgentsEndAs(stages, maxReviewCycles, outside, broken);
      hide ChangeEnd, IntegrationEnd;
      if broken.Some? { return Broke(broken.value); }
      ghost var implemented := history;
      broken := RunChangeStages();
      ContinuesOn(old(history), implemented, history);
      if broken.Some? { return Broke(broken.value); }
      if queued {
        var threw := StartRun(W.Integrate, 1);
        if threw { return Broke(Error); }
        threw := Call();
        return if threw then Broke(Error) else Queued;
      }
      broken := RunIntegration();
      return if broken.Some? then Broke(broken.value) else Integrated(outside.revision);
    }

    /** failExecution: the status it persists without consulting the transition table is an edge of it all the same. */
    method FailExecution(kind: FailureKind) returns (outcome: Outcome)
      requires Valid() && IsRunning(status)
      modifies `calls, `status, `history
      ensures Valid() && Continues(old(history), history)
      ensures outcome != Threw ==> outcome == ResolvedOutcome(kind) && status == ResolvedStatus(kind)
      ensures outcome == Threw ==> status == old(status) || status == ResolvedStatus(kind)
      ensures Quiet() ==> outcome != Threw
    {
      RunningMayFail(status, kind);
      var threw := TransitionTask(ResolvedStatus(kind));
      if threw { return Threw; }
      threw := Call();
      return if threw then Threw else ResolvedOutcome(kind);
    }

    /** The end of the execution: DONE after an integration, or the failure. */
    method Finish(attempted: Attempted) returns (outcome: Outcome)
      requires Valid() && IsRunning(status) && (!attempted.Broke? ==> status == Integrating)
      modifies `calls, `status, `history
      ensures Valid() && Continues(old(history), history)
      ensures status == Done ==> attempted.Integrated?
      ensures !outcome.Rejected? && OutcomeFits(old(status), outcome, status)
      ensures outcome.Completed? ==> attempted == Integrated(outcome.revision)
      ensures outcome.PendingIntegration? ==> attempted.Queued?
      ensures Quiet() ==> outcome == match attempted
                                     case Broke(kind) => ResolvedOutcome(kind)
                                     case Queued => PendingIntegration
                                     case Integrated(revision) => Completed(revision)
    {
      match attempted {
        case Broke(kind) => outcome := FailExecution(kind);
        case Queued => return PendingIntegration;
        case Integrated(revision) =>
          var threw := TransitionTask(Done);
          if threw {
            outcome := FailExecution(Error);
          } else {
            threw := Call();
            return if threw then Threw else Completed(revision);
          }
      }
    }

    /** execute. */
    method Execute() returns (outcome: Outcome)
      requires Valid() && runs == [] && events == []
      modifies this
      ensures Valid() && Continues(old(history), history)
      ensures OutcomeFits(old(status), outcome, status)
      ensures outcome.Rejected? ==> history == old(history) && runs == []
      ensures outcome.Rejected? <==> !(old(status) == Ready && Executable(stages) && Trim(workflowId) != "" && outside.canStart)
      ensures outcome.Completed? || outcome.PendingIntegration? ==> AllRun(stages, runs)
      ensures Quiet() && !outcome.Rejected? ==>
                exists end :: EndsAs(stages, maxReviewCycles, queued, outside, end) && outcome == OutcomeFor(end, queued, outside.revision)
      ensures outcome.Completed? ==> outcome.revision == outside.revision
      ensures status == Done && old(status) != Done ==>
                GatesPassed() && !queued && IntegrationVerified(attemptId, outside.revision, true) in events
      ensures outcome.PendingIntegration? ==> GatesPassed() && queued
    {
      assert Continues(history, history);
      hide Continues, GatesPassed, Valid, W.IsSubsequence, Trim, W.IsDuplicate, W.IsMisplaced, AllRun, EndsAs;
      if status != Ready { return Rejected; }
      var issues := W.Validate(workflowId, stages);
      if issues != [] { return Rejected; }
      if W.PlanReview in stages && W.Plan !in stages { return Rejected; }
      assert Executable(stages);
      hide Executable;
      if !outside.canStart { return Rejected; }
      var attempted := RunStages();
      ghost var ran := history;
      outcome := Finish(attempted);
      ContinuesOn(old(history), ran, history);
    }
  }
}
