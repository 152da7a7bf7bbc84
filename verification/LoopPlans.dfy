/**
 * The rows that an approved plan loop of the executor leaves behind, and the plan that everybody reads from
 * them (packages/orchestrator/src/review-fix-loop.ts, plan-stage.ts and plan-review-stage.ts).
 */
module LoopPlans {
  import opened Options
  import T = TaskStates
  import opened WorkflowDefinition
  import opened StageRunIds
  import opened ApprovedPlan
  import E = WorkflowExecutor

  /** The row of a plan stage that succeeded, and that of a completed review. */
  function RowOf(attemptId: string, run: E.Run, plans: nat -> string, reviews: nat -> E.ReviewResult): StageRun {
    var id := StageRunId(attemptId, run.stage, run.cycle);
    if run.stage == Plan then StageRun(id, Plan, Succeeded, Some(plans(run.cycle)), None)
    else StageRun(id, run.stage, Succeeded, None,
                  Some(if reviews(run.cycle) == E.Reviewed(true) then Approved else ChangesRequired))
  }

  function RowsOf(attemptId: string, runs: seq<E.Run>, plans: nat -> string, reviews: nat -> E.ReviewResult): (rows: seq<StageRun>)
    ensures |rows| == |runs| && forall i :: 0 <= i < |runs| ==> rows[i] == RowOf(attemptId, runs[i], plans, reviews)
  {
    seq(|runs|, i requires 0 <= i < |runs| => RowOf(attemptId, runs[i], plans, reviews))
  }

  predicate IsPlanRow(r: StageRun) {
    r.stage == Plan || r.stage == PlanReview
  }

  /** Rows of the attempt with the identities of their stages; those of planning are the rows of the loop, in any order. */
  ghost predicate HoldsPlanRows(attemptId: string, rows: seq<StageRun>, loop: seq<StageRun>) {
    && (forall i :: 0 <= i < |rows| ==> HasOwnIdentity(attemptId, rows[i]))
    && (forall r :: r in loop ==> r in rows)
    && (forall i :: 0 <= i < |rows| && IsPlanRow(rows[i]) ==> rows[i] in loop)
  }

  ghost predicate HasOwnIdentity(attemptId: string, r: StageRun) {
    exists c: nat :: c >= 1 && r.id == StageRunId(attemptId, r.stage, c)
  }

  lemma {:induction false} LoopRuns(k: nat)
    ensures forall run :: run in E.CycleRuns(Plan, PlanReview, k) <==>
              (run.stage == Plan || run.stage == PlanReview) && 1 <= run.cycle <= k
  {
    if k > 0 {
      LoopRuns(k - 1);
    }
  }

  function LoopRows(attemptId: string, k: nat, plans: nat -> string, reviews: nat -> E.ReviewResult): seq<StageRun> {
    RowsOf(attemptId, E.CycleRuns(Plan, PlanReview, k), plans, reviews)
  }

  /** A row of one of the cycles. */
  ghost predicate IsLoopRow(attemptId: string, k: nat, plans: nat -> string, reviews: nat -> E.ReviewResult, r: StageRun, c: nat) {
    1 <= c <= k && (r == RowOf(attemptId, E.Run(Plan, c), plans, reviews) || r == RowOf(attemptId, E.Run(PlanReview, c), plans, reviews))
  }

  lemma LoopRowCycle(attemptId: string, k: nat, plans: nat -> string, reviews: nat -> E.ReviewResult, r: StageRun) returns (c: nat)
    requires r in LoopRows(attemptId, k, plans, reviews)
    ensures IsLoopRow(attemptId, k, plans, reviews, r, c)
  {
    LoopRuns(k);
    var runs := E.CycleRuns(Plan, PlanReview, k);
    hide E.CycleRuns, RowOf;
    var i :| 0 <= i < |runs| && LoopRows(attemptId, k, plans, reviews)[i] == r;
    assert runs[i] in runs;
    c := runs[i].cycle;
  }

  lemma CycleHasRows(attemptId: string, k: nat, plans: nat -> string, reviews: nat -> E.ReviewResult, c: nat)
    requires 1 <= c <= k
    ensures RowOf(attemptId, E.Run(Plan, c), plans, reviews) in LoopRows(attemptId, k, plans, reviews)
    ensures RowOf(attemptId, E.Run(PlanReview, c), plans, reviews) in LoopRows(attemptId, k, plans, reviews)
  {
    LoopRuns(k);
    var runs := E.CycleRuns(Plan, PlanReview, k);
    hide E.CycleRuns, RowOf;
    assert E.Run(Plan, c) in runs && E.Run(PlanReview, c) in runs;
    var i :| 0 <= i < |runs| && runs[i] == E.Run(Plan, c);
    var j :| 0 <= j < |runs| && runs[j] == E.Run(PlanReview, c);
    var rows := LoopRows(attemptId, k, plans, reviews);
    assert rows[i] in rows && rows[j] in rows;
  }

  /** A loop approved in cycle k: every plan has text, and the last review is the first that approves. */
  ghost predicate ApprovedAt(k: nat, plans: nat -> string, reviews: nat -> E.ReviewResult) {
    && k >= 1 && (forall c :: 1 <= c <= k ==> !IsBlank(plans(c)))
    && reviews(k) == E.Reviewed(true) && (forall c :: 1 <= c < k ==> reviews(c) == E.Reviewed(false))
  }

  function PlansUpTo(k: nat, plans: nat -> string): (s: seq<string>)
    ensures |s| == k && forall i :: 0 <= i < k ==> s[i] == plans(i + 1)
  {
    seq(k, i requires 0 <= i < k => plans(i + 1))
  }

  /** The rows of the loop in any order, and among the rows of other stages, are those of an approved loop. */
  lemma LoopIsApproved(attemptId: string, k: nat, plans: nat -> string, reviews: nat -> E.ReviewResult, rows: seq<StageRun>)
    requires ApprovedAt(k, plans, reviews) && HoldsPlanRows(attemptId, rows, LoopRows(attemptId, k, plans, reviews))
    ensures ApprovedLoop(attemptId, rows, PlansUpTo(k, plans))
  {
    LastPlanHeld(attemptId, k, plans, reviews, rows);
    PlansHeld(attemptId, k, plans, reviews, rows);
    ApprovalHeld(attemptId, k, plans, reviews, rows);
    hide LastPlanIsThere, PlansAreOfCycles, OneApproval;
  }

  lemma LastPlanHeld(attemptId: string, k: nat, plans: nat -> string, reviews: nat -> E.ReviewResult, rows: seq<StageRun>)
    requires ApprovedAt(k, plans, reviews) && HoldsPlanRows(attemptId, rows, LoopRows(attemptId, k, plans, reviews))
    ensures LastPlanIsThere(attemptId, rows, k)
  {
    var last := RowOf(attemptId, E.Run(Plan, k), plans, reviews);
    CycleHasRows(attemptId, k, plans, reviews, k);
    var j :| 0 <= j < |rows| && rows[j] == last;
    hide IsBlank, StageRunId, LoopRows;
    forall i | 0 <= i < |rows| && rows[i].id == StageRunId(attemptId, Plan, k) ensures HasPlan(rows[i]) {
      var own: nat :| own >= 1 && rows[i].id == StageRunId(attemptId, rows[i].stage, own);
      IdsAreDistinct(attemptId, Plan, rows[i].stage, k, own);
      var c := LoopRowCycle(attemptId, k, plans, reviews, rows[i]);
    }
  }

  lemma PlansHeld(attemptId: string, k: nat, plans: nat -> string, reviews: nat -> E.ReviewResult, rows: seq<StageRun>)
    requires HoldsPlanRows(attemptId, rows, LoopRows(attemptId, k, plans, reviews))
    ensures PlansAreOfCycles(attemptId, rows, PlansUpTo(k, plans))
  {
    hide IsBlank, StageRunId, LoopRows;
    forall i | 0 <= i < |rows| && HasPlan(rows[i]) ensures IsPlanOfSomeCycle(attemptId, rows[i], PlansUpTo(k, plans)) {
      var c := LoopRowCycle(attemptId, k, plans, reviews, rows[i]);
      assert IsRowOfCycle(attemptId, rows[i], PlansUpTo(k, plans), c);
    }
  }

  lemma ApprovalHeld(attemptId: string, k: nat, plans: nat -> string, reviews: nat -> E.ReviewResult, rows: seq<StageRun>)
    requires ApprovedAt(k, plans, reviews) && HoldsPlanRows(attemptId, rows, LoopRows(attemptId, k, plans, reviews))
    ensures OneApproval(attemptId, rows, k)
  {
    var approval := RowOf(attemptId, E.Run(PlanReview, k), plans, reviews);
    CycleHasRows(attemptId, k, plans, reviews, k);
    var j :| 0 <= j < |rows| && rows[j] == approval;
    hide IsBlank, StageRunId, LoopRows;
    assert IsApprovalAt(attemptId, rows[j], k);
    forall i | 0 <= i < |rows| && rows[i].stage == PlanReview && rows[i].decision == Some(Approved) ensures IsApprovalAt(attemptId, rows[i], k) {
      var c := LoopRowCycle(attemptId, k, plans, reviews, rows[i]);
      assert c == k;
    }
  }

  /**
   * After an approved plan loop of the executor, the implementer and the reviewer get the plan of the
   * approved cycle, in whatever order the store lists the rows, and whatever stages have run since.
   */
  method PlansAgree(executor: E.Executor, plans: nat -> string, later: seq<StageRun>, list: seq<StageRun> -> seq<StageRun>)
    returns (outcome: E.LoopOutcome, implementer: Option<string>, reviewer: Option<string>)
    requires executor.Valid() && executor.status == T.Planning && executor.runs == []
    requires forall c :: executor.outside.planWork(c) == E.Succeeded ==> !IsBlank(plans(c))
    requires forall r :: r in later ==> !IsPlanRow(r) && HasOwnIdentity(executor.attemptId, r)
    requires forall s, r :: r in list(s) <==> r in s
    modifies executor
    ensures outcome.Approved? ==> implementer == reviewer == Some(plans(outcome.cycles))
  {
    outcome := executor.RunReviewFixLoop(Plan, PlanReview, T.Planning, T.PlanReview, executor.outside.planWork, executor.outside.planReview);
    implementer, reviewer := None, None;
    if outcome.Approved? {
      var id, k, reviews := executor.attemptId, outcome.cycles, executor.outside.planReview;
      var rows := RowsOf(id, executor.runs, plans, reviews);
      assert rows == LoopRows(id, k, plans, reviews);
      var persisted := list(rows + later);
      LoopHoldsItself(id, k, plans, reviews, later, persisted);
      LoopIsApproved(id, k, plans, reviews, rows);
      LoopIsApproved(id, k, plans, reviews, persisted);
      hide ApprovedLoop, ApprovedAt, HoldsPlanRows;
      implementer, reviewer := SamePlan(id, rows, persisted, PlansUpTo(k, plans));
    }
  }

  lemma LoopHoldsItself(attemptId: string, k: nat, plans: nat -> string, reviews: nat -> E.ReviewResult, later: seq<StageRun>, persisted: seq<StageRun>)
    requires forall r :: r in later ==> !IsPlanRow(r) && HasOwnIdentity(attemptId, r)
    requires forall r :: r in persisted <==> r in LoopRows(attemptId, k, plans, reviews) + later
    ensures HoldsPlanRows(attemptId, LoopRows(attemptId, k, plans, reviews), LoopRows(attemptId, k, plans, reviews))
    ensures HoldsPlanRows(attemptId, persisted, LoopRows(attemptId, k, plans, reviews))
  {
    var loop := LoopRows(attemptId, k, plans, reviews);
    hide LoopRows, StageRunId;
    forall r | r in loop ensures HasOwnIdentity(attemptId, r) {
      var c := LoopRowCycle(attemptId, k, plans, reviews, r);
      assert r.id == StageRunId(attemptId, r.stage, c);
    }
    hide HasOwnIdentity;
    assert forall i :: 0 <= i < |persisted| ==> persisted[i] in persisted;
  }
}
