/**
 * Which persisted plan the implementer and the reviewer get (packages/orchestrator/src/workflow-executor.ts,
 * code-review-stage.ts and plan-review-stage.ts).
 */
module ApprovedPlan {
  import opened Options
  import opened Text
  import opened WorkflowDefinition
  import opened StageRunIds

  datatype RunStatus = Pending | Running | Succeeded | Failed | Cancelled | TimedOut

  datatype Decision = Approved | ChangesRequired

  /** The row of a stage run with the outputs that matter here. */
  datatype StageRun = StageRun(id: string, stage: Stage, status: RunStatus, plan: Option<string>, decision: Option<Decision>)

  predicate IsBlank(s: string) {
    Trim(s) == ""
  }

  /** succeededPlanOutputOf. */
  predicate HasPlan(r: StageRun) {
    r.stage == Plan && r.status == Succeeded && r.plan.Some? && !IsBlank(r.plan.value)
  }

  /** The last of the usable plans of the highest cycle, as both selection loops keep it. */
  ghost predicate IsChosen(rows: seq<StageRun>, cycleOf: StageRun -> nat, i: nat) {
    && i < |rows| && HasPlan(rows[i])
    && (forall k :: 0 <= k < |rows| && HasPlan(rows[k]) ==> cycleOf(rows[k]) <= cycleOf(rows[i]))
    && (forall k :: i < k < |rows| && HasPlan(rows[k]) ==> cycleOf(rows[k]) < cycleOf(rows[i]))
  }

  ghost predicate IsChoice(rows: seq<StageRun>, cycleOf: StageRun -> nat, choice: Option<string>) {
    match choice
    case None => forall k :: 0 <= k < |rows| ==> !HasPlan(rows[k])
    case Some(plan) => exists i: nat :: IsChosen(rows, cycleOf, i) && rows[i].plan == Some(plan)
  }

  const CYCLE_BY_MARKER: StageRun -> nat := (r: StageRun) => CycleByLastMarker(r.id)

  /** The cycle that the reviewer's fallback reads, 0 for a foreign identity. */
  function CycleOrZero(attemptId: string): StageRun -> nat {
    (r: StageRun) =>
      var cycle := CycleByBase(BaseId(attemptId, Plan), r.id);
      if cycle.Some? then cycle.value else 0
  }

  /** The loop's best cycle and plan so far; -1 and None when no plan has been seen. */
  ghost predicate IsBest(rows: seq<StageRun>, cycleOf: StageRun -> nat, best: int, plan: Option<string>) {
    if plan.None? then best == -1 && forall k :: 0 <= k < |rows| ==> !HasPlan(rows[k])
    else exists i: nat :: IsChosen(rows, cycleOf, i) && rows[i].plan == plan && cycleOf(rows[i]) == best
  }

  lemma BestOfMore(rows: seq<StageRun>, cycleOf: StageRun -> nat, best: int, plan: Option<string>, r: StageRun)
    requires IsBest(rows, cycleOf, best, plan)
    ensures HasPlan(r) && cycleOf(r) >= best ==> IsBest(rows + [r], cycleOf, cycleOf(r), r.plan)
    ensures !(HasPlan(r) && cycleOf(r) >= best) ==> IsBest(rows + [r], cycleOf, best, plan)
  {
    hide IsBlank;
    var more := rows + [r];
    assert more[|rows|] == r;
    if plan.Some? {
      var i: nat :| IsChosen(rows, cycleOf, i) && rows[i].plan == plan && cycleOf(rows[i]) == best;
      assert more[i] == rows[i];
      if !(HasPlan(r) && cycleOf(r) >= best) {
        assert IsChosen(more, cycleOf, i);
      }
    }
    if HasPlan(r) && cycleOf(r) >= best {
      assert IsChosen(more, cycleOf, |rows|);
    }
  }

  /** approvedPlanOf and the fallback loop of loadPersistedPlan. */
  method ChoosePlan(rows: seq<StageRun>, cycleOf: StageRun -> nat) returns (plan: Option<string>)
    ensures IsChoice(rows, cycleOf, plan)
  {
    hide IsBlank;
    var best: int := -1;
    plan := None;
    for i := 0 to |rows|
      invariant IsBest(rows[..i], cycleOf, best, plan)
    {
      assert rows[..i + 1] == rows[..i] + [rows[i]];
      BestOfMore(rows[..i], cycleOf, best, plan, rows[i]);
      if HasPlan(rows[i]) {
        var cycle := cycleOf(rows[i]);
        if cycle >= best {
          best, plan := cycle, rows[i].plan;
        }
      }
    }
    assert rows[..|rows|] == rows;
  }

  /** The row is of a plan stage that succeeded, and its text has more than white space. */
  ghost predicate HoldsPlan(r: StageRun, text: string) {
    r.stage == Plan && r.status == Succeeded && r.plan == Some(text) && exists c :: c in text && !IsSpace(c)
  }

  lemma {:induction false} TrimStartBlank(s: string)
    ensures TrimStart(s) == "" <==> forall c :: c in s ==> IsSpace(c)
    ensures forall c :: c in s && !IsSpace(c) ==> c in TrimStart(s)
    ensures forall c :: c in TrimStart(s) ==> c in s
  {
    hide IsSpace;
    if s != "" && IsSpace(s[0]) {
      TrimStartBlank(s[1..]);
      assert s == [s[0]] + s[1..];
    } else if s != "" {
      assert s[0] in s;
    }
  }

  lemma {:induction false} TrimEndBlank(s: string)
    ensures TrimEnd(s) == "" <==> forall c :: c in s ==> IsSpace(c)
  {
    hide IsSpace;
    if s != "" && IsSpace(s[|s| - 1]) {
      TrimEndBlank(s[..|s| - 1]);
      assert s == s[..|s| - 1] + [s[|s| - 1]];
    } else if s != "" {
      assert s[|s| - 1] in s;
    }
  }

  lemma PlanRow(r: StageRun)
    ensures HasPlan(r) <==> r.plan.Some? && HoldsPlan(r, r.plan.value)
  {
    hide IsSpace;
    if r.plan.Some? {
      TrimStartBlank(r.plan.value);
      TrimEndBlank(TrimStart(r.plan.value));
    }
  }

  /** Every selection answers the plan of a stage that succeeded, and nothing only when there is none. */
  lemma ChoiceHoldsAPlan(rows: seq<StageRun>, cycleOf: StageRun -> nat, choice: Option<string>)
    requires IsChoice(rows, cycleOf, choice)
    ensures choice.None? <==> forall k, text :: 0 <= k < |rows| ==> !HoldsPlan(rows[k], text)
    ensures choice.Some? ==> exists k :: 0 <= k < |rows| && HoldsPlan(rows[k], choice.value)
  {
    hide HasPlan, HoldsPlan;
    forall k | 0 <= k < |rows| ensures HasPlan(rows[k]) <==> exists text :: HoldsPlan(rows[k], text) {
      PlanRow(rows[k]);
      OnePlan(rows[k]);
    }
    if choice.Some? {
      var i: nat :| IsChosen(rows, cycleOf, i) && rows[i].plan == choice;
      PlanRow(rows[i]);
    }
  }

  lemma OnePlan(r: StageRun)
    ensures forall text :: HoldsPlan(r, text) ==> r.plan == Some(text)
  {
  }

  method ApprovedPlanOf(rows: seq<StageRun>) returns (plan: Option<string>)
    ensures IsChoice(rows, CYCLE_BY_MARKER, plan)
  {
    plan := ChoosePlan(rows, CYCLE_BY_MARKER);
  }

  /** approvedPlanReviewCycleOf. */
  function ApprovedReviewCycle(attemptId: string, r: StageRun): Option<nat> {
    if r.stage != PlanReview || r.status != Succeeded || r.decision != Some(Approved) then None
    else CycleByBase(BaseId(attemptId, PlanReview), r.id)
  }

  ghost predicate IsHighestApproval(attemptId: string, rows: seq<StageRun>, cycle: Option<nat>) {
    match cycle
    case None => forall k :: 0 <= k < |rows| ==> ApprovedReviewCycle(attemptId, rows[k]).None?
    case Some(c) =>
      && (exists k :: 0 <= k < |rows| && ApprovedReviewCycle(attemptId, rows[k]) == Some(c))
      && (forall k :: 0 <= k < |rows| && ApprovedReviewCycle(attemptId, rows[k]).Some? ==> ApprovedReviewCycle(attemptId, rows[k]).value <= c)
  }

  method HighestApproval(attemptId: string, rows: seq<StageRun>) returns (cycle: Option<nat>)
    ensures IsHighestApproval(attemptId, rows, cycle)
  {
    hide ApprovedReviewCycle;
    cycle := None;
    for i := 0 to |rows|
      invariant IsHighestApproval(attemptId, rows[..i], cycle)
    {
      assert rows[..i + 1] == rows[..i] + [rows[i]];
      var approved := ApprovedReviewCycle(attemptId, rows[i]);
      if approved.Some? && (cycle.None? || approved.value > cycle.value) {
        cycle := approved;
        assert ApprovedReviewCycle(attemptId, rows[..i + 1][i]) == cycle;
      } else if cycle.Some? {
        ghost var k :| 0 <= k < i && ApprovedReviewCycle(attemptId, rows[..i][k]) == cycle;
        assert ApprovedReviewCycle(attemptId, rows[..i + 1][k]) == cycle;
      }
    }
    assert rows[..|rows|] == rows;
  }

  /** `stageRuns.find(r => r.id === id)`, then its usable plan. */
  function PlanOfFirst(rows: seq<StageRun>, id: string): (plan: Option<string>)
    ensures plan.Some? ==> exists k :: 0 <= k < |rows| && rows[k].id == id && rows[k].plan == plan && HasPlan(rows[k])
  {
    if rows == [] then None
    else if rows[0].id == id then (if HasPlan(rows[0]) then rows[0].plan else None)
    else
      var plan := PlanOfFirst(rows[1..], id);
      assert plan.Some? ==> exists k :: 0 < k < |rows| && rows[k].id == id && rows[k].plan == plan && HasPlan(rows[k]) by {
        if plan.Some? {
          var k :| 0 <= k < |rows[1..]| && rows[1..][k].id == id && rows[1..][k].plan == plan && HasPlan(rows[1..][k]);
          assert rows[k + 1].id == id;
        }
      }
      plan
  }

  /** loadPersistedPlan: the plan of the highest approved review cycle, or else of the highest cycle. */
  method LoadPersistedPlan(attemptId: string, rows: seq<StageRun>) returns (plan: Option<string>)
    ensures (exists c :: IsHighestApproval(attemptId, rows, Some(c)) && PlanOfFirst(rows, StageRunId(attemptId, Plan, c)).Some?
                         && plan == PlanOfFirst(rows, StageRunId(attemptId, Plan, c)))
         || ((forall c :: IsHighestApproval(attemptId, rows, Some(c)) ==> PlanOfFirst(rows, StageRunId(attemptId, Plan, c)).None?)
             && IsChoice(rows, CycleOrZero(attemptId), plan))
  {
    hide ApprovedReviewCycle, IsChoice, StageRunId, HasPlan;
    var approved := HighestApproval(attemptId, rows);
    if approved.Some? {
      plan := PlanOfFirst(rows, StageRunId(attemptId, Plan, approved.value));
      if plan.Some? {
        return;
      }
    }
    plan := ChoosePlan(rows, CycleOrZero(attemptId));
  }

  // --- The plan that an approved review loop leaves behind ---

  /** The rows of a plan loop approved at cycle |plans|, in any order: one plan per cycle, and one approval. */
  ghost predicate ApprovedLoop(attemptId: string, rows: seq<StageRun>, plans: seq<string>) {
    plans != [] && LastPlanIsThere(attemptId, rows, |plans|) && PlansAreOfCycles(attemptId, rows, plans) && OneApproval(attemptId, rows, |plans|)
  }

  /** The plan stage of the last cycle succeeded, and its identity is its own. */
  ghost predicate LastPlanIsThere(attemptId: string, rows: seq<StageRun>, k: nat) {
    && (exists i :: 0 <= i < |rows| && rows[i].id == StageRunId(attemptId, Plan, k))
    && (forall i :: 0 <= i < |rows| && rows[i].id == StageRunId(attemptId, Plan, k) ==> HasPlan(rows[i]))
  }

  ghost predicate PlansAreOfCycles(attemptId: string, rows: seq<StageRun>, plans: seq<string>) {
    forall i :: 0 <= i < |rows| && HasPlan(rows[i]) ==> IsPlanOfSomeCycle(attemptId, rows[i], plans)
  }

  ghost predicate IsPlanOfSomeCycle(attemptId: string, r: StageRun, plans: seq<string>) {
    exists c :: 1 <= c <= |plans| && IsRowOfCycle(attemptId, r, plans, c)
  }

  /** Reviews that approve are those of cycle k. */
  ghost predicate OneApproval(attemptId: string, rows: seq<StageRun>, k: nat) {
    && (exists i :: 0 <= i < |rows| && IsApprovalAt(attemptId, rows[i], k))
    && (forall i :: 0 <= i < |rows| && rows[i].stage == PlanReview && rows[i].decision == Some(Approved) ==> IsApprovalAt(attemptId, rows[i], k))
  }

  ghost predicate IsRowOfCycle(attemptId: string, r: StageRun, plans: seq<string>, c: nat)
    requires 1 <= c <= |plans|
  {
    r.id == StageRunId(attemptId, Plan, c) && r.plan == Some(plans[c - 1])
  }

  ghost predicate IsApprovalAt(attemptId: string, r: StageRun, k: nat) {
    r.stage == PlanReview && r.status == Succeeded && r.decision == Some(Approved) && r.id == StageRunId(attemptId, PlanReview, k)
  }

  lemma RowCycle(attemptId: string, r: StageRun, plans: seq<string>, c: nat)
    requires 1 <= c <= |plans| && IsRowOfCycle(attemptId, r, plans, c)
    ensures CYCLE_BY_MARKER(r) == c && CycleOrZero(attemptId)(r) == c
  {
    CycleReadsBack(attemptId, Plan, c);
    CycleReadsBackByBase(attemptId, Plan, c);
  }

  /** A row with the identity of the last cycle holds the approved plan. */
  lemma LastCycleRow(attemptId: string, r: StageRun, plans: seq<string>)
    requires plans != [] && IsPlanOfSomeCycle(attemptId, r, plans) && r.id == StageRunId(attemptId, Plan, |plans|)
    ensures IsRowOfCycle(attemptId, r, plans, |plans|) && r.plan == Some(plans[|plans| - 1])
  {
    hide StageRunId;
    var c :| 1 <= c <= |plans| && IsRowOfCycle(attemptId, r, plans, c);
    IdsAreDistinct(attemptId, Plan, Plan, c, |plans|);
  }

  /** No row has a higher cycle than the last, and only rows of the approved plan have that cycle. */
  lemma CycleBound(attemptId: string, r: StageRun, plans: seq<string>, cycleOf: StageRun -> nat)
    requires IsPlanOfSomeCycle(attemptId, r, plans)
    requires cycleOf == CYCLE_BY_MARKER || cycleOf == CycleOrZero(attemptId)
    ensures plans != [] && cycleOf(r) <= |plans|
    ensures cycleOf(r) == |plans| ==> r.plan == Some(plans[|plans| - 1])
    ensures r.id == StageRunId(attemptId, Plan, |plans|) ==> cycleOf(r) == |plans|
  {
    var c :| 1 <= c <= |plans| && IsRowOfCycle(attemptId, r, plans, c);
    RowCycle(attemptId, r, plans, c);
    IdsAreDistinct(attemptId, Plan, Plan, c, |plans|);
    hide StageRunId, CycleOrZero;
  }

  /** Whoever chooses by cycle gets the approved plan. */
  lemma ChoiceIsApproved(attemptId: string, rows: seq<StageRun>, plans: seq<string>, cycleOf: StageRun -> nat, choice: Option<string>)
    requires ApprovedLoop(attemptId, rows, plans) && IsChoice(rows, cycleOf, choice)
    requires cycleOf == CYCLE_BY_MARKER || cycleOf == CycleOrZero(attemptId)
    ensures choice == Some(plans[|plans| - 1])
  {
    hide StageRunId, HasPlan, CycleOrZero, OneApproval, IsPlanOfSomeCycle;
    var last :| 0 <= last < |rows| && rows[last].id == StageRunId(attemptId, Plan, |plans|);
    assert HasPlan(rows[last]);
    CycleBound(attemptId, rows[last], plans, cycleOf);
    assert choice.Some?;
    var i: nat :| IsChosen(rows, cycleOf, i) && rows[i].plan == choice;
    CycleBound(attemptId, rows[i], plans, cycleOf);
  }

  lemma OnlyApproval(attemptId: string, rows: seq<StageRun>, plans: seq<string>, cycle: Option<nat>)
    requires ApprovedLoop(attemptId, rows, plans) && IsHighestApproval(attemptId, rows, cycle)
    ensures cycle == Some(|plans|)
  {
    CycleReadsBackByBase(attemptId, PlanReview, |plans|);
    hide StageRunId, CycleByBase, HasPlan;
    var i :| 0 <= i < |rows| && IsApprovalAt(attemptId, rows[i], |plans|);
    assert ApprovedReviewCycle(attemptId, rows[i]) == Some(|plans|);
  }

  lemma {:induction false} FirstIsApproved(rows: seq<StageRun>, id: string, plan: string)
    requires forall i :: 0 <= i < |rows| && rows[i].id == id ==> HasPlan(rows[i]) && rows[i].plan == Some(plan)
    requires exists i :: 0 <= i < |rows| && rows[i].id == id
    ensures PlanOfFirst(rows, id) == Some(plan)
  {
    hide HasPlan;
    if rows[0].id != id {
      FirstIsApproved(rows[1..], id, plan);
    } else {
      assert HasPlan(rows[0]);
    }
  }

  /**
   * The implementer and the reviewer work from the same plan: both selections return the plan of the
   * cycle that was approved, whatever the order of the rows.
   */
  method SamePlan(attemptId: string, rows: seq<StageRun>, persisted: seq<StageRun>, ghost plans: seq<string>)
    returns (implementer: Option<string>, reviewer: Option<string>)
    requires ApprovedLoop(attemptId, rows, plans) && ApprovedLoop(attemptId, persisted, plans)
    ensures implementer == reviewer == Some(plans[|plans| - 1])
  {
    implementer := ApprovedPlanOf(rows);
    ChoiceIsApproved(attemptId, rows, plans, CYCLE_BY_MARKER, implementer);
    reviewer := LoadPersistedPlan(attemptId, persisted);
    PersistedIsApproved(attemptId, persisted, plans, reviewer);
  }

  /** What loadPersistedPlan may answer is the approved plan. */
  lemma PersistedIsApproved(attemptId: string, rows: seq<StageRun>, plans: seq<string>, plan: Option<string>)
    requires ApprovedLoop(attemptId, rows, plans)
    requires (exists c :: IsHighestApproval(attemptId, rows, Some(c)) && plan == PlanOfFirst(rows, StageRunId(attemptId, Plan, c)))
          || IsChoice(rows, CycleOrZero(attemptId), plan)
    ensures plan == Some(plans[|plans| - 1])
  {
    hide StageRunId, HasPlan, IsChoice, IsHighestApproval, CycleOrZero, PlanOfFirst, IsPlanOfSomeCycle;
    if IsChoice(rows, CycleOrZero(attemptId), plan) {
      ChoiceIsApproved(attemptId, rows, plans, CycleOrZero(attemptId), plan);
    } else {
      var c :| IsHighestApproval(attemptId, rows, Some(c)) && plan == PlanOfFirst(rows, StageRunId(attemptId, Plan, c));
      OnlyApproval(attemptId, rows, plans, Some(c));
      forall i | 0 <= i < |rows| && rows[i].id == StageRunId(attemptId, Plan, |plans|)
        ensures HasPlan(rows[i]) && rows[i].plan == Some(plans[|plans| - 1])
      {
        LastCycleRow(attemptId, rows[i], plans);
      }
      FirstIsApproved(rows, StageRunId(attemptId, Plan, |plans|), plans[|plans| - 1]);
    }
  }

  // --- The plan under review ---

  datatype Resolution = Resolved(plan: string) | Missing

  /** The last usable plan in row order. */
  ghost predicate IsLastPlan(rows: seq<StageRun>, i: nat) {
    i < |rows| && HasPlan(rows[i]) && forall k :: i < k < |rows| ==> !HasPlan(rows[k])
  }

  /** loadReviewedPlan: the plan of the review's own cycle, or the last one for a review outside a loop. */
  method LoadReviewedPlan(attemptId: string, cycle: Option<nat>, rows: seq<StageRun>) returns (r: Resolution)
    ensures cycle.Some? ==>
              var plan := PlanOfFirst(rows, StageRunId(attemptId, Plan, cycle.value));
              r == if plan.Some? then Resolved(plan.value) else Missing
    ensures cycle.None? && r.Missing? ==> forall k :: 0 <= k < |rows| ==> !HasPlan(rows[k])
    ensures cycle.None? && r.Resolved? ==> exists i: nat :: IsLastPlan(rows, i) && rows[i].plan == Some(r.plan)
  {
    hide StageRunId, IsBlank;
    if cycle.Some? {
      var plan := PlanOfFirst(rows, StageRunId(attemptId, Plan, cycle.value));
      return if plan.Some? then Resolved(plan.value) else Missing;
    }
    r := Missing;
    for i := 0 to |rows|
      invariant r.Missing? ==> forall k :: 0 <= k < i ==> !HasPlan(rows[k])
      invariant r.Resolved? ==> exists k: nat :: k < i && IsLastPlan(rows[..i], k) && rows[k].plan == Some(r.plan)
    {
      assert rows[..i + 1] == rows[..i] + [rows[i]];
      if HasPlan(rows[i]) {
        r := Resolved(rows[i].plan.value);
        assert IsLastPlan(rows[..i + 1], i);
      } else if r.Resolved? {
        ghost var k: nat :| k < i && IsLastPlan(rows[..i], k) && rows[k].plan == Some(r.plan);
        assert IsLastPlan(rows[..i + 1], k);
      }
    }
    assert rows[..|rows|] == rows;
  }
}
