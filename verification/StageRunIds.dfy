/**
 * Stage-run identities and the cycle numbers encoded in them (packages/orchestrator/src/plan-stage.ts,
 * plan-review-stage.ts, implement-stage.ts, code-review-stage.ts and workflow-executor.ts).
 */
module StageRunIds {
  import opened Options
  import opened WorkflowDefinition

  predicate IsDigit(c: char) {
    '0' <= c <= '9'
  }

  /** `/^\d+$/`. */
  predicate IsDigits(s: string) {
    s != "" && forall i :: 0 <= i < |s| ==> IsDigit(s[i])
  }

  /** `String(n)` of a non-negative integer. */
  function Decimal(n: nat): (s: string)
    ensures IsDigits(s)
  {
    if n < 10 then [('0' as int + n) as char] else Decimal(n / 10) + [('0' as int + n % 10) as char]
  }

  /** `Number.parseInt(s, 10)` of digits. */
  function ParseDecimal(s: string): nat
    requires forall i :: 0 <= i < |s| ==> IsDigit(s[i])
  {
    if s == "" then 0 else
      assert IsDigit(s[|s| - 1]);
      10 * ParseDecimal(s[..|s| - 1]) + (s[|s| - 1] as int - '0' as int)
  }

  lemma {:induction false} DecimalReadsBack(n: nat)
    ensures ParseDecimal(Decimal(n)) == n
  {
    if n < 10 {
      assert Decimal(n)[..0] == "";
    } else {
      DecimalReadsBack(n / 10);
      assert Decimal(n)[..|Decimal(n)| - 1] == Decimal(n / 10);
    }
  }

  function StageName(s: Stage): string {
    match s
    case Plan => "PLAN"
    case PlanReview => "PLAN_REVIEW"
    case Implement => "IMPLEMENT"
    case CodeReview => "CODE_REVIEW"
    case Verify => "VERIFY"
    case Integrate => "INTEGRATE"
  }

  function BaseId(attemptId: string, s: Stage): string {
    "stage_" + attemptId + "_" + StageName(s)
  }

  /** planStageRunId and its siblings. */
  function StageRunId(attemptId: string, s: Stage, cycle: nat): string {
    if cycle <= 1 then BaseId(attemptId, s) else BaseId(attemptId, s) + "_c" + Decimal(cycle)
  }

  predicate MarkerAt(s: string, i: nat) {
    i + 2 <= |s| && s[i] == '_' && s[i + 1] == 'c'
  }

  /** `s.lastIndexOf("_c")` among the first n positions; None for -1. */
  function LastMarker(s: string, n: nat): (r: Option<nat>)
    requires n <= |s|
    ensures r.Some? ==> r.value < n && MarkerAt(s, r.value) && forall k: nat :: r.value < k < n ==> !MarkerAt(s, k)
    ensures r.None? ==> forall k: nat :: k < n ==> !MarkerAt(s, k)
  {
    if n == 0 then None else if MarkerAt(s, n - 1) then Some(n - 1) else LastMarker(s, n - 1)
  }

  /** stageRunCycleOf of the workflow executor: by the last marker. */
  function CycleByLastMarker(id: string): nat {
    var index := LastMarker(id, |id|);
    var suffix := if index.None? then "" else id[index.value + 2..];
    if IsDigits(suffix) then ParseDecimal(suffix) else 1
  }

  /** stageRunCycleOf of the code review stage: by the base identity. */
  function CycleByBase(base: string, id: string): Option<nat> {
    if id == base then Some(1)
    else if !(base + "_c" <= id) then None
    else
      var suffix := id[|base| + 2..];
      if IsDigits(suffix) then Some(ParseDecimal(suffix)) else None
  }

  lemma StageNameEnds(s: Stage)
    ensures var name := StageName(s); |name| >= 4 && !IsDigit(name[|name| - 1]) && name[|name| - 1] != 'c'
  {
  }

  /** The cycle comes back from the identity, for every attempt id: by the last marker. */
  lemma CycleReadsBack(attemptId: string, s: Stage, cycle: nat)
    requires cycle >= 1
    ensures CycleByLastMarker(StageRunId(attemptId, s, cycle)) == cycle
  {
    var base, id := BaseId(attemptId, s), StageRunId(attemptId, s, cycle);
    StageNameEnds(s);
    assert base[|base| - 1] == StageName(s)[|StageName(s)| - 1];
    hide BaseId, StageName;
    if cycle == 1 {
      BaseHasCycleOne(id);
    } else {
      MarkedCycle(base, cycle);
    }
  }

  lemma BaseHasCycleOne(id: string)
    requires id != "" && !IsDigit(id[|id| - 1]) && id[|id| - 1] != 'c'
    ensures CycleByLastMarker(id) == 1
  {
    var index := LastMarker(id, |id|);
    if index.Some? {
      var suffix := id[index.value + 2..];
      assert suffix != "" && suffix[|suffix| - 1] == id[|id| - 1];
    }
  }

  lemma MarkedCycle(base: string, cycle: nat)
    ensures CycleByLastMarker(base + "_c" + Decimal(cycle)) == cycle
  {
    var digits := Decimal(cycle);
    var id := base + "_c" + digits;
    hide Decimal;
    assert MarkerAt(id, |base|);
    forall k: nat | |base| < k < |id| ensures !MarkerAt(id, k) {
      if k >= |base| + 2 {
        assert id[k] == digits[k - |base| - 2];
      }
    }
    assert LastMarker(id, |id|) == Some(|base|);
    assert id[|base| + 2..] == digits;
    DecimalReadsBack(cycle);
  }

  /** The cycle comes back from the identity: by the base. */
  lemma CycleReadsBackByBase(attemptId: string, s: Stage, cycle: nat)
    requires cycle >= 1
    ensures CycleByBase(BaseId(attemptId, s), StageRunId(attemptId, s, cycle)) == Some(cycle)
  {
    var base, id := BaseId(attemptId, s), StageRunId(attemptId, s, cycle);
    hide BaseId;
    if cycle > 1 {
      assert id[|base| + 2..] == Decimal(cycle);
      DecimalReadsBack(cycle);
    }
  }

  /** What follows the common beginning of the identities of one attempt. */
  function Tail(s: Stage, cycle: nat): string {
    if cycle <= 1 then StageName(s) else StageName(s) + "_c" + Decimal(cycle)
  }

  lemma IdHasTail(attemptId: string, s: Stage, cycle: nat)
    ensures StageRunId(attemptId, s, cycle) == "stage_" + attemptId + "_" + Tail(s, cycle)
  {
    hide StageName, Decimal;
    var front := "stage_" + attemptId + "_";
    assert front + StageName(s) + "_c" + Decimal(cycle) == front + (StageName(s) + "_c" + Decimal(cycle));
  }

  /** The first characters of the tail tell the stage. */
  lemma TailsDiffer(s: Stage, t: Stage, c: nat, d: nat)
    requires s != t
    ensures Tail(s, c) != Tail(t, d)
  {
    var x, y := Tail(s, c), Tail(t, d);
    assert |x| >= 4 && x[0] == StageName(s)[0] && x[1] == StageName(s)[1];
    assert |y| >= 4 && y[0] == StageName(t)[0] && y[1] == StageName(t)[1];
    assert s == Plan ==> x == "PLAN" || x[5] == 'c';
    assert t == Plan ==> y == "PLAN" || y[5] == 'c';
    assert s == PlanReview ==> x[5] == 'R';
    assert t == PlanReview ==> y[5] == 'R';
  }

  /** Within an attempt every stage and cycle has its own identity, and only that attempt, stage and cycle has it. */
  lemma IdsAreDistinct(attemptId: string, s: Stage, t: Stage, c: nat, d: nat)
    requires c >= 1 && d >= 1
    ensures StageRunId(attemptId, s, c) == StageRunId(attemptId, t, d) <==> s == t && c == d
  {
    if s == t {
      CycleReadsBack(attemptId, s, c);
      CycleReadsBack(attemptId, t, d);
    } else {
      TailsDiffer(s, t, c, d);
      IdHasTail(attemptId, s, c);
      IdHasTail(attemptId, t, d);
      hide StageRunId, Tail;
      var front := "stage_" + attemptId + "_";
      assert (front + Tail(s, c))[|front|..] == Tail(s, c);
      assert (front + Tail(t, d))[|front|..] == Tail(t, d);
    }
  }
}
