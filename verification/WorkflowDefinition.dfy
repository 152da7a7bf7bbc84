/** Workflow definitions and their validation (packages/core/src/domain/workflow-definition.ts). */
module WorkflowDefinition {
  import opened Text

  datatype Stage = Plan | PlanReview | Implement | CodeReview | Verify | Integrate

  const LIFECYCLE: seq<Stage> := [Plan, PlanReview, Implement, CodeReview, Verify, Integrate]
  const BACKBONE: seq<Stage> := [Implement, Verify, Integrate]

  datatype Issue =
    | EmptyId
    | EmptyStages
    | DuplicateStage(stage: Stage, firstIndex: nat, duplicateIndex: nat)
    | InvalidOrder(before: Stage, after: Stage)
    | MissingStage(stage: Stage)

  /** The position of a stage in the lifecycle. */
  function Rank(s: Stage): (r: nat)
    ensures r < |LIFECYCLE| && LIFECYCLE[r] == s
  {
    match s
    case Plan => 0
    case PlanReview => 1
    case Implement => 2
    case CodeReview => 3
    case Verify => 4
    case Integrate => 5
  }

  predicate IsFirst(stages: seq<Stage>, i: nat) {
    i < |stages| && forall k :: 0 <= k < i ==> stages[k] != stages[i]
  }

  predicate IsDuplicate(stages: seq<Stage>, first: nat, i: nat) {
    first < i < |stages| && IsFirst(stages, first) && stages[first] == stages[i]
  }

  /** Two neighbours out of order. */
  ghost predicate IsMisplaced(stages: seq<Stage>, before: Stage, after: Stage) {
    exists i :: 0 < i < |stages| && stages[i] == before && stages[i - 1] == after && Rank(after) > Rank(before)
  }

  /** validateWorkflowDefinition: the issues found; the definition is valid when there are none. */
  method Validate(id: string, stages: seq<Stage>) returns (issues: seq<Issue>)
    ensures EmptyId in issues <==> Trim(id) == ""
    ensures EmptyStages in issues <==> stages == []
    ensures forall s, f: nat, d: nat :: DuplicateStage(s, f, d) in issues <==> IsDuplicate(stages, f, d) && s == stages[d]
    ensures forall before, after :: InvalidOrder(before, after) in issues <==> IsMisplaced(stages, before, after)
    ensures forall s :: MissingStage(s) in issues <==> s in BACKBONE && s !in stages
    ensures issues == [] <==> Trim(id) != "" && IsSubsequence(stages, LIFECYCLE) && forall s :: s in BACKBONE ==> s in stages
  {
    hide Trim, Rank, IsDuplicate, IsMisplaced, IsSubsequence;
    issues := [];
    if |Trim(id)| == 0 {
      issues := issues + [EmptyId];
    }
    if |stages| == 0 {
      issues := issues + [EmptyStages];
    }
    var duplicates, firstIndex := FindDuplicates(stages);
    var misplaced := FindMisplaced(stages);
    var missing := FindMissing(stages, firstIndex);
    assert issues == [] <==> Trim(id) != "" && stages != [];
    assert |issues + duplicates + misplaced + missing| == |issues| + |duplicates| + |misplaced| + |missing|;
    issues := issues + duplicates + misplaced + missing;
    ValidIsSubsequence(stages, duplicates, misplaced);
    assert missing == [] <==> forall s :: s in BACKBONE ==> s in stages by {
      if missing != [] {
        assert missing[0] in missing;
      }
      assert forall s :: s in BACKBONE && s !in stages ==> MissingStage(s) in missing;
    }
    assert BACKBONE[0] in BACKBONE;
  }

  /** The first loop. */
  method FindDuplicates(stages: seq<Stage>) returns (issues: seq<Issue>, firstIndex: map<Stage, nat>)
    ensures forall x :: x in issues ==> x.DuplicateStage? && IsDuplicate(stages, x.firstIndex, x.duplicateIndex) && x.stage == stages[x.duplicateIndex]
    ensures forall f: nat, d: nat :: IsDuplicate(stages, f, d) ==> DuplicateStage(stages[d], f, d) in issues
    ensures forall s :: s in firstIndex <==> s in stages
  {
    issues, firstIndex := [], map[];
    for i := 0 to |stages|
      invariant forall s :: s in firstIndex <==> s in stages[..i]
      invariant forall s :: s in firstIndex ==> firstIndex[s] < i && stages[firstIndex[s]] == s && IsFirst(stages, firstIndex[s])
      invariant forall x :: x in issues ==> x.DuplicateStage? && IsDuplicate(stages, x.firstIndex, x.duplicateIndex) && x.stage == stages[x.duplicateIndex]
      invariant forall f: nat, d: nat :: d < i && IsDuplicate(stages, f, d) ==> DuplicateStage(stages[d], f, d) in issues
    {
      var stage := stages[i];
      assert stages[..i + 1] == stages[..i] + [stage];
      if stage !in firstIndex {
        assert IsFirst(stages, i) by {
          assert forall k :: 0 <= k < i ==> stages[k] in stages[..i];
        }
        firstIndex := firstIndex[stage := i];
      } else {
        issues := issues + [DuplicateStage(stage, firstIndex[stage], i)];
      }
    }
    assert stages[..|stages|] == stages;
  }

  /** The second loop: neighbours only. */
  method FindMisplaced(stages: seq<Stage>) returns (issues: seq<Issue>)
    ensures forall x :: x in issues <==> x.InvalidOrder? && IsMisplaced(stages, x.before, x.after)
  {
    hide Rank;
    issues := [];
    if stages == [] {
      return;
    }
    for i := 1 to |stages|
      invariant forall x :: x in issues ==> x.InvalidOrder? && IsMisplaced(stages, x.before, x.after)
      invariant forall k :: 0 < k < i && Rank(stages[k - 1]) > Rank(stages[k]) ==> InvalidOrder(stages[k], stages[k - 1]) in issues
    {
      if Rank(stages[i - 1]) > Rank(stages[i]) {
        issues := issues + [InvalidOrder(stages[i], stages[i - 1])];
      }
    }
  }

  /** The third loop. */
  method FindMissing(stages: seq<Stage>, firstIndex: map<Stage, nat>) returns (issues: seq<Issue>)
    requires forall s :: s in firstIndex <==> s in stages
    ensures forall x :: x in issues <==> x.MissingStage? && x.stage in BACKBONE && x.stage !in stages
  {
    issues := [];
    for i := 0 to |BACKBONE|
      invariant forall x :: x in issues <==> x.MissingStage? && x.stage in BACKBONE[..i] && x.stage !in stages
    {
      assert BACKBONE[..i + 1] == BACKBONE[..i] + [BACKBONE[i]];
      if BACKBONE[i] !in firstIndex {
        issues := issues + [MissingStage(BACKBONE[i])];
      }
    }
    assert BACKBONE[..|BACKBONE|] == BACKBONE;
  }

  // --- Validity is global order ---

  predicate IsSubsequence<T(==)>(a: seq<T>, b: seq<T>) {
    a == [] || (b != [] && ((a[0] == b[0] && IsSubsequence(a[1..], b[1..])) || IsSubsequence(a, b[1..])))
  }

  ghost predicate StrictlyAscending(stages: seq<Stage>) {
    forall i, j :: 0 <= i < j < |stages| ==> Rank(stages[i]) < Rank(stages[j])
  }

  /** Every stage occurs once and no neighbours are out of order: the checks of the code. */
  ghost predicate LocallyOrdered(stages: seq<Stage>) {
    && (forall f: nat, d: nat :: !IsDuplicate(stages, f, d))
    && (forall i :: 0 < i < |stages| ==> Rank(stages[i - 1]) <= Rank(stages[i]))
  }

  lemma {:induction false} FirstOccurrence(stages: seq<Stage>, i: nat) returns (f: nat)
    requires i < |stages|
    ensures f <= i && IsFirst(stages, f) && stages[f] == stages[i]
    decreases i
  {
    if IsFirst(stages, i) {
      f := i;
    } else {
      var k :| 0 <= k < i && stages[k] == stages[i];
      f := FirstOccurrence(stages, k);
    }
  }

  lemma NeighboursDiffer(stages: seq<Stage>, i: nat)
    requires LocallyOrdered(stages) && 0 < i < |stages|
    ensures Rank(stages[i - 1]) < Rank(stages[i])
  {
    hide Rank;
    var f := FirstOccurrence(stages, i - 1);
    assert !IsDuplicate(stages, f, i);
    assert LIFECYCLE[Rank(stages[i - 1])] == stages[i - 1] && LIFECYCLE[Rank(stages[i])] == stages[i];
  }

  /** The checks of neighbours and duplicates lift to the order of all stages. */
  lemma {:induction false} LocalOrderIsGlobal(stages: seq<Stage>, i: nat, j: nat)
    requires LocallyOrdered(stages) && i < j < |stages|
    ensures Rank(stages[i]) < Rank(stages[j])
    decreases j
  {
    NeighboursDiffer(stages, j);
    if i < j - 1 {
      LocalOrderIsGlobal(stages, i, j - 1);
    }
  }

  lemma {:induction false} AscendingIsSubsequence(stages: seq<Stage>, from: nat)
    requires StrictlyAscending(stages) && from <= |LIFECYCLE|
    requires stages != [] ==> from <= Rank(stages[0])
    ensures IsSubsequence(stages, LIFECYCLE[from..])
    decreases |LIFECYCLE| - from
  {
    if stages != [] {
      hide Rank;
      assert LIFECYCLE[from..][0] == LIFECYCLE[from] && LIFECYCLE[from..][1..] == LIFECYCLE[from + 1..];
      if Rank(stages[0]) == from {
        assert stages[0] == LIFECYCLE[from];
        AscendingIsSubsequence(stages[1..], from + 1);
      } else {
        AscendingIsSubsequence(stages, from + 1);
      }
    }
  }

  lemma {:induction false} SubsequenceIsAscending(stages: seq<Stage>, from: nat)
    requires from <= |LIFECYCLE| && IsSubsequence(stages, LIFECYCLE[from..])
    ensures StrictlyAscending(stages)
    ensures forall i :: 0 <= i < |stages| ==> from <= Rank(stages[i])
    decreases |LIFECYCLE| - from
  {
    if stages != [] {
      assert LIFECYCLE[from..][0] == LIFECYCLE[from] && LIFECYCLE[from..][1..] == LIFECYCLE[from + 1..];
      if IsSubsequence(stages, LIFECYCLE[from + 1..]) {
        SubsequenceIsAscending(stages, from + 1);
      } else {
        SubsequenceIsAscending(stages[1..], from + 1);
        RankAt(from);
        hide Rank;
        forall i | 0 <= i < |stages| ensures from <= Rank(stages[i]) && (i > 0 ==> from < Rank(stages[i])) {
          assert i > 0 ==> stages[i] == stages[1..][i - 1];
        }
        forall i, j | 0 <= i < j < |stages| ensures Rank(stages[i]) < Rank(stages[j]) {
          assert i > 0 ==> stages[i] == stages[1..][i - 1] && stages[j] == stages[1..][j - 1];
        }
      }
    }
  }

  lemma RankAt(i: nat)
    requires i < |LIFECYCLE|
    ensures Rank(LIFECYCLE[i]) == i
  {
  }

  /** The local checks accept exactly the subsequences of the lifecycle. */
  lemma LocalOrderIsExact(stages: seq<Stage>)
    ensures LocallyOrdered(stages) <==> IsSubsequence(stages, LIFECYCLE)
  {
    assert LIFECYCLE[0..] == LIFECYCLE;
    if LocallyOrdered(stages) {
      forall i, j | 0 <= i < j < |stages| ensures Rank(stages[i]) < Rank(stages[j]) {
        LocalOrderIsGlobal(stages, i, j);
      }
      AscendingIsSubsequence(stages, 0);
    }
    if IsSubsequence(stages, LIFECYCLE) {
      SubsequenceIsAscending(stages, 0);
    }
  }

  lemma ValidIsSubsequence(stages: seq<Stage>, duplicates: seq<Issue>, misplaced: seq<Issue>)
    requires forall x :: x in duplicates ==> x.DuplicateStage? && IsDuplicate(stages, x.firstIndex, x.duplicateIndex)
    requires forall f: nat, d: nat :: IsDuplicate(stages, f, d) ==> DuplicateStage(stages[d], f, d) in duplicates
    requires forall x :: x in misplaced <==> x.InvalidOrder? && IsMisplaced(stages, x.before, x.after)
    ensures duplicates == [] && misplaced == [] <==> IsSubsequence(stages, LIFECYCLE)
  {
    LocalOrderIsExact(stages);
    hide Rank, IsSubsequence;
    if duplicates != [] {
      assert duplicates[0] in duplicates;
    }
    if misplaced != [] {
      assert misplaced[0] in misplaced;
    }
    forall i | 0 < i < |stages| && Rank(stages[i - 1]) > Rank(stages[i]) ensures misplaced != [] {
      assert InvalidOrder(stages[i], stages[i - 1]) in misplaced;
    }
  }
}
