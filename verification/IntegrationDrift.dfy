/** Drift of an attempt's base (packages/core/src/domain/integration-drift.ts) over a commit history. */
module IntegrationDrift {
  import opened CommitGraph

  datatype Drift = AlreadyIntegrated | Unsafe | Current | Drifting

  /** evaluateIntegrationBaseDrift, from the three ancestry facts. */
  function Evaluate(integrated: bool, descendsFromBase: bool, headIsBase: bool, baseBelowHead: bool): Drift {
    if integrated then AlreadyIntegrated
    else if !descendsFromBase then Unsafe
    else if headIsBase then Current
    else if !baseBelowHead then Unsafe
    else Drifting
  }

  /** The drift of a task revision with its base at an integration HEAD. */
  function DriftOf(g: Graph, base: string, revision: string, head: string): Drift {
    Evaluate(IsAncestor(g, revision, head), IsAncestor(g, base, revision), head == base, IsAncestor(g, base, head))
  }

  /** A current revision is exactly what a fast-forward takes, as long as HEAD stays. */
  lemma CurrentFastForwards(g: Graph, base: string, revision: string, head: string)
    ensures DriftOf(g, base, revision, head) == Current ==> MergeFastForward(g, head, revision) == Moved(revision)
    ensures head == base ==> (DriftOf(g, base, revision, head) == Current <==> MergeFastForward(g, head, revision).Moved?)
  {
    hide IsAncestor;
  }

  /** Whatever is not called unsafe shares its base with the integration history, and a drifting base lies strictly below HEAD. */
  lemma DriftKeepsBase(g: Graph, base: string, revision: string, head: string)
    requires head in g
    ensures DriftOf(g, base, revision, head) in {Current, Drifting} ==>
              IsAncestor(g, base, head) && IsAncestor(g, base, revision) && !IsAncestor(g, revision, head)
    ensures DriftOf(g, base, revision, head) == Drifting ==> base in g && g[base].rank < g[head].rank
  {
    if DriftOf(g, base, revision, head) == Drifting {
      AncestorRank(g, base, head);
    }
  }
}
