/** A commit history: ancestry, chains of new commits, rebase and fast-forward. */
module CommitGraph {
  import opened Options

  /** A patch of an attempt; a rebased commit carries the patch of the commit it replays. */
  datatype Change = Change(attemptId: string, patch: string)

  /** The rank orders a commit after its parents. */
  datatype Commit = Commit(parents: set<string>, rank: nat, change: Option<Change>)

  type Graph = map<string, Commit>

  predicate WellFormed(g: Graph) {
    forall r, p :: r in g && p in g[r].parents ==> p in g && g[p].rank < g[r].rank
  }

  /** `git merge-base --is-ancestor a b`; every revision is its own ancestor. */
  predicate IsAncestor(g: Graph, a: string, b: string)
    decreases if b in g then g[b].rank else 0
  {
    a == b || (b in g && exists p :: p in g[b].parents && p in g && g[p].rank < g[b].rank && IsAncestor(g, a, p))
  }

  lemma {:induction false} AncestorTransitive(g: Graph, a: string, b: string, c: string)
    requires IsAncestor(g, a, b) && IsAncestor(g, b, c)
    ensures IsAncestor(g, a, c)
    decreases if c in g then g[c].rank else 0
  {
    if b != c {
      var p :| p in g[c].parents && p in g && g[p].rank < g[c].rank && IsAncestor(g, b, p);
      AncestorTransitive(g, a, b, p);
    }
  }

  /** A proper ancestor is a commit of lower rank. */
  lemma {:induction false} AncestorRank(g: Graph, a: string, b: string)
    requires IsAncestor(g, a, b) && b in g
    ensures a in g && (a != b ==> g[a].rank < g[b].rank)
    decreases if b in g then g[b].rank else 0
  {
    if a != b {
      var p :| p in g[b].parents && p in g && g[p].rank < g[b].rank && IsAncestor(g, a, p);
      AncestorRank(g, a, p);
    }
  }

  lemma AncestorAntisymmetric(g: Graph, a: string, b: string)
    requires a in g && b in g && IsAncestor(g, a, b) && IsAncestor(g, b, a)
    ensures a == b
  {
    AncestorRank(g, a, b);
    AncestorRank(g, b, a);
  }

  /** The second graph has all commits of the first. */
  ghost predicate Extends(g: Graph, n: Graph) {
    forall r :: r in g ==> r in n && n[r] == g[r]
  }

  /** New commits change no ancestry among old ones. */
  lemma {:induction false} ExtensionKeepsAncestry(g: Graph, n: Graph, a: string, b: string)
    requires WellFormed(g) && Extends(g, n) && b in g
    ensures IsAncestor(n, a, b) <==> IsAncestor(g, a, b)
    decreases if b in g then g[b].rank else 0
  {
    if a != b {
      forall p | p in g[b].parents ensures IsAncestor(n, a, p) <==> IsAncestor(g, a, p) {
        ExtensionKeepsAncestry(g, n, a, p);
      }
    }
  }

  /** A commit on top of another. */
  function WithCommit(g: Graph, sha: string, parent: string, change: Option<Change>): (n: Graph)
    requires parent in g
  {
    g[sha := Commit({parent}, g[parent].rank + 1, change)]
  }

  lemma NewCommit(g: Graph, sha: string, parent: string, change: Option<Change>)
    requires WellFormed(g) && parent in g && sha !in g
    ensures var n := WithCommit(g, sha, parent, change);
            WellFormed(n) && Extends(g, n) && forall a :: IsAncestor(n, a, sha) <==> a == sha || IsAncestor(g, a, parent)
  {
    var n := WithCommit(g, sha, parent, change);
    assert n[sha].parents == {parent} && n[parent] == g[parent];
    forall a ensures IsAncestor(n, a, sha) <==> a == sha || IsAncestor(g, a, parent) {
      ExtensionKeepsAncestry(g, n, a, parent);
    }
  }

  predicate FreshNames(g: Graph, shas: seq<string>) {
    && (forall i :: 0 <= i < |shas| ==> shas[i] !in g)
    && (forall i, j :: 0 <= i < j < |shas| ==> shas[i] != shas[j])
  }

  /** The graph after committing the changes one after the other on top of a revision. */
  function WithChain(g: Graph, onto: string, changes: seq<Change>, shas: seq<string>): Graph
    requires onto in g && |changes| == |shas|
    decreases |changes|
  {
    if changes == [] then g
    else WithChain(WithCommit(g, shas[0], onto, Some(changes[0])), shas[0], changes[1..], shas[1..])
  }

  function ChainTip(onto: string, shas: seq<string>): string {
    if shas == [] then onto else shas[|shas| - 1]
  }

  /** The chain's commits are there, with their patches, on top of the old graph. */
  ghost predicate HasChain(g: Graph, n: Graph, changes: seq<Change>, shas: seq<string>) {
    && WellFormed(n) && Extends(g, n) && |changes| == |shas|
    && (forall r :: r in n <==> r in g || r in shas)
    && (forall i :: 0 <= i < |shas| ==> shas[i] in n && n[shas[i]].change == Some(changes[i]))
  }

  lemma HasChainCons(g: Graph, m: Graph, n: Graph, change: Change, sha: string, changes: seq<Change>, shas: seq<string>)
    requires Extends(g, m) && (forall r :: r in m <==> r in g || r == sha) && m[sha].change == Some(change)
    requires HasChain(m, n, changes, shas)
    ensures HasChain(g, n, [change] + changes, [sha] + shas)
  {
    hide WellFormed;
    assert n[sha] == m[sha];
  }

  /** A chain adds its commits to the history below it, in order, and nothing else. */
  lemma {:induction false} ChainHistory(g: Graph, onto: string, changes: seq<Change>, shas: seq<string>)
    requires WellFormed(g) && onto in g && |changes| == |shas| && FreshNames(g, shas)
    ensures var n := WithChain(g, onto, changes, shas);
            && HasChain(g, n, changes, shas)
            && forall a :: IsAncestor(n, a, ChainTip(onto, shas)) <==> a in shas || IsAncestor(g, a, onto)
    decreases |changes|
  {
    if changes != [] {
      var m := WithCommit(g, shas[0], onto, Some(changes[0]));
      NewCommit(g, shas[0], onto, Some(changes[0]));
      assert m[shas[0]].change == Some(changes[0]);
      assert forall r :: r in m <==> r in g || r == shas[0];
      ChainHistory(m, shas[0], changes[1..], shas[1..]);
      ChainUnfold(g, onto, changes, shas);
      hide WithCommit, WithChain, ChainTip, IsAncestor, WellFormed, HasChain;
      HasChainCons(g, m, WithChain(g, onto, changes, shas), changes[0], shas[0], changes[1..], shas[1..]);
      assert shas == [shas[0]] + shas[1..] && changes == [changes[0]] + changes[1..];
    }
  }

  lemma ChainUnfold(g: Graph, onto: string, changes: seq<Change>, shas: seq<string>)
    requires onto in g && |changes| == |shas| && changes != []
    ensures WithChain(g, onto, changes, shas) ==
            WithChain(WithCommit(g, shas[0], onto, Some(changes[0])), shas[0], changes[1..], shas[1..])
    ensures ChainTip(onto, shas) == ChainTip(shas[0], shas[1..])
  {
    hide WithCommit;
  }

  /** A patch that tip has and base has not. */
  predicate IsOwnPatch(g: Graph, tip: string, base: string, c: Change) {
    exists r :: r in g && IsAncestor(g, r, tip) && !IsAncestor(g, r, base) && g[r].change == Some(c)
  }

  /** A commit of the history of a revision carries the patch. */
  predicate Carries(g: Graph, revision: string, c: Change) {
    exists r :: r in g && IsAncestor(g, r, revision) && g[r].change == Some(c)
  }

  /** No patch of the branch is left behind: the new base has it, or it is replayed. */
  predicate KeepsPatches(g: Graph, tip: string, onto: string, changes: seq<Change>) {
    forall r :: r in g && IsAncestor(g, r, tip) && g[r].change.Some? ==>
      Carries(g, onto, g[r].change.value) || g[r].change.value in changes
  }

  /** Replaying a branch on a revision: its own patches that the revision has not, each once, as new commits. */
  predicate IsReplay(g: Graph, tip: string, onto: string, changes: seq<Change>, shas: seq<string>) {
    && |changes| == |shas| && FreshNames(g, shas) && KeepsPatches(g, tip, onto, changes)
    && (forall i :: 0 <= i < |changes| ==> IsOwnPatch(g, tip, onto, changes[i]))
    && (forall i, j :: 0 <= i < j < |changes| ==> changes[i] != changes[j])
  }

  datatype FastForward = Moved(head: string) | UpToDate | Diverged

  /** `git merge --ff-only tip` at head. */
  function MergeFastForward(g: Graph, head: string, tip: string): FastForward {
    if IsAncestor(g, tip, head) then UpToDate
    else if IsAncestor(g, head, tip) then Moved(tip)
    else Diverged
  }
}
