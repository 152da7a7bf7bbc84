/**
 * The repository as integration sees it: the integration HEAD, the task branches, and the moves that
 * change them. Every patch reaches the integration history at most once.
 */
module GitRepo {
  import opened Options
  import opened CommitGraph

  /** A task branch; the attempt whose patches it carries. */
  datatype Branch = Branch(tip: string, attemptId: string)

  datatype Repo = Repo(graph: Graph, head: string, branches: map<string, Branch>)

  /** No patch occurs twice in the histories of a and b. */
  ghost predicate Unique(g: Graph, a: string, b: string) {
    forall r, q ::
      (r in g && q in g && InHistory(g, r, a, b) && InHistory(g, q, a, b) && g[r].change.Some? && g[r].change == g[q].change) ==>
      r == q
  }

  ghost predicate InHistory(g: Graph, r: string, a: string, b: string) {
    IsAncestor(g, r, a) || IsAncestor(g, r, b)
  }

  /** All that a branch has beyond the integration history are patches of its own attempt. */
  ghost predicate OwnPatchesOnly(g: Graph, head: string, b: Branch) {
    forall r :: r in g && IsAncestor(g, r, b.tip) && !IsAncestor(g, r, head) ==>
      g[r].change.Some? && g[r].change.value.attemptId == b.attemptId
  }

  ghost predicate BranchSound(g: Graph, head: string, b: Branch) {
    b.tip in g && OwnPatchesOnly(g, head, b) && Unique(g, head, b.tip)
  }

  ghost predicate RepoSound(repo: Repo) {
    && WellFormed(repo.graph) && repo.head in repo.graph && Unique(repo.graph, repo.head, repo.head)
    && (forall name :: name in repo.branches ==> BranchSound(repo.graph, repo.head, repo.branches[name]))
    && (forall x, y :: x in repo.branches && y in repo.branches && x != y ==> repo.branches[x].attemptId != repo.branches[y].attemptId)
  }

  // --- Moves ---

  /** Somebody else commits on the integration branch. */
  function Committed(repo: Repo, sha: string): Repo
    requires repo.head in repo.graph
  {
    repo.(graph := WithCommit(repo.graph, sha, repo.head, None), head := sha)
  }

  /** A new attempt has committed its patches on a base. */
  function Prepared(repo: Repo, name: string, attemptId: string, base: string, changes: seq<Change>, shas: seq<string>): Repo
    requires base in repo.graph && |changes| == |shas|
  {
    repo.(graph := WithChain(repo.graph, base, changes, shas),
          branches := repo.branches[name := Branch(ChainTip(base, shas), attemptId)])
  }

  predicate CanPrepare(repo: Repo, name: string, attemptId: string, base: string, changes: seq<Change>, shas: seq<string>) {
    && name !in repo.branches && base in repo.graph && IsAncestor(repo.graph, base, repo.head)
    && |changes| == |shas| && FreshNames(repo.graph, shas)
    && (forall i :: 0 <= i < |changes| ==> changes[i].attemptId == attemptId)
    && (forall i, j :: 0 <= i < j < |changes| ==> changes[i] != changes[j])
    && (forall x :: x in repo.branches ==> repo.branches[x].attemptId != attemptId)
    && (forall r :: r in repo.graph && repo.graph[r].change.Some? ==> repo.graph[r].change.value.attemptId != attemptId)
  }

  /** The branch has been replayed on a revision. */
  function Rebased(repo: Repo, name: string, onto: string, changes: seq<Change>, shas: seq<string>): Repo
    requires name in repo.branches && onto in repo.graph && |changes| == |shas|
  {
    repo.(graph := WithChain(repo.graph, onto, changes, shas),
          branches := repo.branches[name := repo.branches[name].(tip := ChainTip(onto, shas))])
  }

  /** The integration branch has taken the tip of a task branch, if it can be fast-forwarded. */
  function Merged(repo: Repo, name: string): Repo
    requires name in repo.branches
  {
    match MergeFastForward(repo.graph, repo.head, repo.branches[name].tip)
    case Moved(head) => repo.(head := head)
    case _ => repo
  }

  /** All that a branch shares with the integration history is below h. */
  ghost predicate SharedBelow(repo: Repo, tip: string, h: string) {
    forall r :: r in repo.graph && IsAncestor(repo.graph, r, tip) && IsAncestor(repo.graph, r, repo.head) ==>
      IsAncestor(repo.graph, r, h)
  }

  /** History only grows, and HEAD moves to a descendant of itself. */
  ghost predicate Advances(repo: Repo, next: Repo) {
    Extends(repo.graph, next.graph) && IsAncestor(next.graph, repo.head, next.head)
  }

  lemma StandsStill(repo: Repo)
    ensures Advances(repo, repo)
  {
  }

  // --- Every move keeps the repository sound ---

  lemma OldAncestry(g: Graph, n: Graph, b: string)
    requires WellFormed(g) && Extends(g, n) && b in g
    ensures forall a :: IsAncestor(n, a, b) <==> IsAncestor(g, a, b)
    ensures forall a :: IsAncestor(n, a, b) ==> a in g
  {
    forall a ensures IsAncestor(n, a, b) <==> IsAncestor(g, a, b)
             ensures IsAncestor(n, a, b) ==> a in g
    {
      ExtensionKeepsAncestry(g, n, a, b);
      if IsAncestor(g, a, b) {
        AncestorRank(g, a, b);
      }
    }
  }

  lemma UniqueStays(g: Graph, n: Graph, a: string, b: string)
    requires WellFormed(g) && Extends(g, n) && a in g && b in g && Unique(g, a, b)
    ensures Unique(n, a, b)
  {
    OldAncestry(g, n, a);
    OldAncestry(g, n, b);
    hide IsAncestor, WellFormed;
  }

  lemma BranchStays(g: Graph, n: Graph, head: string, b: Branch)
    requires WellFormed(g) && Extends(g, n) && head in g && BranchSound(g, head, b)
    ensures BranchSound(n, head, b)
  {
    OldAncestry(g, n, b.tip);
    OldAncestry(g, n, head);
    UniqueStays(g, n, head, b.tip);
    hide IsAncestor, WellFormed, Unique;
  }

  /** A move that adds commits beside the integration history leaves everything else sound. */
  lemma ExtensionKeepsSound(repo: Repo, n: Graph)
    requires RepoSound(repo) && WellFormed(n) && Extends(repo.graph, n)
    ensures RepoSound(repo.(graph := n))
  {
    UniqueStays(repo.graph, n, repo.head, repo.head);
    forall name | name in repo.branches ensures BranchSound(n, repo.head, repo.branches[name]) {
      BranchStays(repo.graph, n, repo.head, repo.branches[name]);
    }
  }

  /** A commit without a patch of its own on top of the integration history. */
  lemma HeadGrows(n: Graph, head: string, sha: string, b: Branch)
    requires BranchSound(n, head, b) && sha in n && n[sha].change == None
    requires forall a :: IsAncestor(n, a, sha) <==> a == sha || IsAncestor(n, a, head)
    ensures BranchSound(n, sha, b)
  {
    hide IsAncestor;
  }

  lemma CommitKeepsBranch(g: Graph, head: string, sha: string, b: Branch)
    requires WellFormed(g) && head in g && sha !in g && BranchSound(g, head, b)
    ensures BranchSound(WithCommit(g, sha, head, None), sha, b)
  {
    var n := WithCommit(g, sha, head, None);
    NewCommit(g, sha, head, None);
    OldAncestry(g, n, head);
    BranchStays(g, n, head, b);
    assert n[sha].change == None;
    hide IsAncestor, WellFormed, WithCommit, BranchSound;
    HeadGrows(n, head, sha, b);
  }

  lemma CommitKeepsSound(repo: Repo, sha: string)
    requires RepoSound(repo) && sha !in repo.graph
    ensures RepoSound(Committed(repo, sha)) && Advances(repo, Committed(repo, sha))
  {
    var n := WithCommit(repo.graph, sha, repo.head, None);
    NewCommit(repo.graph, sha, repo.head, None);
    CommitKeepsBranch(repo.graph, repo.head, sha, Branch(repo.head, ""));
    assert IsAncestor(repo.graph, repo.head, repo.head);
    assert n[sha].change == None;
    hide IsAncestor, WellFormed, WithCommit;
    assert Unique(n, sha, sha);
    forall name | name in repo.branches ensures BranchSound(n, sha, repo.branches[name]) {
      CommitKeepsBranch(repo.graph, repo.head, sha, repo.branches[name]);
    }
  }

  /** None of the patches is in the integration history. */
  ghost predicate NotIntegrated(g: Graph, head: string, changes: seq<Change>) {
    forall i, r :: 0 <= i < |changes| && r in g && IsAncestor(g, r, head) ==> g[r].change != Some(changes[i])
  }

  ghost predicate OwnDistinct(changes: seq<Change>, attemptId: string) {
    && (forall i :: 0 <= i < |changes| ==> changes[i].attemptId == attemptId)
    && (forall i, j :: 0 <= i < j < |changes| ==> changes[i] != changes[j])
  }

  /** Patches of an attempt that the integration history does not have, committed on a part of that history. */
  lemma ChainIsSound(g: Graph, head: string, onto: string, changes: seq<Change>, shas: seq<string>, attemptId: string)
    requires WellFormed(g) && head in g && onto in g && IsAncestor(g, onto, head) && Unique(g, head, head)
    requires |changes| == |shas| && FreshNames(g, shas) && OwnDistinct(changes, attemptId) && NotIntegrated(g, head, changes)
    ensures BranchSound(WithChain(g, onto, changes, shas), head, Branch(ChainTip(onto, shas), attemptId))
  {
    var n, tip := WithChain(g, onto, changes, shas), ChainTip(onto, shas);
    ChainHistory(g, onto, changes, shas);
    OldAncestry(g, n, head);
    forall a | IsAncestor(g, a, onto) ensures IsAncestor(g, a, head) {
      AncestorTransitive(g, a, onto, head);
    }
    assert tip in n;
    hide IsAncestor, WellFormed, WithChain, ChainTip, FreshNames;
    ChainOwnPatches(g, n, head, tip, changes, shas, attemptId);
    ChainUnique(g, n, head, tip, changes, shas, attemptId);
  }

  lemma ChainOwnPatches(g: Graph, n: Graph, head: string, tip: string, changes: seq<Change>, shas: seq<string>, attemptId: string)
    requires HasChain(g, n, changes, shas) && OwnDistinct(changes, attemptId)
    requires forall a :: IsAncestor(n, a, tip) ==> a in shas || IsAncestor(n, a, head)
    ensures OwnPatchesOnly(n, head, Branch(tip, attemptId))
  {
    hide IsAncestor, WellFormed;
  }

  lemma ChainUnique(g: Graph, n: Graph, head: string, tip: string, changes: seq<Change>, shas: seq<string>, attemptId: string)
    requires HasChain(g, n, changes, shas) && OwnDistinct(changes, attemptId)
    requires Unique(g, head, head) && NotIntegrated(g, head, changes)
    requires forall a :: IsAncestor(n, a, head) ==> a in g && IsAncestor(g, a, head)
    requires forall a :: IsAncestor(n, a, tip) ==> a in shas || IsAncestor(n, a, head)
    ensures Unique(n, head, tip)
  {
    hide IsAncestor, WellFormed, HasChain, NotIntegrated;
    forall r, q | r in n && q in n && InHistory(n, r, head, tip) && InHistory(n, q, head, tip)
                  && n[r].change.Some? && n[r].change == n[q].change
      ensures r == q
    {
      PairOfChain(g, n, head, changes, shas, r, q);
    }
  }

  lemma PairOfChain(g: Graph, n: Graph, head: string, changes: seq<Change>, shas: seq<string>, r: string, q: string)
    requires HasChain(g, n, changes, shas) && Unique(g, head, head) && NotIntegrated(g, head, changes)
    requires forall i, j :: 0 <= i < j < |changes| ==> changes[i] != changes[j]
    requires r in n && q in n && n[r].change.Some? && n[r].change == n[q].change
    requires r in shas || (r in g && IsAncestor(g, r, head))
    requires q in shas || (q in g && IsAncestor(g, q, head))
    ensures r == q
  {
    hide IsAncestor, WellFormed;
    if r in shas {
      var i :| 0 <= i < |shas| && shas[i] == r;
      if q in shas {
        var j :| 0 <= j < |shas| && shas[j] == q;
      }
    } else {
      assert InHistory(g, r, head, head);
      forall j | 0 <= j < |shas| ensures shas[j] != q {
        assert n[shas[j]].change == Some(changes[j]);
      }
      assert InHistory(g, q, head, head);
    }
  }

  /** A sound branch may be put beside the others. */
  lemma BranchKeepsSound(repo: Repo, n: Graph, name: string, b: Branch)
    requires RepoSound(repo) && WellFormed(n) && Extends(repo.graph, n) && BranchSound(n, repo.head, b)
    requires forall x :: x in repo.branches && x != name ==> repo.branches[x].attemptId != b.attemptId
    ensures RepoSound(repo.(graph := n, branches := repo.branches[name := b]))
  {
    ExtensionKeepsSound(repo, n);
    hide BranchSound, Unique, WellFormed, Extends;
  }

  /** A new branch of a new attempt. */
  lemma PrepareKeepsSound(repo: Repo, name: string, attemptId: string, base: string, changes: seq<Change>, shas: seq<string>)
    requires RepoSound(repo) && CanPrepare(repo, name, attemptId, base, changes, shas)
    ensures RepoSound(Prepared(repo, name, attemptId, base, changes, shas))
    ensures Advances(repo, Prepared(repo, name, attemptId, base, changes, shas))
  {
    var n := WithChain(repo.graph, base, changes, shas);
    assert IsAncestor(n, repo.head, repo.head);
    ChainHistory(repo.graph, base, changes, shas);
    ChainIsSound(repo.graph, repo.head, base, changes, shas, attemptId);
    hide IsAncestor, WellFormed, WithChain, ChainTip, FreshNames, BranchSound, Unique, RepoSound;
    BranchKeepsSound(repo, n, name, Branch(ChainTip(base, shas), attemptId));
  }

  /** The patches a replay carries are own patches that the integration history does not have. */
  lemma ReplayedPatches(repo: Repo, name: string, onto: string, changes: seq<Change>, shas: seq<string>)
    requires RepoSound(repo) && name in repo.branches && onto in repo.graph
    requires SharedBelow(repo, repo.branches[name].tip, onto)
    requires IsReplay(repo.graph, repo.branches[name].tip, onto, changes, shas)
    ensures OwnDistinct(changes, repo.branches[name].attemptId) && NotIntegrated(repo.graph, repo.head, changes)
  {
    var g, b := repo.graph, repo.branches[name];
    hide IsAncestor, WellFormed, FreshNames;
    assert BranchSound(g, repo.head, b);
    forall i | 0 <= i < |changes|
      ensures changes[i].attemptId == b.attemptId
      ensures forall q :: q in g && IsAncestor(g, q, repo.head) ==> g[q].change != Some(changes[i])
    {
      assert IsOwnPatch(g, b.tip, onto, changes[i]);
      var r :| r in g && IsAncestor(g, r, b.tip) && !IsAncestor(g, r, onto) && g[r].change == Some(changes[i]);
      assert InHistory(g, r, repo.head, b.tip);
      forall q | q in g && IsAncestor(g, q, repo.head) ensures g[q].change != Some(changes[i]) {
        assert InHistory(g, q, repo.head, b.tip);
      }
    }
  }

  /** Replaying a branch keeps the repository sound when all it shares with the integration history is below the new base. */
  lemma RebaseKeepsSound(repo: Repo, name: string, onto: string, changes: seq<Change>, shas: seq<string>)
    requires RepoSound(repo) && name in repo.branches && onto in repo.graph && IsAncestor(repo.graph, onto, repo.head)
    requires SharedBelow(repo, repo.branches[name].tip, onto)
    requires IsReplay(repo.graph, repo.branches[name].tip, onto, changes, shas)
    ensures RepoSound(Rebased(repo, name, onto, changes, shas))
    ensures var n := Rebased(repo, name, onto, changes, shas);
            Advances(repo, n) && IsAncestor(n.graph, onto, n.branches[name].tip)
  {
    var n := WithChain(repo.graph, onto, changes, shas);
    assert IsAncestor(n, repo.head, repo.head);
    ReplayedPatches(repo, name, onto, changes, shas);
    ChainHistory(repo.graph, onto, changes, shas);
    assert IsAncestor(repo.graph, onto, onto);
    ChainIsSound(repo.graph, repo.head, onto, changes, shas, repo.branches[name].attemptId);
    assert IsAncestor(n, onto, ChainTip(onto, shas));
    hide IsAncestor, WellFormed, WithChain, ChainTip, FreshNames, BranchSound, Unique, IsReplay, SharedBelow;
    assert forall x :: x in repo.branches && x != name ==> repo.branches[x].attemptId != repo.branches[name].attemptId;
    BranchKeepsSound(repo, n, name, Branch(ChainTip(onto, shas), repo.branches[name].attemptId));
  }

  /** Taking one branch keeps another branch sound. */
  lemma MergeKeepsBranch(g: Graph, head: string, a: Branch, b: Branch)
    requires WellFormed(g) && head in g && BranchSound(g, head, a) && BranchSound(g, head, b)
    requires IsAncestor(g, head, a.tip) && a.attemptId != b.attemptId
    ensures BranchSound(g, a.tip, b)
  {
    forall r | IsAncestor(g, r, head) ensures IsAncestor(g, r, a.tip) {
      AncestorTransitive(g, r, head, a.tip);
    }
    hide IsAncestor, WellFormed;
    forall r, q | r in g && q in g && InHistory(g, r, a.tip, b.tip) && InHistory(g, q, a.tip, b.tip)
                  && g[r].change.Some? && g[r].change == g[q].change
      ensures r == q
    {
      assert InHistory(g, r, head, a.tip) || InHistory(g, r, head, b.tip);
      assert InHistory(g, q, head, a.tip) || InHistory(g, q, head, b.tip);
    }
  }

  lemma MergeKeepsSound(repo: Repo, name: string)
    requires RepoSound(repo) && name in repo.branches
    ensures RepoSound(Merged(repo, name)) && Advances(repo, Merged(repo, name))
    ensures Merged(repo, name).graph == repo.graph && Merged(repo, name).branches == repo.branches
    ensures MergeFastForward(repo.graph, repo.head, repo.branches[name].tip) != Diverged ==>
              IsAncestor(repo.graph, repo.branches[name].tip, Merged(repo, name).head)
  {
    var g, a := repo.graph, repo.branches[name];
    assert IsAncestor(g, repo.head, repo.head) && IsAncestor(g, a.tip, a.tip);
    if MergeFastForward(g, repo.head, a.tip) == Moved(a.tip) {
      assert BranchSound(g, repo.head, a);
      hide IsAncestor, WellFormed, MergeFastForward;
      assert forall r :: InHistory(g, r, a.tip, a.tip) ==> InHistory(g, r, repo.head, a.tip);
      assert Unique(g, a.tip, a.tip);
      assert BranchSound(g, a.tip, a);
      hide BranchSound, Unique;
      forall x | x in repo.branches ensures BranchSound(g, a.tip, repo.branches[x]) {
        if x != name {
          MergeKeepsBranch(g, repo.head, a, repo.branches[x]);
        }
      }
    }
  }

  /** Taking another branch adds nothing to what a branch shares with the integration history. */
  lemma MergeKeepsShared(repo: Repo, name: string, other: string, h: string)
    requires RepoSound(repo) && name in repo.branches && other in repo.branches && name != other
    requires SharedBelow(repo, repo.branches[other].tip, h)
    ensures SharedBelow(Merged(repo, name), repo.branches[other].tip, h)
  {
    var g, head, a, b := repo.graph, repo.head, repo.branches[name], repo.branches[other];
    assert BranchSound(g, head, a) && BranchSound(g, head, b);
    hide IsAncestor, WellFormed, Unique;
    if MergeFastForward(g, head, a.tip) == Moved(a.tip) {
      forall r | r in g && IsAncestor(g, r, b.tip) && IsAncestor(g, r, a.tip) ensures IsAncestor(g, r, h) {
        assert IsAncestor(g, r, head);
      }
    }
  }

  lemma DeleteKeepsSound(repo: Repo, name: string)
    requires RepoSound(repo)
    ensures RepoSound(repo.(branches := repo.branches - {name})) && Advances(repo, repo.(branches := repo.branches - {name}))
  {
    StandsStill(repo);
    hide BranchSound, Unique, WellFormed, IsAncestor;
  }

  /** A commit of somebody else shares nothing with a task branch. */
  lemma CommitKeepsShared(repo: Repo, sha: string, tip: string, h: string)
    requires RepoSound(repo) && sha !in repo.graph && tip in repo.graph && h in repo.graph && SharedBelow(repo, tip, h)
    ensures SharedBelow(Committed(repo, sha), tip, h)
  {
    var g, n := repo.graph, Committed(repo, sha).graph;
    assert WellFormed(g) && repo.head in g;
    NewCommit(g, sha, repo.head, None);
    OldAncestry(g, n, tip);
    OldAncestry(g, n, h);
    hide IsAncestor, WellFormed, RepoSound, WithCommit;
  }

  /** Neither does a new branch beside it. */
  lemma PrepareKeepsShared(repo: Repo, n: Graph, tip: string, h: string)
    requires RepoSound(repo) && Extends(repo.graph, n) && tip in repo.graph && h in repo.graph && SharedBelow(repo, tip, h)
    ensures forall branches :: SharedBelow(Repo(n, repo.head, branches), tip, h)
  {
    var g := repo.graph;
    assert WellFormed(g) && repo.head in g;
    OldAncestry(g, n, tip);
    OldAncestry(g, n, h);
    OldAncestry(g, n, repo.head);
    hide IsAncestor, WellFormed, RepoSound;
  }

  /** What is in the integration history stays in it. */
  lemma HistoryStays(repo: Repo, next: Repo, a: string, b: string)
    requires RepoSound(repo) && Advances(repo, next) && b in repo.graph && IsAncestor(repo.graph, a, b)
    ensures b in next.graph && IsAncestor(next.graph, a, b)
    ensures IsAncestor(repo.graph, b, repo.head) ==> IsAncestor(next.graph, b, next.head)
  {
    assert WellFormed(repo.graph) && repo.head in repo.graph;
    ExtensionKeepsAncestry(repo.graph, next.graph, a, b);
    ExtensionKeepsAncestry(repo.graph, next.graph, b, repo.head);
    if IsAncestor(repo.graph, b, repo.head) {
      AncestorTransitive(next.graph, b, repo.head, next.head);
    }
  }
}
