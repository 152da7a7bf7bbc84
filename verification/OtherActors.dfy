/**
 * What the moves of the other actors come to: commits of others, new attempts, their enqueued tips, and the
 * fast-forwards of crash recovery. The queue processor has to cope with all of them.
 */
module OtherActors {
  import opened Options
  import opened CommitGraph
  import opened GitRepo
  import opened QueueProcessor
  import opened QueueSafety
  import Q = IntegrationQueue

  /** A commit of others becomes HEAD, on top of the history so far, and carries nothing new. */
  lemma OthersMoveHead(w: World, sha: string)
    requires RepoSound(w.repo) && sha !in w.repo.graph
    ensures var n := After(w, OthersCommit(sha));
            && n.repo.head == sha && n.repo.branches == w.repo.branches && n.(repo := w.repo) == w
            && (forall a :: IsAncestor(n.repo.graph, a, sha) <==> a == sha || IsAncestor(w.repo.graph, a, w.repo.head))
            && (forall c :: Carries(n.repo.graph, sha, c) <==> Carries(w.repo.graph, w.repo.head, c))
  {
    var g, head := w.repo.graph, w.repo.head;
    assert WellFormed(g) && head in g;
    NewCommit(g, sha, head, None);
    hide RepoSound, IsAncestor, WellFormed;
    var n := WithCommit(g, sha, head, None);
    forall c ensures Carries(n, sha, c) <==> Carries(g, head, c) {
      NothingNew(g, sha, head, c);
    }
  }

  lemma NothingNew(g: Graph, sha: string, parent: string, c: Change)
    requires parent in g && sha !in g
    requires forall a :: IsAncestor(WithCommit(g, sha, parent, None), a, sha) <==> a == sha || IsAncestor(g, a, parent)
    ensures Carries(WithCommit(g, sha, parent, None), sha, c) <==> Carries(g, parent, c)
  {
    hide IsAncestor;
    var n := WithCommit(g, sha, parent, None);
    assert forall r :: r in g ==> n[r] == g[r];
    if Carries(g, parent, c) {
      var r :| r in g && IsAncestor(g, r, parent) && g[r].change == Some(c);
      assert r in n && IsAncestor(n, r, sha);
    }
  }

  /** A new attempt has a branch of its own: the patches of its base, and on top of them exactly its own. */
  lemma AttemptsPrepare(w: World, name: string, attemptId: string, base: string, changes: seq<Change>, shas: seq<string>)
    requires RepoSound(w.repo) && CanPrepare(w.repo, name, attemptId, base, changes, shas) && name !in w.owners
    ensures var n, tip := After(w, Prepare(name, attemptId, base, changes, shas)), ChainTip(base, shas);
            && n.repo.branches == w.repo.branches[name := Branch(tip, attemptId)] && n.repo.head == w.repo.head
            && (name, tip) in n.tips && n.owners == w.owners[name := attemptId]
            && (n.queue, n.tasks, n.events, n.phase) == (w.queue, w.tasks, w.events, w.phase)
            && IsAncestor(n.repo.graph, base, tip)
            && (forall c :: Carries(n.repo.graph, tip, c) <==> Carries(w.repo.graph, base, c) || c in changes)
  {
    var g := w.repo.graph;
    assert WellFormed(g);
    ChainHistory(g, base, changes, shas);
    hide RepoSound, WellFormed;
    forall c ensures Carries(WithChain(g, base, changes, shas), ChainTip(base, shas), c) <==> Carries(g, base, c) || c in changes {
      ChainCarries(g, base, changes, shas, c);
    }
    assert IsAncestor(g, base, base);
  }

  lemma ChainCarries(g: Graph, base: string, changes: seq<Change>, shas: seq<string>, c: Change)
    requires WellFormed(g) && base in g && |changes| == |shas| && FreshNames(g, shas)
    ensures Carries(WithChain(g, base, changes, shas), ChainTip(base, shas), c) <==> Carries(g, base, c) || c in changes
  {
    ChainHistory(g, base, changes, shas);
    hide WellFormed, IsAncestor, WithChain, ChainTip;
    var n, tip := WithChain(g, base, changes, shas), ChainTip(base, shas);
    if Carries(g, base, c) {
      var r :| r in g && IsAncestor(g, r, base) && g[r].change == Some(c);
      assert r in n && n[r] == g[r] && IsAncestor(n, r, tip);
    }
    if c in changes {
      var i :| 0 <= i < |changes| && changes[i] == c;
      assert shas[i] in n && IsAncestor(n, shas[i], tip);
    }
    if Carries(n, tip, c) {
      var r :| r in n && IsAncestor(n, r, tip) && n[r].change == Some(c);
      if r in shas {
        var i :| 0 <= i < |shas| && shas[i] == r;
        assert c == changes[i];
      } else {
        assert n[r] == g[r] && IsAncestor(g, r, base);
      }
    }
  }

  /** The tip of a branch is enqueued for its attempt; entries for anything else are not the program's. */
  lemma TipsAreEnqueued(w: World, id: string, request: Q.Request)
    ensures var n := After(w, Enqueue(id, request));
            && n.(queue := w.queue) == w
            && (n.queue == Q.Enqueued(w.queue, id, request) || n.queue == w.queue)
            && (request.branch in w.repo.branches && w.repo.branches[request.branch] == Branch(request.taskRevision, request.attemptId) ==>
                  n.queue == Q.Enqueued(w.queue, id, request))
  {
    hide Q.Enqueued;
  }

  /** A fast-forward by crash recovery takes HEAD to the tip of the branch, or leaves it when that is not ahead. */
  lemma RecoveryForwards(w: World, name: string)
    requires RepoSound(w.repo) && name in w.repo.branches && !(w.phase.Drifted? && w.phase.e.request.branch == name)
    ensures var n, tip := After(w, RecoveryMerge(name)), w.repo.branches[name].tip;
            && n.(repo := w.repo) == w && n.repo.(head := w.repo.head) == w.repo
            && n.repo.head == if IsAncestor(w.repo.graph, w.repo.head, tip) then tip else w.repo.head
  {
    var g, head, tip := w.repo.graph, w.repo.head, w.repo.branches[name].tip;
    assert WellFormed(g) && head in g && tip in g;
    if IsAncestor(g, tip, head) && IsAncestor(g, head, tip) {
      AncestorAntisymmetric(g, tip, head);
    }
    hide RepoSound, IsAncestor, WellFormed;
  }
}
