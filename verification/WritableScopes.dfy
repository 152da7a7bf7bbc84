/**
 * What conflict detection buys: two tasks without a reported path conflict can never both change
 * the same file within their scopes, and which patterns that needs.
 */
module WritableScopes {
  import opened ScopePatterns
  import opened ScopeSegments
  import opened ScopeGlob
  import opened ScopeSafety
  import opened ScopeValidation
  import opened Tasks
  import opened TaskConflicts

  ghost predicate AllowsPlainGlobs(scope: Scope) {
    forall p :: p in scope.allowedPaths ==> IsPlainGlob(p)
  }

  /** A file that both tasks may change makes their scopes overlap. */
  lemma CommonFileOverlaps(a: Scope, b: Scope, path: string)
    requires AllowsPlainGlobs(a) && AllowsPlainGlobs(b) && IsPath(ProbedPath(path))
    requires ViolationOf(path, a).None? && ViolationOf(path, b).None?
    ensures ScopesOverlap(a, b)
  {
    var p :| p in a.allowedPaths && PatternMatches(path, p);
    var q :| q in b.allowedPaths && PatternMatches(path, q);
    MatchedByBothOverlaps(p, q, path);
    assert PatternsOverlap(p, q);
  }

  /** Without a reported path conflict, no change within one scope touches a file of a change within the other. */
  lemma NoConflictNoCommonFile(tasks: seq<Task>, a: Task, b: Task, changesA: seq<string>, changesB: seq<string>)
    requires a in tasks && b in tasks && a.id != b.id
    requires AllowsPlainGlobs(a.scope) && AllowsPlainGlobs(b.scope)
    requires forall c :: c in ConflictsOf(tasks) && c.PathConflict? ==> !Names(c, a, b)
    requires RespectsScope(changesA, a.scope) && RespectsScope(changesB, b.scope)
    ensures forall x, y :: x in changesA && y in changesB && NormalizedPath(x) != "" && IsPath(ProbedPath(NormalizedPath(x)))
              ==> NormalizedPath(x) != NormalizedPath(y)
  {
    RealConflictIsReported(tasks, a, b);
    forall x, y | x in changesA && y in changesB && NormalizedPath(x) != "" && IsPath(ProbedPath(NormalizedPath(x)))
      ensures NormalizedPath(x) != NormalizedPath(y)
    {
      if NormalizedPath(x) == NormalizedPath(y) {
        CommonFileOverlaps(a.scope, b.scope, NormalizedPath(x));
      }
    }
  }
}
