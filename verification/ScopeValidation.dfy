/** Scope validation of a change (packages/orchestrator/src/task-scope.ts). */
module ScopeValidation {
  import opened Options
  import opened Text
  import opened Sorting
  import opened ScopeGlob
  import opened Tasks

  datatype Violation = Forbidden(path: string, pattern: string) | NotAllowed(path: string)

  function FirstMatchingPattern(path: string, patterns: seq<string>): (r: Option<string>)
    ensures r.None? <==> forall p :: p in patterns ==> !PatternMatches(path, p)
    ensures r.Some? ==> r.value in patterns && PatternMatches(path, r.value)
  {
    if patterns == [] then None
    else if PatternMatches(path, patterns[0]) then Some(patterns[0])
    else FirstMatchingPattern(path, patterns[1..])
  }

  function ViolationOf(path: string, scope: Scope): (v: Option<Violation>)
    ensures v.Some? ==> v.value.path == path
    ensures v.None? <==> ((forall p :: p in scope.forbiddenPaths ==> !PatternMatches(path, p))
                          && (exists p :: p in scope.allowedPaths && PatternMatches(path, p)))
  {
    var forbidden := FirstMatchingPattern(path, scope.forbiddenPaths);
    if forbidden.Some? then Some(Forbidden(path, forbidden.value))
    else if FirstMatchingPattern(path, scope.allowedPaths).None? then Some(NotAllowed(path))
    else None
  }

  const PATH_ORDER: (Violation, Violation) -> bool := (v: Violation, w: Violation) => AtMost(v.path, w.path)

  /** Whether a change of these paths respects the scope. */
  ghost predicate RespectsScope(changedPaths: seq<string>, scope: Scope) {
    forall c :: c in changedPaths && NormalizedPath(c) != "" ==> ViolationOf(NormalizedPath(c), scope).None?
  }

  ghost predicate ViolatedBy(v: Violation, changedPaths: seq<string>, scope: Scope) {
    exists c :: c in changedPaths && NormalizedPath(c) != "" && ViolationOf(NormalizedPath(c), scope) == Some(v)
  }

  lemma PathOrderIsTotal()
    ensures TotalPreorder(PATH_ORDER)
  {
    forall v, w ensures PATH_ORDER(v, w) || PATH_ORDER(w, v) {
      StringOrder(v.path, w.path, w.path);
    }
    forall u, v, w | PATH_ORDER(u, v) && PATH_ORDER(v, w) ensures PATH_ORDER(u, w) {
      StringOrder(u.path, v.path, w.path);
    }
  }

  /** validateTaskScope: the change is in scope if and only if no violation is reported. */
  method ValidateTaskScope(changedPaths: seq<string>, scope: Scope) returns (violations: seq<Violation>)
    ensures violations == [] <==> RespectsScope(changedPaths, scope)
    ensures forall v :: v in violations <==> ViolatedBy(v, changedPaths, scope)
    ensures forall i, j :: 0 <= i < j < |violations| ==> Less(violations[i].path, violations[j].path)
  {
    hide ViolationOf, NormalizedPath, Less;
    var found: seq<Violation> := [];
    var seen: set<string> := {};
    for i := 0 to |changedPaths|
      invariant forall c :: c in changedPaths[..i] && NormalizedPath(c) != "" ==> NormalizedPath(c) in seen
      invariant forall p :: p in seen ==> p != "" && exists c :: c in changedPaths[..i] && NormalizedPath(c) == p
      invariant forall v :: v in found <==> v.path in seen && ViolationOf(v.path, scope) == Some(v)
      invariant forall k, l :: 0 <= k < l < |found| ==> found[k].path != found[l].path
    {
      var path := NormalizedPath(changedPaths[i]);
      if |path| == 0 || path in seen {
        continue;
      }
      seen := seen + {path};
      var violation := ViolationOf(path, scope);
      if violation.Some? {
        found := found + [violation.value];
      }
    }
    assert changedPaths[..|changedPaths|] == changedPaths;
    violations := SortBy(PATH_ORDER, found);
    SortedViolations(found, violations);
    NoViolations(violations, changedPaths, scope);
  }

  /** A complete report is empty exactly for a change in scope. */
  lemma NoViolations(violations: seq<Violation>, changedPaths: seq<string>, scope: Scope)
    requires forall v :: v in violations <==> ViolatedBy(v, changedPaths, scope)
    ensures violations == [] <==> RespectsScope(changedPaths, scope)
  {
    hide ViolationOf, NormalizedPath;
    if violations != [] {
      assert ViolatedBy(violations[0], changedPaths, scope);
    }
    forall c | c in changedPaths && NormalizedPath(c) != "" && ViolationOf(NormalizedPath(c), scope).Some?
      ensures violations != []
    {
      assert ViolatedBy(ViolationOf(NormalizedPath(c), scope).value, changedPaths, scope);
    }
  }

  lemma SortedViolations(found: seq<Violation>, violations: seq<Violation>)
    requires violations == SortBy(PATH_ORDER, found)
    requires forall k, l :: 0 <= k < l < |found| ==> found[k].path != found[l].path
    ensures forall v :: v in violations <==> v in found
    ensures forall i, j :: 0 <= i < j < |violations| ==> Less(violations[i].path, violations[j].path)
  {
    PathOrderIsTotal();
    SortBySorted(PATH_ORDER, found);
    SameElements(violations, found);
    var key := (v: Violation) => v.path;
    assert DistinctBy(key, found);
    MovedKeysDiffer(key, found, violations);
    forall i, j | 0 <= i < j < |violations| ensures Less(violations[i].path, violations[j].path) {
      assert PATH_ORDER(violations[i], violations[j]);
      StringOrder(violations[i].path, violations[j].path, violations[j].path);
      assert key(violations[i]) != key(violations[j]);
    }
  }
}
