/** Preflight conflict detection (packages/core/src/domain/task-conflicts.ts). */
module TaskConflicts {
  import opened Options
  import opened Text
  import opened Sorting
  import opened ScopeSegments
  import opened Tasks

  datatype Conflict =
    | ResourceConflict(taskIdA: string, taskIdB: string, resources: seq<string>)
    | PathConflict(taskIdA: string, taskIdB: string, patterns: seq<(string, string)>)

  const PAIR_ORDER: ((string, string), (string, string)) -> bool :=
    (p: (string, string), q: (string, string)) => if p.0 == q.0 then AtMost(p.1, q.1) else Less(p.0, q.0)

  const TASK_ID_ORDER: (Task, Task) -> bool := (a: Task, b: Task) => AtMost(a.id, b.id)

  function TrimmedSet(values: seq<string>): (r: set<string>)
    ensures forall v :: v in r <==> exists i :: 0 <= i < |values| && Trim(values[i]) == v
  {
    set i | 0 <= i < |values| :: Trim(values[i])
  }

  /** The trimmed values that occur in `other`, each once, in order of first appearance. */
  function SharedFrom(values: seq<string>, other: set<string>, seen: set<string>): seq<string> {
    if values == [] then []
    else
      var v := Trim(values[0]);
      if v in other && v !in seen then [v] + SharedFrom(values[1..], other, seen + {v})
      else SharedFrom(values[1..], other, seen)
  }

  function SharedValuesOf(first: seq<string>, second: seq<string>): seq<string> {
    SortBy(STRING_ORDER, SharedFrom(first, TrimmedSet(second), {}))
  }

  method SharedValues(first: seq<string>, second: seq<string>) returns (r: seq<string>)
    ensures r == SharedValuesOf(first, second)
  {
    var other := TrimmedSet(second);
    var shared: seq<string> := [];
    var seen: set<string> := {};
    for i := 0 to |first|
      invariant shared + SharedFrom(first[i..], other, seen) == SharedFrom(first, other, {})
    {
      assert first[i..][1..] == first[i + 1..];
      var normalized := Trim(first[i]);
      if normalized in other && normalized !in seen {
        seen := seen + {normalized};
        Assoc(shared, [normalized], SharedFrom(first[i + 1..], other, seen));
        shared := shared + [normalized];
      }
    }
    assert shared + [] == shared;
    r := SortBy(STRING_ORDER, shared);
  }

  /** The key under which a pair of patterns is reported once. */
  function PairKey(p: (string, string)): string {
    p.0 + "\0" + p.1
  }

  function PairKeys(pairs: seq<(string, string)>): set<string> {
    set p | p in pairs :: PairKey(p)
  }

  function AddPair(found: seq<(string, string)>, a: string, b: string): seq<(string, string)> {
    if PatternsOverlap(a, b) && PairKey((a, b)) !in PairKeys(found) then found + [(a, b)] else found
  }

  function AddPairs(found: seq<(string, string)>, a: string, bs: seq<string>): seq<(string, string)>
    decreases |bs|
  {
    if bs == [] then found else AddPairs(AddPair(found, a, bs[0]), a, bs[1..])
  }

  function AddAllPairs(found: seq<(string, string)>, as_: seq<string>, bs: seq<string>): seq<(string, string)>
    decreases |as_|
  {
    if as_ == [] then found else AddAllPairs(AddPairs(found, as_[0], bs), as_[1..], bs)
  }

  function ScopeOverlapsOf(a: Scope, b: Scope): seq<(string, string)> {
    SortBy(PAIR_ORDER, AddAllPairs([], a.allowedPaths, b.allowedPaths))
  }

  lemma {:induction false} UncompiledAddsNothing(found: seq<(string, string)>, a: string, bs: seq<string>)
    requires SegmentsOf(a).None?
    ensures AddPairs(found, a, bs) == found
    decreases |bs|
  {
    if bs != [] {
      UncompiledAddsNothing(found, a, bs[1..]);
    }
  }

  /** The inner loop: the patterns of the second scope against one compiled pattern of the first. */
  method CollectOverlaps(found: seq<(string, string)>, patternA: string, segmentsA: seq<Segment>, bs: seq<string>)
    returns (overlaps: seq<(string, string)>)
    requires SegmentsOf(patternA) == Some(segmentsA)
    ensures overlaps == AddPairs(found, patternA, bs)
  {
    overlaps := found;
    for j := 0 to |bs|
      invariant AddPairs(overlaps, patternA, bs[j..]) == AddPairs(found, patternA, bs)
    {
      assert bs[j..][1..] == bs[j + 1..];
      var segmentsB := CompileScopeSegments(bs[j]);
      if segmentsB.None? {
        continue;
      }
      var overlap := SegmentsOverlap(segmentsA, segmentsB.value);
      OverlapIsExact(segmentsA, segmentsB.value);
      if !overlap || PairKey((patternA, bs[j])) in PairKeys(overlaps) {
        continue;
      }
      overlaps := overlaps + [(patternA, bs[j])];
    }
  }

  method ScopeOverlaps(a: Scope, b: Scope) returns (r: seq<(string, string)>)
    ensures r == ScopeOverlapsOf(a, b)
  {
    var overlaps: seq<(string, string)> := [];
    var patterns := a.allowedPaths;
    for i := 0 to |patterns|
      invariant AddAllPairs(overlaps, patterns[i..], b.allowedPaths) == AddAllPairs([], patterns, b.allowedPaths)
    {
      assert patterns[i..][1..] == patterns[i + 1..];
      var segmentsA := CompileScopeSegments(patterns[i]);
      if segmentsA.None? {
        UncompiledAddsNothing(overlaps, patterns[i], b.allowedPaths);
        continue;
      }
      overlaps := CollectOverlaps(overlaps, patterns[i], segmentsA.value, b.allowedPaths);
    }
    r := SortBy(PAIR_ORDER, overlaps);
  }

  function PairReport(a: Task, b: Task, shared: seq<string>, overlaps: seq<(string, string)>): seq<Conflict> {
    (if shared != [] then [ResourceConflict(a.id, b.id, shared)] else [])
    + (if overlaps != [] then [PathConflict(a.id, b.id, overlaps)] else [])
  }

  function PairConflicts(a: Task, b: Task): seq<Conflict> {
    PairReport(a, b, SharedValuesOf(a.resources, b.resources), ScopeOverlapsOf(a.scope, b.scope))
  }

  function ConflictsOf(tasks: seq<Task>): seq<Conflict> {
    OverPairs(PairConflicts, SortBy(TASK_ID_ORDER, tasks))
  }

  method DetectPairConflicts(first: Task, second: Task) returns (conflicts: seq<Conflict>)
    ensures conflicts == PairConflicts(first, second)
  {
    conflicts := [];
    var sharedResources := SharedValues(first.resources, second.resources);
    if |sharedResources| > 0 {
      conflicts := conflicts + [ResourceConflict(first.id, second.id, sharedResources)];
    }
    var pathOverlaps := ScopeOverlaps(first.scope, second.scope);
    if |pathOverlaps| > 0 {
      conflicts := conflicts + [PathConflict(first.id, second.id, pathOverlaps)];
    }
  }

  /** The inner loop: one task against the tasks after it. */
  method CollectConflicts(first: Task, later: seq<Task>) returns (conflicts: seq<Conflict>)
    ensures conflicts == WithLater(PairConflicts, first, later)
  {
    conflicts := [];
    for j := 0 to |later|
      invariant conflicts + WithLater(PairConflicts, first, later[j..]) == WithLater(PairConflicts, first, later)
    {
      assert later[j..][1..] == later[j + 1..];
      var found := DetectPairConflicts(first, later[j]);
      Assoc(conflicts, found, WithLater(PairConflicts, first, later[j + 1..]));
      conflicts := conflicts + found;
    }
    assert conflicts + [] == conflicts;
  }

  method DetectTaskConflicts(tasks: seq<Task>) returns (conflicts: seq<Conflict>)
    ensures conflicts == ConflictsOf(tasks)
  {
    var ordered := SortBy(TASK_ID_ORDER, tasks);
    conflicts := [];
    for i := 0 to |ordered|
      invariant conflicts + OverPairs(PairConflicts, ordered[i..]) == OverPairs(PairConflicts, ordered)
    {
      assert ordered[i..][1..] == ordered[i + 1..];
      var found := CollectConflicts(ordered[i], ordered[i + 1..]);
      Assoc(conflicts, found, OverPairs(PairConflicts, ordered[i + 1..]));
      conflicts := conflicts + found;
    }
    assert conflicts + [] == conflicts;
  }

  // --- What a conflict report means ---

  /** Some value of both lists is the same once trimmed. */
  ghost predicate ShareValue(first: seq<string>, second: seq<string>) {
    exists v :: v in TrimmedSet(first) && v in TrimmedSet(second)
  }

  ghost predicate ScopesOverlap(a: Scope, b: Scope) {
    exists p, q :: p in a.allowedPaths && q in b.allowedPaths && PatternsOverlap(p, q)
  }

  /** Two tasks that must not run together. */
  ghost predicate Conflicting(a: Task, b: Task) {
    ShareValue(a.resources, b.resources) || ScopesOverlap(a.scope, b.scope)
  }

  lemma {:induction false} SharedFromElements(values: seq<string>, other: set<string>, seen: set<string>, v: string)
    ensures v in SharedFrom(values, other, seen) <==> v in TrimmedSet(values) && v in other && v !in seen
    ensures multiset(SharedFrom(values, other, seen))[v] <= 1
  {
    if values != [] {
      var w := Trim(values[0]);
      assert values == [values[0]] + values[1..];
      assert v in TrimmedSet(values) <==> v == w || v in TrimmedSet(values[1..]) by {
        if v in TrimmedSet(values[1..]) {
          var i :| 0 <= i < |values[1..]| && Trim(values[1..][i]) == v;
          assert Trim(values[i + 1]) == v;
        }
        if v in TrimmedSet(values) && v != w {
          var i :| 0 <= i < |values| && Trim(values[i]) == v;
          assert Trim(values[1..][i - 1]) == v;
        }
        assert Trim(values[0]) == w;
      }
      SharedFromElements(values[1..], other, seen, v);
      SharedFromElements(values[1..], other, seen + {w}, v);
    }
  }

  /** sharedValues reports exactly the values both lists hold, each once, in ascending order. */
  lemma SharedValuesExact(first: seq<string>, second: seq<string>)
    ensures forall v :: v in SharedValuesOf(first, second) <==> v in TrimmedSet(first) && v in TrimmedSet(second)
    ensures forall i, j :: 0 <= i < j < |SharedValuesOf(first, second)| ==>
              Less(SharedValuesOf(first, second)[i], SharedValuesOf(first, second)[j])
  {
    var shared := SharedFrom(first, TrimmedSet(second), {});
    forall v ensures v in shared <==> v in TrimmedSet(first) && v in TrimmedSet(second)
             ensures multiset(shared)[v] <= 1
    {
      SharedFromElements(first, TrimmedSet(second), {}, v);
    }
    SortedStrings(shared);
  }

  /** Every pair that is reported overlaps, and what was found stays found. */
  ghost predicate Sound(found: seq<(string, string)>, a: seq<string>, b: seq<string>) {
    forall p :: p in found ==> p.0 in a && p.1 in b && PatternsOverlap(p.0, p.1)
  }

  lemma {:induction false} AddPairsExact(found: seq<(string, string)>, a: string, bs: seq<string>, as_: seq<string>, all: seq<string>)
    requires Sound(found, as_, all) && a in as_ && forall b :: b in bs ==> b in all
    ensures Sound(AddPairs(found, a, bs), as_, all)
    ensures PairKeys(found) <= PairKeys(AddPairs(found, a, bs))
    ensures forall b :: b in bs && PatternsOverlap(a, b) ==> PairKey((a, b)) in PairKeys(AddPairs(found, a, bs))
    decreases |bs|
  {
    if bs != [] {
      var next := AddPair(found, a, bs[0]);
      assert PairKeys(found) <= PairKeys(next);
      if PatternsOverlap(a, bs[0]) && next != found {
        assert next[|found|] == (a, bs[0]);
        assert (a, bs[0]) in next;
      }
      AddPairsExact(next, a, bs[1..], as_, all);
    }
  }

  lemma {:induction false} AddAllPairsExact(found: seq<(string, string)>, as_: seq<string>, bs: seq<string>, all: seq<string>)
    requires Sound(found, all, bs) && forall a :: a in as_ ==> a in all
    ensures Sound(AddAllPairs(found, as_, bs), all, bs)
    ensures PairKeys(found) <= PairKeys(AddAllPairs(found, as_, bs))
    ensures forall a, b :: a in as_ && b in bs && PatternsOverlap(a, b) ==> PairKey((a, b)) in PairKeys(AddAllPairs(found, as_, bs))
    decreases |as_|
  {
    if as_ != [] {
      AddPairsExact(found, as_[0], bs, all, bs);
      AddAllPairsExact(AddPairs(found, as_[0], bs), as_[1..], bs, all);
    }
  }

  /** scopeOverlaps reports only overlapping pairs, and every overlapping pair has its key reported. */
  lemma ScopeOverlapsExact(a: Scope, b: Scope)
    ensures Sound(ScopeOverlapsOf(a, b), a.allowedPaths, b.allowedPaths)
    ensures forall p, q :: p in a.allowedPaths && q in b.allowedPaths && PatternsOverlap(p, q) ==>
              PairKey((p, q)) in PairKeys(ScopeOverlapsOf(a, b))
    ensures ScopeOverlapsOf(a, b) != [] <==> ScopesOverlap(a, b)
  {
    var found, r := AddAllPairs([], a.allowedPaths, b.allowedPaths), ScopeOverlapsOf(a, b);
    AddAllPairsExact([], a.allowedPaths, b.allowedPaths, a.allowedPaths);
    SameElements(r, found);
    assert PairKeys(r) == PairKeys(found);
    if r != [] {
      assert r[0] in found && PatternsOverlap(r[0].0, r[0].1);
    }
  }

  lemma ConflictingIsSymmetric(a: Task, b: Task)
    ensures ScopesOverlap(a.scope, b.scope) == ScopesOverlap(b.scope, a.scope)
    ensures Conflicting(a, b) == Conflicting(b, a)
  {
    forall p, q ensures PatternsOverlap(p, q) == PatternsOverlap(q, p) {
      if SegmentsOf(p).Some? && SegmentsOf(q).Some? {
        OverlapIsSymmetric(SegmentsOf(p).value, SegmentsOf(q).value);
      }
    }
  }

  /** A conflict record names this pair of tasks. */
  predicate Names(c: Conflict, a: Task, b: Task) {
    (c.taskIdA == a.id && c.taskIdB == b.id) || (c.taskIdA == b.id && c.taskIdB == a.id)
  }

  lemma PairReportShape(a: Task, b: Task, shared: seq<string>, overlaps: seq<(string, string)>)
    ensures PairReport(a, b, shared, overlaps) != [] <==> shared != [] || overlaps != []
    ensures forall c :: c in PairReport(a, b, shared, overlaps) ==> Names(c, a, b)
    ensures (exists c :: c in PairReport(a, b, shared, overlaps) && c.PathConflict?) <==> overlaps != []
  {
    assert overlaps != [] ==> PathConflict(a.id, b.id, overlaps) in PairReport(a, b, shared, overlaps);
  }

  lemma PairConflictsExact(a: Task, b: Task)
    ensures PairConflicts(a, b) != [] <==> Conflicting(a, b)
    ensures forall c :: c in PairConflicts(a, b) ==> Names(c, a, b)
    ensures (exists c :: c in PairConflicts(a, b) && c.PathConflict?) <==> ScopesOverlap(a.scope, b.scope)
  {
    SharedValuesExact(a.resources, b.resources);
    ScopeOverlapsExact(a.scope, b.scope);
    var shared := SharedValuesOf(a.resources, b.resources);
    assert shared != [] ==> shared[0] in shared;
    PairReportShape(a, b, shared, ScopeOverlapsOf(a.scope, b.scope));
  }

  ghost predicate DistinctIds(tasks: seq<Task>) {
    forall i, j :: 0 <= i < j < |tasks| ==> tasks[i].id != tasks[j].id
  }

  lemma SameIdSameTask(tasks: seq<Task>, a: Task, b: Task)
    requires DistinctIds(tasks) && a in tasks && b in tasks && a.id == b.id
    ensures a == b
  {
  }

  /** A reported conflict comes from two of the tasks. */
  lemma ReportedPair(tasks: seq<Task>, c: Conflict) returns (x: Task, y: Task)
    requires c in ConflictsOf(tasks)
    ensures x in tasks && y in tasks && Names(c, x, y)
    ensures Conflicting(x, y) && (c.PathConflict? ==> ScopesOverlap(x.scope, y.scope))
  {
    var ordered := SortBy(TASK_ID_ORDER, tasks);
    OverPairsElements(PairConflicts, ordered, c);
    var k, l :| 0 <= k < l < |ordered| && c in PairConflicts(ordered[k], ordered[l]);
    x, y := ordered[k], ordered[l];
    SameElements(ordered, tasks);
    assert x in ordered && y in ordered;
    PairConflictsExact(x, y);
  }

  /** A reported conflict is one of the pair it names. */
  lemma ReportedConflictIsReal(tasks: seq<Task>, a: Task, b: Task, c: Conflict)
    requires DistinctIds(tasks) && a in tasks && b in tasks && a.id != b.id
    requires c in ConflictsOf(tasks) && Names(c, a, b)
    ensures Conflicting(a, b) && (c.PathConflict? ==> ScopesOverlap(a.scope, b.scope))
  {
    var x, y := ReportedPair(tasks, c);
    if x.id == a.id {
      SameIdSameTask(tasks, x, a);
      SameIdSameTask(tasks, y, b);
    } else {
      SameIdSameTask(tasks, x, b);
      SameIdSameTask(tasks, y, a);
    }
    ConflictingIsSymmetric(a, b);
  }

  /** Detection looks at every pair of tasks, in one of the two orders. */
  lemma PairIsVisited(tasks: seq<Task>, a: Task, b: Task) returns (x: Task, y: Task)
    requires a in tasks && b in tasks && a.id != b.id
    ensures (x == a && y == b) || (x == b && y == a)
    ensures forall c :: c in PairConflicts(x, y) ==> c in ConflictsOf(tasks)
  {
    var ordered := SortBy(TASK_ID_ORDER, tasks);
    SameElements(ordered, tasks);
    hide SortBy, PairConflicts, OverPairs;
    assert a in ordered && b in ordered;
    var i :| 0 <= i < |ordered| && ordered[i] == a;
    var j :| 0 <= j < |ordered| && ordered[j] == b;
    x, y := if i < j then a else b, if i < j then b else a;
    forall c | c in PairConflicts(x, y) ensures c in ConflictsOf(tasks) {
      OverPairsElements(PairConflicts, ordered, c);
    }
  }

  lemma FindConflict(tasks: seq<Task>, a: Task, b: Task) returns (c: Conflict)
    requires a in tasks && b in tasks && a.id != b.id && Conflicting(a, b)
    ensures c in ConflictsOf(tasks) && Names(c, a, b)
  {
    hide ConflictsOf, Conflicting;
    var x, y := PairIsVisited(tasks, a, b);
    ConflictingIsSymmetric(a, b);
    PairConflictsExact(x, y);
    hide PairConflicts;
    c := PairConflicts(x, y)[0];
    assert c in PairConflicts(x, y);
  }

  lemma FindPathConflict(tasks: seq<Task>, a: Task, b: Task) returns (c: Conflict)
    requires a in tasks && b in tasks && a.id != b.id && ScopesOverlap(a.scope, b.scope)
    ensures c in ConflictsOf(tasks) && c.PathConflict? && Names(c, a, b)
  {
    hide ConflictsOf, Conflicting, ScopesOverlap;
    var x, y := PairIsVisited(tasks, a, b);
    ConflictingIsSymmetric(a, b);
    PairConflictsExact(x, y);
    hide PairConflicts;
    c :| c in PairConflicts(x, y) && c.PathConflict?;
  }

  /** Every conflict of a pair is reported. */
  lemma RealConflictIsReported(tasks: seq<Task>, a: Task, b: Task)
    requires a in tasks && b in tasks && a.id != b.id
    ensures Conflicting(a, b) ==> exists c :: c in ConflictsOf(tasks) && Names(c, a, b)
    ensures ScopesOverlap(a.scope, b.scope) ==> exists c :: c in ConflictsOf(tasks) && c.PathConflict? && Names(c, a, b)
  {
    hide ConflictsOf, Conflicting, ScopesOverlap, Names;
    if Conflicting(a, b) {
      var c := FindConflict(tasks, a, b);
    }
    if ScopesOverlap(a.scope, b.scope) {
      var c := FindPathConflict(tasks, a, b);
    }
  }

  /** Detection is exact: a pair of tasks is named by a conflict if and only if the two conflict. */
  lemma DetectionIsExact(tasks: seq<Task>, a: Task, b: Task)
    requires DistinctIds(tasks) && a in tasks && b in tasks && a.id != b.id
    ensures (exists c :: c in ConflictsOf(tasks) && Names(c, a, b)) <==> Conflicting(a, b)
    ensures (exists c :: c in ConflictsOf(tasks) && c.PathConflict? && Names(c, a, b)) <==> ScopesOverlap(a.scope, b.scope)
  {
    RealConflictIsReported(tasks, a, b);
    forall c | c in ConflictsOf(tasks) && Names(c, a, b)
      ensures Conflicting(a, b) && (c.PathConflict? ==> ScopesOverlap(a.scope, b.scope))
    {
      ReportedConflictIsReal(tasks, a, b, c);
    }
  }

  /** The report does not depend on the order in which the tasks are given. */
  lemma DetectionIgnoresOrder(tasks: seq<Task>, others: seq<Task>)
    requires DistinctIds(tasks) && multiset(tasks) == multiset(others)
    ensures ConflictsOf(tasks) == ConflictsOf(others)
  {
    forall a, b ensures TASK_ID_ORDER(a, b) || TASK_ID_ORDER(b, a) {
      StringOrder(a.id, b.id, b.id);
    }
    forall a, b, c | TASK_ID_ORDER(a, b) && TASK_ID_ORDER(b, c) ensures TASK_ID_ORDER(a, c) {
      StringOrder(a.id, b.id, c.id);
    }
    forall a, b | a in tasks && b in tasks && TASK_ID_ORDER(a, b) && TASK_ID_ORDER(b, a) ensures a == b {
      StringOrder(a.id, b.id, b.id);
      SameIdSameTask(tasks, a, b);
    }
    SortByCanonical(TASK_ID_ORDER, tasks, others);
  }
}
