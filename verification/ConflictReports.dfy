/** What a conflict report says, entry by entry (packages/core/src/domain/task-conflicts.ts). */
module ConflictReports {
  import opened Text
  import opened Sorting
  import opened Tasks
  import opened TaskConflicts

  /** One entry comes before another: by the two task ids, and shared resources before paths. */
  predicate ComesBefore(c: Conflict, d: Conflict) {
    || Less(c.taskIdA, d.taskIdA)
    || (c.taskIdA == d.taskIdA && (Less(c.taskIdB, d.taskIdB) || (c.taskIdB == d.taskIdB && c.ResourceConflict? && d.PathConflict?)))
  }

  ghost predicate InReportOrder(cs: seq<Conflict>) {
    forall i, j :: 0 <= i < j < |cs| ==> ComesBefore(cs[i], cs[j])
  }

  /** The tasks are ordered by their ids. */
  ghost predicate AscendingIds(tasks: seq<Task>) {
    forall i, j :: 0 <= i < j < |tasks| ==> Less(tasks[i].id, tasks[j].id)
  }

  lemma OrderedTasksAscend(tasks: seq<Task>)
    requires DistinctIds(tasks)
    ensures AscendingIds(SortBy(TASK_ID_ORDER, tasks))
  {
    var ordered := SortBy(TASK_ID_ORDER, tasks);
    var key := (t: Task) => t.id;
    assert DistinctBy(key, tasks);
    MovedKeysDiffer(key, tasks, ordered);
    TaskIdOrderIsTotal();
    SortBySorted(TASK_ID_ORDER, tasks);
    forall i, j | 0 <= i < j < |ordered| ensures Less(ordered[i].id, ordered[j].id) {
      assert TASK_ID_ORDER(ordered[i], ordered[j]) && key(ordered[i]) != key(ordered[j]);
      StringOrder(ordered[i].id, ordered[j].id, ordered[j].id);
    }
  }

  lemma TaskIdOrderIsTotal()
    ensures TotalPreorder(TASK_ID_ORDER)
  {
    forall a, b ensures TASK_ID_ORDER(a, b) || TASK_ID_ORDER(b, a) {
      StringOrder(a.id, b.id, b.id);
    }
    forall a, b, c | TASK_ID_ORDER(a, b) && TASK_ID_ORDER(b, c) ensures TASK_ID_ORDER(a, c) {
      StringOrder(a.id, b.id, c.id);
    }
  }

  /** The report of one pair: what both declare, and which patterns overlap. */
  predicate IsEntryOf(c: Conflict, a: Task, b: Task) {
    match c
    case ResourceConflict(x, y, resources) =>
      x == a.id && y == b.id && resources == SharedValuesOf(a.resources, b.resources) && resources != []
    case PathConflict(x, y, patterns) =>
      x == a.id && y == b.id && patterns == ScopeOverlapsOf(a.scope, b.scope) && patterns != []
  }

  lemma PairEntries(a: Task, b: Task)
    ensures InReportOrder(PairConflicts(a, b))
    ensures forall c :: c in PairConflicts(a, b) <==> IsEntryOf(c, a, b)
  {
    hide SharedValuesOf, ScopeOverlapsOf;
  }

  ghost predicate IsEntryOfLater(c: Conflict, first: Task, later: seq<Task>) {
    exists j :: 0 <= j < |later| && IsEntryOf(c, first, later[j])
  }

  ghost predicate IsEntryOfSome(c: Conflict, tasks: seq<Task>) {
    exists i, j :: 0 <= i < j < |tasks| && IsEntryOf(c, tasks[i], tasks[j])
  }

  lemma EntryNames(c: Conflict, a: Task, b: Task)
    requires IsEntryOf(c, a, b)
    ensures c.taskIdA == a.id && c.taskIdB == b.id
  {
    hide SharedValuesOf, ScopeOverlapsOf;
  }

  lemma LaterNames(c: Conflict, first: Task, later: seq<Task>)
    requires IsEntryOfLater(c, first, later)
    ensures c.taskIdA == first.id && exists j :: 0 <= j < |later| && c.taskIdB == later[j].id
    ensures IsEntryOfSome(c, [first] + later)
  {
    hide IsEntryOf;
    var j :| 0 <= j < |later| && IsEntryOf(c, first, later[j]);
    EntryNames(c, first, later[j]);
    var tasks := [first] + later;
    assert tasks[0] == first && tasks[j + 1] == later[j];
  }

  lemma SomeNames(c: Conflict, first: Task, tasks: seq<Task>)
    requires IsEntryOfSome(c, tasks)
    ensures exists i :: 0 <= i < |tasks| && c.taskIdA == tasks[i].id
    ensures IsEntryOfSome(c, [first] + tasks)
  {
    hide IsEntryOf;
    var i, j :| 0 <= i < j < |tasks| && IsEntryOf(c, tasks[i], tasks[j]);
    EntryNames(c, tasks[i], tasks[j]);
    var more := [first] + tasks;
    assert more[i + 1] == tasks[i] && more[j + 1] == tasks[j];
  }

  lemma LaterMore(c: Conflict, first: Task, second: Task, later: seq<Task>)
    requires IsEntryOfLater(c, first, later) || IsEntryOf(c, first, second)
    ensures IsEntryOfLater(c, first, [second] + later)
  {
    hide IsEntryOf;
    var more := [second] + later;
    assert more[0] == second;
    if IsEntryOfLater(c, first, later) {
      var j :| 0 <= j < |later| && IsEntryOf(c, first, later[j]);
      assert more[j + 1] == later[j];
    }
  }

  lemma {:induction false} LaterEntries(first: Task, later: seq<Task>)
    requires AscendingIds(later)
    ensures InReportOrder(WithLater(PairConflicts, first, later))
    ensures forall c :: c in WithLater(PairConflicts, first, later) ==> IsEntryOfLater(c, first, later)
  {
    if later != [] {
      var second, others := later[0], later[1..];
      PairEntries(first, second);
      LaterEntries(first, others);
      var here, rest := PairConflicts(first, second), WithLater(PairConflicts, first, others);
      assert later == [second] + others;
      hide PairConflicts, Less, IsEntryOfLater, InReportOrder;
      forall c | c in rest ensures c.taskIdA == first.id && Less(second.id, c.taskIdB) && IsEntryOfLater(c, first, later) {
        LaterNames(c, first, others);
        LaterMore(c, first, second, others);
      }
      forall c | c in here ensures c.taskIdA == first.id && c.taskIdB == second.id && IsEntryOfLater(c, first, later) {
        LaterMore(c, first, second, others);
      }
      JoinedOrder(here, rest);
    }
  }

  /** Two ordered lists make one when everything in the first comes first. */
  lemma JoinedOrder(front: seq<Conflict>, back: seq<Conflict>)
    requires InReportOrder(front) && InReportOrder(back)
    requires forall c, d :: c in front && d in back ==> ComesBefore(c, d)
    ensures InReportOrder(front + back)
  {
    hide ComesBefore;
    var all := front + back;
    forall i, j | 0 <= i < j < |all| ensures ComesBefore(all[i], all[j]) {
      if i < |front| && j >= |front| {
        assert all[i] in front && all[j] in back;
      }
    }
  }

  lemma {:induction false} AllEntries(tasks: seq<Task>)
    requires AscendingIds(tasks)
    ensures InReportOrder(OverPairs(PairConflicts, tasks))
    ensures forall c :: c in OverPairs(PairConflicts, tasks) ==> IsEntryOfSome(c, tasks)
  {
    if tasks != [] {
      var first, later := tasks[0], tasks[1..];
      LaterEntries(first, later);
      AllEntries(later);
      var here, rest := WithLater(PairConflicts, first, later), OverPairs(PairConflicts, later);
      assert tasks == [first] + later;
      hide Less, IsEntryOfLater, IsEntryOfSome, InReportOrder;
      forall c | c in rest ensures Less(first.id, c.taskIdA) && IsEntryOfSome(c, tasks) {
        SomeNames(c, first, later);
      }
      forall c | c in here ensures c.taskIdA == first.id && IsEntryOfSome(c, tasks) {
        LaterNames(c, first, later);
      }
      JoinedOrder(here, rest);
    }
  }

  /** Two different tasks, the one with the smaller id first, and an entry of theirs. */
  ghost predicate IsEntryOfTasks(c: Conflict, tasks: seq<Task>) {
    exists a, b :: a in tasks && b in tasks && Less(a.id, b.id) && IsEntryOf(c, a, b)
  }

  lemma OrderedEntry(c: Conflict, ordered: seq<Task>, tasks: seq<Task>)
    requires AscendingIds(ordered) && IsEntryOfSome(c, ordered) && forall t :: t in ordered <==> t in tasks
    ensures IsEntryOfTasks(c, tasks)
  {
    hide Less, IsEntryOf;
    var i, j :| 0 <= i < j < |ordered| && IsEntryOf(c, ordered[i], ordered[j]);
    assert ordered[i] in tasks && ordered[j] in tasks && Less(ordered[i].id, ordered[j].id);
  }

  /** The report lists, in order of the ids, exactly the entries of the pairs of different tasks. */
  lemma ReportIsExact(tasks: seq<Task>)
    requires DistinctIds(tasks)
    ensures InReportOrder(ConflictsOf(tasks))
    ensures forall c :: c in ConflictsOf(tasks) <==> IsEntryOfTasks(c, tasks)
  {
    var ordered := SortBy(TASK_ID_ORDER, tasks);
    OrderedTasksAscend(tasks);
    AllEntries(ordered);
    SameElements(ordered, tasks);
    hide InReportOrder, AscendingIds, IsEntryOfSome, Less;
    forall c ensures c in ConflictsOf(tasks) <==> IsEntryOfTasks(c, tasks) {
      if c in ConflictsOf(tasks) {
        OrderedEntry(c, ordered, tasks);
      } else if IsEntryOfTasks(c, tasks) {
        var a, b :| a in tasks && b in tasks && Less(a.id, b.id) && IsEntryOf(c, a, b);
        EntryIsReported(ordered, a, b, c);
      }
    }
  }

  lemma EntryIsReported(ordered: seq<Task>, a: Task, b: Task, c: Conflict)
    requires AscendingIds(ordered) && a in ordered && b in ordered && Less(a.id, b.id) && IsEntryOf(c, a, b)
    ensures c in OverPairs(PairConflicts, ordered)
  {
    var i :| 0 <= i < |ordered| && ordered[i] == a;
    var j :| 0 <= j < |ordered| && ordered[j] == b;
    StrictStringOrder(a.id, b.id, a.id);
    PairEntries(a, b);
    OverPairsElements(PairConflicts, ordered, c);
  }

  // --- The patterns of a path conflict ---

  lemma PairOrderIsTotal()
    ensures TotalPreorder(PAIR_ORDER)
  {
    forall p, q ensures PAIR_ORDER(p, q) || PAIR_ORDER(q, p) {
      StringOrder(p.0, q.0, q.0);
      StringOrder(p.1, q.1, q.1);
      StrictStringOrder(p.0, q.0, q.0);
    }
    forall p, q, r | PAIR_ORDER(p, q) && PAIR_ORDER(q, r) ensures PAIR_ORDER(p, r) {
      StringOrder(p.1, q.1, r.1);
      StrictStringOrder(p.0, q.0, r.0);
    }
  }

  lemma {:induction false} PairsOccurOnce(found: seq<(string, string)>, a: string, bs: seq<string>)
    requires forall i, j :: 0 <= i < j < |found| ==> found[i] != found[j]
    ensures forall i, j :: 0 <= i < j < |AddPairs(found, a, bs)| ==> AddPairs(found, a, bs)[i] != AddPairs(found, a, bs)[j]
    decreases |bs|
  {
    if bs != [] {
      var next := AddPair(found, a, bs[0]);
      if next != found {
        NewPair(found, (a, bs[0]));
      }
      PairsOccurOnce(next, a, bs[1..]);
    }
  }

  lemma NewPair(found: seq<(string, string)>, p: (string, string))
    requires PairKey(p) !in PairKeys(found)
    ensures p !in found
  {
  }

  lemma {:induction false} AllPairsOccurOnce(found: seq<(string, string)>, as_: seq<string>, bs: seq<string>)
    requires forall i, j :: 0 <= i < j < |found| ==> found[i] != found[j]
    ensures forall i, j :: 0 <= i < j < |AddAllPairs(found, as_, bs)| ==> AddAllPairs(found, as_, bs)[i] != AddAllPairs(found, as_, bs)[j]
    decreases |as_|
  {
    if as_ != [] {
      PairsOccurOnce(found, as_[0], bs);
      AllPairsOccurOnce(AddPairs(found, as_[0], bs), as_[1..], bs);
    }
  }

  /** The pattern pairs of a path conflict are listed once each, in ascending order. */
  lemma OverlapsAscend(a: Scope, b: Scope, i: nat, j: nat)
    requires i < j < |ScopeOverlapsOf(a, b)|
    ensures var p, q := ScopeOverlapsOf(a, b)[i], ScopeOverlapsOf(a, b)[j]; Less(p.0, q.0) || (p.0 == q.0 && Less(p.1, q.1))
  {
    var found, pairs := AddAllPairs([], a.allowedPaths, b.allowedPaths), ScopeOverlapsOf(a, b);
    AllPairsOccurOnce([], a.allowedPaths, b.allowedPaths);
    var key := (p: (string, string)) => p;
    assert DistinctBy(key, found);
    MovedKeysDiffer(key, found, pairs);
    PairOrderIsTotal();
    SortBySorted(PAIR_ORDER, found);
    assert PAIR_ORDER(pairs[i], pairs[j]) && key(pairs[i]) != key(pairs[j]);
    StringOrder(pairs[i].1, pairs[j].1, pairs[j].1);
    hide Less, AtMost, AddAllPairs;
  }
}
