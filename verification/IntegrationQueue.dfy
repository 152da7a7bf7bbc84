/**
 * The durable integration queue: its store transactions
 * (packages/persistence/src/sqlite/sqlite-runner-store.ts) and the pure selection policy
 * (packages/core/src/domain/integration-queue.ts).
 */
module IntegrationQueue {
  import opened Options
  import opened Text
  import opened Sorting

  datatype EntryStatus = Pending | Integrating | CompletedEntry | FailedEntry

  /** What an entry records when it is persisted. */
  datatype Request = Request(
    taskId: string, attemptId: string, executionId: Option<string>, taskRevision: string, branch: string,
    baseRevision: string, enqueuedAt: int)

  datatype Entry = Entry(
    id: string, sequence: nat, request: Request, status: EntryStatus, claimedAt: Option<int>, finishedAt: Option<int>,
    failure: Option<string>)

  /** The rows of the queue in the order of their sequence numbers. */
  type Queue = seq<Entry>

  predicate IsUnfinished(s: EntryStatus) {
    s == Pending || s == Integrating
  }

  predicate IsValid(r: Request) {
    r.taskId != "" && r.attemptId != "" && r.executionId != Some("") && r.taskRevision != "" && r.branch != "" && r.baseRevision != ""
  }

  /** The unique indexes of the table: entry ids, and the pairs of unfinished entries. */
  predicate Clashes(e: Entry, id: string, r: Request) {
    e.id == id || (e.request.taskId == r.taskId && e.request.attemptId == r.attemptId && IsUnfinished(e.status))
  }

  predicate CanEnqueue(q: Queue, id: string, r: Request) {
    id != "" && IsValid(r) && forall i :: 0 <= i < |q| ==> !Clashes(q[i], id, r)
  }

  function NewEntry(q: Queue, id: string, r: Request): Entry {
    Entry(id, |q| + 1, r, Pending, None, None, None)
  }

  function Enqueued(q: Queue, id: string, r: Request): Queue {
    if CanEnqueue(q, id, r) then q + [NewEntry(q, id, r)] else q
  }

  /** The position of the first entry with this status, or the length of the queue. */
  function FirstWith(q: Queue, s: EntryStatus): (i: nat)
    ensures i <= |q| && (i < |q| ==> q[i].status == s) && forall k :: 0 <= k < i ==> q[k].status != s
  {
    if q == [] || q[0].status == s then 0 else
      var i := FirstWith(q[1..], s);
      assert forall k :: 0 < k < 1 + i ==> q[k] == q[1..][k - 1];
      1 + i
  }

  /** The position of the entry to claim; None while one is integrating or when none is pending. */
  function NextToClaim(q: Queue): (r: Option<nat>)
    ensures r.Some? ==> r.value < |q| && q[r.value].status == Pending
  {
    if FirstWith(q, Integrating) < |q| then None
    else if FirstWith(q, Pending) < |q| then Some(FirstWith(q, Pending))
    else None
  }

  function Started(e: Entry, now: int): Entry {
    e.(status := Integrating, claimedAt := Some(now))
  }

  function Claimed(q: Queue, now: int): Queue {
    var next := NextToClaim(q);
    if next.Some? then q[next.value := Started(q[next.value], now)] else q
  }

  /** The position of the entry with this id that is integrating, or the length of the queue. */
  function IntegratingWithId(q: Queue, id: string): (i: nat)
    ensures i <= |q| && (i < |q| ==> q[i].id == id && q[i].status == Integrating)
    ensures forall k :: 0 <= k < i ==> !(q[k].id == id && q[k].status == Integrating)
  {
    if q == [] || (q[0].id == id && q[0].status == Integrating) then 0 else
      var i := IntegratingWithId(q[1..], id);
      assert forall k :: 0 < k < 1 + i ==> q[k] == q[1..][k - 1];
      1 + i
  }

  function Completed(q: Queue, id: string, now: int): Queue {
    var i := IntegratingWithId(q, id);
    if i < |q| then q[i := q[i].(status := CompletedEntry, finishedAt := Some(now), failure := None)] else q
  }

  function Failed(q: Queue, id: string, message: string, now: int): Queue {
    var i := IntegratingWithId(q, id);
    if message != "" && i < |q| then q[i := q[i].(status := FailedEntry, finishedAt := Some(now), failure := Some(message))] else q
  }

  function Requeued(q: Queue, id: string): Queue {
    var i := IntegratingWithId(q, id);
    if i < |q| then q[i := q[i].(status := Pending, claimedAt := None)] else q
  }

  // --- What every run keeps ---

  /** Finished entries, then at most one that is integrating, then pending ones; split at position k. */
  ghost predicate ShapedAt(q: Queue, k: nat) {
    && k <= |q|
    && (forall i :: 0 <= i < k ==> !IsUnfinished(q[i].status))
    && (forall i :: k < i < |q| ==> q[i].status == Pending)
    && (k < |q| ==> IsUnfinished(q[k].status))
  }

  ghost predicate Shaped(q: Queue) {
    exists k: nat :: ShapedAt(q, k)
  }

  /** Rows are numbered in order, ids are unique, and so are the pairs of unfinished entries. */
  ghost predicate Indexed(q: Queue) {
    && (forall i :: 0 <= i < |q| ==> q[i].sequence == i + 1)
    && (forall i, j :: 0 <= i < j < |q| ==> q[i].id != q[j].id)
    && (forall i, j :: 0 <= i < j < |q| && IsUnfinished(q[i].status) && IsUnfinished(q[j].status) ==>
          !(q[i].request.taskId == q[j].request.taskId && q[i].request.attemptId == q[j].request.attemptId))
  }

  ghost predicate QueueInvariant(q: Queue) {
    Shaped(q) && Indexed(q)
  }

  /** The head of a shaped queue decides what is claimed. */
  lemma ShapedHead(q: Queue, k: nat)
    requires ShapedAt(q, k)
    ensures k == |q| ==> NextToClaim(q) == None
    ensures k < |q| && q[k].status == Pending ==> NextToClaim(q) == Some(k)
    ensures k < |q| && q[k].status == Integrating ==> NextToClaim(q) == None && FirstWith(q, Integrating) == k
  {
    if k < |q| && q[k].status == Pending {
      assert FirstWith(q, Pending) == k;
    }
  }

  lemma HeadChanges(q: Queue, k: nat, e: Entry)
    requires ShapedAt(q, k) && k < |q| && Indexed(q)
    requires e.id == q[k].id && e.sequence == q[k].sequence && e.request == q[k].request
    ensures QueueInvariant(q[k := e])
  {
    var n := q[k := e];
    if IsUnfinished(e.status) {
      assert ShapedAt(n, k);
    } else {
      assert ShapedAt(n, k + 1);
    }
  }

  datatype Step =
    | Enqueue(id: string, request: Request)
    | ClaimNext(now: int)
    | Complete(id: string, now: int)
    | Fail(id: string, message: string, now: int)
    | Requeue(id: string)

  function After(q: Queue, step: Step): Queue {
    match step
    case Enqueue(id, request) => Enqueued(q, id, request)
    case ClaimNext(now) => Claimed(q, now)
    case Complete(id, now) => Completed(q, id, now)
    case Fail(id, message, now) => Failed(q, id, message, now)
    case Requeue(id) => Requeued(q, id)
  }

  /** An entry that is integrating is the head of the shaped queue. */
  lemma IntegratingIsHead(q: Queue, k: nat, i: nat)
    requires ShapedAt(q, k) && i < |q| && q[i].status == Integrating
    ensures i == k
  {
  }

  lemma EnqueueKeepsInvariant(q: Queue, id: string, r: Request)
    requires QueueInvariant(q)
    ensures QueueInvariant(Enqueued(q, id, r))
  {
    var k: nat :| ShapedAt(q, k);
    assert ShapedAt(Enqueued(q, id, r), k);
  }

  lemma StepKeepsInvariant(q: Queue, step: Step)
    requires QueueInvariant(q)
    ensures QueueInvariant(After(q, step))
  {
    var k: nat :| ShapedAt(q, k);
    match step
    case Enqueue(id, request) => EnqueueKeepsInvariant(q, id, request);
    case ClaimNext(now) =>
      ShapedHead(q, k);
      if NextToClaim(q).Some? {
        HeadChanges(q, k, Started(q[k], now));
      }
    case _ =>
      var i := IntegratingWithId(q, step.id);
      if i < |q| {
        IntegratingIsHead(q, k, i);
        HeadChanges(q, k, if After(q, step) == q then q[k] else After(q, step)[k]);
      }
  }

  // --- What a step makes of each row ---

  /** Nothing is integrating, and everything before the row is finished. */
  predicate IsNext(q: Queue, i: nat)
    requires i < |q|
  {
    && q[i].status == Pending
    && (forall k :: 0 <= k < |q| ==> q[k].status != Integrating)
    && forall k :: 0 <= k < i ==> q[k].status == CompletedEntry || q[k].status == FailedEntry
  }

  /** The row of an entry after a step, told from the entry and the step alone. */
  function RowAfter(e: Entry, step: Step, isNext: bool): Entry {
    match step
    case Enqueue(_, _) => e
    case ClaimNext(now) =>
      if isNext then Entry(e.id, e.sequence, e.request, Integrating, Some(now), e.finishedAt, e.failure) else e
    case Complete(id, now) =>
      if id == e.id && e.status == Integrating then Entry(e.id, e.sequence, e.request, CompletedEntry, e.claimedAt, Some(now), None) else e
    case Fail(id, message, now) =>
      if id == e.id && e.status == Integrating && message != ""
      then Entry(e.id, e.sequence, e.request, FailedEntry, e.claimedAt, Some(now), Some(message)) else e
    case Requeue(id) =>
      if id == e.id && e.status == Integrating then Entry(e.id, e.sequence, e.request, Pending, None, e.finishedAt, e.failure) else e
  }

  lemma IntegratingRow(q: Queue, id: string, i: nat)
    requires QueueInvariant(q) && i < |q|
    ensures IntegratingWithId(q, id) == i <==> q[i].id == id && q[i].status == Integrating
  {
    if q[i].id == id && q[i].status == Integrating {
      FoundById(q, i);
    }
  }

  lemma NextRow(q: Queue, i: nat)
    requires QueueInvariant(q) && i < |q|
    ensures NextToClaim(q) == Some(i) <==> IsNext(q, i)
  {
    var k: nat :| ShapedAt(q, k);
    ShapedHead(q, k);
    if IsNext(q, i) {
      assert i == k;
    }
  }

  /** A step changes every row as its entry and the step say, and appends at most one. */
  lemma StepsChangeRows(q: Queue, step: Step, i: nat)
    requires QueueInvariant(q) && i < |q|
    ensures |q| <= |After(q, step)| <= |q| + 1 && (|After(q, step)| > |q| ==> step.Enqueue?)
    ensures After(q, step)[i] == RowAfter(q[i], step, IsNext(q, i))
  {
    NextRow(q, i);
    match step
    case Enqueue(_, _) =>
    case ClaimNext(_) =>
    case _ =>
      IntegratingRow(q, step.id, i);
      hide QueueInvariant;
  }

  /** An entry is accepted exactly when it is complete, its id is new, and its attempt has no unfinished entry. */
  lemma EnqueueIsExact(q: Queue, id: string, r: Request)
    ensures var complete := id != "" && r.taskId != "" && r.attemptId != "" && r.executionId != Some("") && r.taskRevision != ""
                            && r.branch != "" && r.baseRevision != "";
            var isNew := forall e :: e in q ==> e.id != id;
            var isOnly := forall e :: e in q && (e.status == Pending || e.status == Integrating) ==>
                            e.request.taskId != r.taskId || e.request.attemptId != r.attemptId;
            Enqueued(q, id, r) == if complete && isNew && isOnly then q + [Entry(id, |q| + 1, r, Pending, None, None, None)] else q
  {
    if exists i :: 0 <= i < |q| && Clashes(q[i], id, r) {
      var i :| 0 <= i < |q| && Clashes(q[i], id, r);
      assert q[i] in q;
    }
  }

  ghost predicate IsRun(run: seq<Queue>, steps: seq<Step>) {
    |run| == |steps| + 1 && run[0] == [] && forall i :: 0 <= i < |steps| ==> run[i + 1] == After(run[i], steps[i])
  }

  /** In every reachable state the queue reads finished*, integrating?, pending*. */
  lemma {:induction false} InvariantHolds(run: seq<Queue>, steps: seq<Step>, i: nat)
    requires IsRun(run, steps) && i < |run|
    ensures QueueInvariant(run[i])
  {
    if i == 0 {
      assert ShapedAt(run[0], 0);
    } else {
      InvariantHolds(run, steps, i - 1);
      StepKeepsInvariant(run[i - 1], steps[i - 1]);
    }
  }

  /** First in, first out: whatever a run claims, every entry enqueued before it is finished. */
  lemma ClaimsAreFifo(run: seq<Queue>, steps: seq<Step>, i: nat, earlier: nat)
    requires IsRun(run, steps) && i < |steps| && steps[i].ClaimNext? && NextToClaim(run[i]).Some?
    requires earlier < NextToClaim(run[i]).value
    ensures !IsUnfinished(run[i][earlier].status)
  {
    InvariantHolds(run, steps, i);
    var k: nat :| ShapedAt(run[i], k);
    ShapedHead(run[i], k);
  }

  /** What never changes about an entry, and when it may change at all. */
  lemma {:induction false} EntriesStay(run: seq<Queue>, steps: seq<Step>, i: nat, j: nat, e: nat)
    requires IsRun(run, steps) && i <= j < |run| && e < |run[i]|
    ensures e < |run[j]| && run[j][e].id == run[i][e].id && run[j][e].request == run[i][e].request
    ensures !IsUnfinished(run[i][e].status) ==> run[j][e] == run[i][e]
    decreases j - i
  {
    if i < j {
      EntriesStay(run, steps, i, j - 1, e);
    }
  }

  ghost predicate OnlyEnqueues(steps: seq<Step>) {
    forall i :: 0 <= i < |steps| ==> steps[i].Enqueue?
  }

  function AfterAll(q: Queue, steps: seq<Step>): Queue
    decreases |steps|
  {
    if steps == [] then q else AfterAll(After(q, steps[0]), steps[1..])
  }

  /** The steps are taken one after the other. */
  lemma {:induction false} StepByStep(q: Queue, steps: seq<Step>, step: Step)
    ensures AfterAll(q, []) == q && AfterAll(q, steps + [step]) == After(AfterAll(q, steps), step)
    decreases |steps|
  {
    hide After;
    if steps == [] {
      assert AfterAll(q, [step]) == AfterAll(After(q, step), []);
    } else {
      assert (steps + [step])[0] == steps[0] && (steps + [step])[1..] == steps[1..] + [step];
      StepByStep(After(q, steps[0]), steps[1..], step);
    }
  }

  lemma {:induction false} EnqueuesKeepHead(q: Queue, steps: seq<Step>, k: nat)
    requires OnlyEnqueues(steps) && ShapedAt(q, k) && k < |q|
    ensures var n := AfterAll(q, steps); ShapedAt(n, k) && k < |n| && n[k] == q[k]
    decreases |steps|
  {
    if steps != [] {
      assert ShapedAt(After(q, steps[0]), k);
      EnqueuesKeepHead(After(q, steps[0]), steps[1..], k);
    }
  }

  /** A requeue followed by a claim returns the same entry, whatever is enqueued in between. */
  lemma RequeueThenClaim(q: Queue, id: string, between: seq<Step>)
    requires QueueInvariant(q) && IntegratingWithId(q, id) < |q| && OnlyEnqueues(between)
    ensures var n := AfterAll(Requeued(q, id), between);
            NextToClaim(n) == Some(IntegratingWithId(q, id)) && n[IntegratingWithId(q, id)].id == id
  {
    var k: nat :| ShapedAt(q, k);
    var i := IntegratingWithId(q, id);
    IntegratingIsHead(q, k, i);
    assert ShapedAt(Requeued(q, id), k);
    EnqueuesKeepHead(Requeued(q, id), between, k);
    ShapedHead(AfterAll(Requeued(q, id), between), k);
  }

  /** What is enqueued does not change which entry is next. */
  lemma EnqueueKeepsNext(q: Queue, id: string, r: Request)
    requires QueueInvariant(q) && NextToClaim(q).Some?
    ensures NextToClaim(Enqueued(q, id, r)) == NextToClaim(q) && Enqueued(q, id, r)[NextToClaim(q).value] == q[NextToClaim(q).value]
  {
    var k: nat :| ShapedAt(q, k);
    ShapedHead(q, k);
    assert ShapedAt(Enqueued(q, id, r), k);
    ShapedHead(Enqueued(q, id, r), k);
  }

  /** An entry that is integrating is found by its id. */
  lemma FoundById(q: Queue, i: nat)
    requires i < |q| && q[i].status == Integrating
    ensures IntegratingWithId(q, q[i].id) < |q|
  {
  }

  // --- The pure selection policy, and that the claim refines it ---

  const QUEUE_ORDER: (Entry, Entry) -> bool :=
    (a: Entry, b: Entry) => if a.sequence != b.sequence then a.sequence < b.sequence else AtMost(a.id, b.id)

  datatype Selection = Selected(entry: Entry) | EntryIntegrating | QueueEmpty

  /** selectNextIntegrationQueueEntry. */
  function SelectNext(entries: seq<Entry>): Selection {
    var ordered := SortBy(QUEUE_ORDER, entries);
    if FirstWith(ordered, Integrating) < |ordered| then EntryIntegrating
    else if FirstWith(ordered, Pending) < |ordered| then Selected(ordered[FirstWith(ordered, Pending)])
    else QueueEmpty
  }

  lemma QueueOrderIsTotal()
    ensures TotalPreorder(QUEUE_ORDER)
  {
    forall a, b ensures QUEUE_ORDER(a, b) || QUEUE_ORDER(b, a) {
      StringOrder(a.id, b.id, b.id);
    }
    forall a, b, c | QUEUE_ORDER(a, b) && QUEUE_ORDER(b, c) ensures QUEUE_ORDER(a, c) {
      StringOrder(a.id, b.id, c.id);
    }
  }

  /** The rows in sequence order are what sorting any listing of them gives. */
  lemma OrderedListing(q: Queue, listing: seq<Entry>)
    requires Indexed(q) && multiset(listing) == multiset(q)
    ensures SortBy(QUEUE_ORDER, listing) == q
  {
    QueueOrderIsTotal();
    SortBySorted(QUEUE_ORDER, listing);
    forall x, y | x in q && y in q && QUEUE_ORDER(x, y) && QUEUE_ORDER(y, x) ensures x == y {
      var i :| 0 <= i < |q| && q[i] == x;
      var j :| 0 <= j < |q| && q[j] == y;
      assert i == j;
    }
    var sorted := SortBy(QUEUE_ORDER, listing);
    SameElements(sorted, q);
    SortedUnique(QUEUE_ORDER, sorted, q);
  }

  /** The store claims exactly the entry the pure policy selects, and none when it selects none. */
  lemma ClaimRefinesSelection(q: Queue, listing: seq<Entry>)
    requires Indexed(q) && multiset(listing) == multiset(q)
    ensures NextToClaim(q).Some? ==> SelectNext(listing) == Selected(q[NextToClaim(q).value])
    ensures NextToClaim(q).None? ==> !SelectNext(listing).Selected?
    ensures SelectNext(listing) == EntryIntegrating <==> exists i :: 0 <= i < |q| && q[i].status == Integrating
  {
    OrderedListing(q, listing);
  }

  // --- The store ---

  class QueueTable {
    var entries: Queue

    constructor ()
      ensures entries == []
    {
      entries := [];
    }

    /** None stands for a thrown persistence error. */
    method Enqueue(id: string, request: Request) returns (r: Option<Entry>)
      modifies this
      ensures entries == Enqueued(old(entries), id, request)
      ensures r == if CanEnqueue(old(entries), id, request) then Some(NewEntry(old(entries), id, request)) else None
    {
      if |id| == 0 || !IsValid(request) {
        return None;
      }
      for i := 0 to |entries|
        invariant entries == old(entries)
        invariant forall k :: 0 <= k < i ==> !Clashes(entries[k], id, request)
      {
        if Clashes(entries[i], id, request) {
          return None;
        }
      }
      var entry := Entry(id, |entries| + 1, request, Pending, None, None, None);
      entries := entries + [entry];
      return Some(entry);
    }

    method FindFirst(s: EntryStatus) returns (i: nat)
      ensures i == FirstWith(entries, s)
    {
      i := 0;
      while i < |entries| && entries[i].status != s
        invariant i <= |entries| && forall k :: 0 <= k < i ==> entries[k].status != s
      {
        i := i + 1;
      }
    }

    method ClaimNext(now: int) returns (r: Option<Entry>)
      modifies this
      ensures entries == Claimed(old(entries), now)
      ensures var next := NextToClaim(old(entries));
              r == if next.Some? then Some(Started(old(entries)[next.value], now)) else None
    {
      var active := FindFirst(Integrating);
      if active < |entries| {
        return None;
      }
      var next := FindFirst(Pending);
      if next == |entries| {
        return None;
      }
      var entry := entries[next].(status := Integrating, claimedAt := Some(now));
      entries := entries[next := entry];
      return Some(entry);
    }

    method FindIntegrating(id: string) returns (i: nat)
      ensures i == IntegratingWithId(entries, id)
    {
      i := 0;
      while i < |entries| && !(entries[i].id == id && entries[i].status == Integrating)
        invariant i <= |entries| && forall k :: 0 <= k < i ==> !(entries[k].id == id && entries[k].status == Integrating)
      {
        i := i + 1;
      }
    }

    method Complete(id: string, now: int) returns (ok: bool)
      modifies this
      ensures entries == Completed(old(entries), id, now)
      ensures ok <==> exists e :: e in old(entries) && e.id == id && e.status == Integrating
    {
      var i := FindIntegrating(id);
      ok := i < |entries|;
      if ok {
        entries := entries[i := entries[i].(status := CompletedEntry, finishedAt := Some(now), failure := None)];
      }
    }

    method Fail(id: string, message: string, now: int) returns (ok: bool)
      modifies this
      ensures entries == Failed(old(entries), id, message, now)
      ensures ok <==> message != "" && exists e :: e in old(entries) && e.id == id && e.status == Integrating
    {
      var i := FindIntegrating(id);
      ok := |message| > 0 && i < |entries|;
      if ok {
        entries := entries[i := entries[i].(status := FailedEntry, finishedAt := Some(now), failure := Some(message))];
      }
    }

    method Requeue(id: string) returns (ok: bool)
      modifies this
      ensures entries == Requeued(old(entries), id)
      ensures ok <==> exists e :: e in old(entries) && e.id == id && e.status == Integrating
    {
      var i := FindIntegrating(id);
      ok := i < |entries|;
      if ok {
        entries := entries[i := entries[i].(status := Pending, claimedAt := None)];
      }
    }
  }
}
