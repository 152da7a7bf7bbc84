/**
 * The unattended run loop (packages/orchestrator/src/unattended-scheduler.ts) over any behaviour of the
 * executions that the coordinator starts and of the integrations that the queue processor settles.
 */
module UnattendedScheduler {
  import opened Options
  import opened Sorting
  import opened TaskStates
  import Q = IntegrationQueue

  /** handleUnexpectedFailure: the status it leaves, and whether recovery is required. */
  function HandleFailure(current: Option<TaskStatus>, openEntry: bool, persists: bool): (r: (Option<TaskStatus>, bool))
    ensures r.1 <==> openEntry || !persists || (current.Some? && IsActive(current.value))
    ensures openEntry || !persists || current.None? || current == Some(Done) ==> r.0 == current
    ensures !openEntry && persists && current.Some? && current != Some(Done) ==> r.0 == Some(if r.1 then NeedsHuman else Failed)
  {
    var target := if current.Some? && IsActive(current.value) then NeedsHuman else Failed;
    if openEntry || !persists then (current, true)
    else (if current.None? || current.value == Done then current else Some(target), target == NeedsHuman)
  }

  /** How one admitted execution ends. */
  datatype Ending =
    | Rejected
    | Completed
    | Pending(entryId: string, request: Q.Request)
    | FailedRun
    | CancelledRun
    | BlockedRun
    | Errored(reached: TaskStatus, openEntry: bool, persists: bool)
    | LeaseLost(reached: TaskStatus)

  datatype Execution = Execution(taskId: string, ending: Ending)

  function StatusAfter(e: Ending): TaskStatus {
    match e
    case Rejected => Ready
    case Completed => Done
    case Pending(_, _) => Integrating
    case FailedRun => Failed
    case CancelledRun => Cancelled
    case BlockedRun => TaskStatus.Blocked
    case Errored(reached, openEntry, persists) => HandleFailure(Some(reached), openEntry, persists).0.value
    case LeaseLost(reached) => reached
  }

  predicate NeedsRecovery(e: Ending) {
    match e
    case Errored(reached, openEntry, persists) => HandleFailure(Some(reached), openEntry, persists).1
    case LeaseLost(_) => true
    case _ => false
  }

  /** An execution made progress unless its workflow was rejected. */
  predicate IsProgress(e: Ending) {
    !e.Rejected?
  }

  predicate SomeProgress(executions: seq<Execution>) {
    exists i :: 0 <= i < |executions| && IsProgress(executions[i].ending)
  }

  predicate NoRecovery(executions: seq<Execution>) {
    forall i :: 0 <= i < |executions| ==> !NeedsRecovery(executions[i].ending)
  }

  lemma OneMore(executions: seq<Execution>, e: Execution)
    ensures NoRecovery(executions + [e]) <==> NoRecovery(executions) && !NeedsRecovery(e.ending)
    ensures SomeProgress(executions + [e]) <==> SomeProgress(executions) || IsProgress(e.ending)
  {
    hide NeedsRecovery, IsProgress;
    var more := executions + [e];
    assert more[|executions|] == e && forall i :: 0 <= i < |executions| ==> more[i] == executions[i];
    if SomeProgress(executions) {
      var i :| 0 <= i < |executions| && IsProgress(executions[i].ending);
      assert IsProgress(more[i].ending);
    }
  }

  /** How the processor settles the entry it claimed. */
  datatype Settlement = SettledDone | SettledFailed | LockNotReleased | NotSettled

  datatype QueueOutcome = Empty | BlockedQueue | Processed(taskId: string) | NotProcessed(taskId: string)

  /** What the n-th dispatch executes and which claims it leaves, and how the n-th integration is settled. */
  datatype Outside = Outside(executions: nat -> seq<Execution>, activeClaims: nat -> nat, settle: nat -> Settlement)

  function ReadyTasks(tasks: map<string, TaskStatus>): set<string> {
    set id | id in tasks && tasks[id] == Ready
  }

  function PendingEntries(q: Q.Queue): set<nat> {
    set i: nat | i < |q| && q[i].status == Q.Pending
  }

  predicate HasIntegrating(q: Q.Queue) {
    Q.FirstWith(q, Q.Integrating) < |q|
  }

  /** What finished stays finished. */
  ghost predicate DoneStays(before: map<string, TaskStatus>, after: map<string, TaskStatus>) {
    forall id :: id in before && before[id] == Done ==> id in after && after[id] == Done
  }

  ghost predicate AllDone(ids: seq<string>, tasks: map<string, TaskStatus>) {
    forall i :: 0 <= i < |ids| ==> ids[i] in tasks && tasks[ids[i]] == Done
  }

  lemma ClaimTakesPending(q: Q.Queue, now: int)
    requires Q.NextToClaim(q).Some?
    ensures |PendingEntries(Q.Claimed(q, now))| < |PendingEntries(q)|
  {
    var i := Q.NextToClaim(q).value;
    assert PendingEntries(Q.Claimed(q, now)) == PendingEntries(q) - {i};
  }

  lemma SettlingKeepsPending(q: Q.Queue, id: string, message: string, now: int)
    ensures PendingEntries(Q.Completed(q, id, now)) == PendingEntries(q)
    ensures PendingEntries(Q.Failed(q, id, message, now)) == PendingEntries(q)
  {
  }

  lemma NothingToClaim(q: Q.Queue)
    requires Q.NextToClaim(q).None? && !HasIntegrating(q)
    ensures PendingEntries(q) == {}
  {
  }

  /** What the executions so far have made of the tasks: each one started from a ready task of its own. */
  ghost predicate ExecutedSoFar(before: map<string, TaskStatus>, after: map<string, TaskStatus>, executions: seq<Execution>, seen: set<string>) {
    && after.Keys == before.Keys
    && (forall id :: id in after && id !in seen ==> after[id] == before[id])
    && (forall id :: id in seen ==> id in before && before[id] == Ready)
    && (forall k :: 0 <= k < |executions| ==> executions[k].taskId in seen && after[executions[k].taskId] == StatusAfter(executions[k].ending))
  }

  /** Each execution started from a ready task of its own and left it in the status of its ending; no other task changed. */
  ghost predicate ExecutedAll(before: map<string, TaskStatus>, after: map<string, TaskStatus>, executions: seq<Execution>) {
    exists seen :: ExecutedSoFar(before, after, executions, seen)
  }

  lemma ExecuteOne(before: map<string, TaskStatus>, after: map<string, TaskStatus>, executions: seq<Execution>, seen: set<string>, e: Execution)
    requires ExecutedSoFar(before, after, executions, seen)
    requires e.taskId in after && after[e.taskId] == Ready && e.taskId !in seen
    ensures ExecutedSoFar(before, after[e.taskId := StatusAfter(e.ending)], executions + [e], seen + {e.taskId})
  {
    hide StatusAfter;
  }

  lemma EndingsLeaveReady(e: Ending)
    ensures !NeedsRecovery(e) && IsProgress(e) ==> StatusAfter(e) != Ready
  {
  }

  /** Executions only start ready tasks; one with progress, or an error that needs no recovery, has left READY. */
  lemma ProgressLeavesReady(before: map<string, TaskStatus>, after: map<string, TaskStatus>, executions: seq<Execution>, seen: set<string>)
    requires ExecutedSoFar(before, after, executions, seen)
    ensures DoneStays(before, after) && ReadyTasks(after) <= ReadyTasks(before)
    ensures NoRecovery(executions) && SomeProgress(executions) ==> ReadyTasks(after) < ReadyTasks(before)
    ensures forall i :: 0 <= i < |executions| && executions[i].ending.Completed? ==>
              executions[i].taskId in after && after[executions[i].taskId] == Done
  {
    hide NeedsRecovery, IsProgress;
    forall i | 0 <= i < |executions| ensures !NeedsRecovery(executions[i].ending) && IsProgress(executions[i].ending) ==> after[executions[i].taskId] != Ready {
      EndingsLeaveReady(executions[i].ending);
    }
    if SomeProgress(executions) && NoRecovery(executions) {
      var i :| 0 <= i < |executions| && IsProgress(executions[i].ending);
      assert executions[i].taskId in ReadyTasks(before) && executions[i].taskId !in ReadyTasks(after);
    }
  }

  datatype RunKind = Quiescent | Blocked

  /** One cycle of the outer loop: what the dispatch executed and which claims it left, and what the integrations answered. */
  datatype Cycle = Cycle(executions: seq<Execution>, activeClaims: nat, integrations: seq<QueueOutcome>)

  datatype RunResult = RunResult(kind: RunKind, cycles: seq<Cycle>, completed: seq<string>, failed: seq<string>)

  // --- What a cycle amounts to ---

  predicate IsIntegration(outcome: QueueOutcome) {
    outcome.Processed? || outcome.NotProcessed?
  }

  predicate SomeIntegration(outcomes: seq<QueueOutcome>) {
    exists i :: 0 <= i < |outcomes| && IsIntegration(outcomes[i])
  }

  /** The integrations of a cycle: settled entries, and at the end an empty or a blocked queue. */
  predicate IsDrain(outcomes: seq<QueueOutcome>) {
    && outcomes != [] && !IsIntegration(outcomes[|outcomes| - 1])
    && forall i :: 0 <= i < |outcomes| - 1 ==> IsIntegration(outcomes[i])
  }

  predicate MetIntegrating(c: Cycle) {
    c.integrations != [] && c.integrations[|c.integrations| - 1].BlockedQueue?
  }

  /** Claims are held, and nothing moves. */
  predicate IsStalled(c: Cycle) {
    c.activeClaims > 0 && !SomeProgress(c.executions) && !SomeIntegration(c.integrations)
  }

  predicate ShouldBlock(c: Cycle) {
    MetIntegrating(c) || !NoRecovery(c.executions) || IsStalled(c)
  }

  predicate ShouldQuiesce(c: Cycle) {
    && !MetIntegrating(c) && NoRecovery(c.executions) && c.activeClaims == 0
    && !SomeProgress(c.executions) && !SomeIntegration(c.integrations)
  }

  predicate ShouldGoOn(c: Cycle) {
    && !MetIntegrating(c) && NoRecovery(c.executions)
    && (SomeProgress(c.executions) || SomeIntegration(c.integrations))
  }

  /** A cycle is of exactly one kind. */
  lemma CycleKinds(c: Cycle)
    ensures ShouldBlock(c) <==> !ShouldQuiesce(c) && !ShouldGoOn(c)
    ensures !(ShouldQuiesce(c) && ShouldGoOn(c))
  {
    hide SomeProgress, SomeIntegration, NoRecovery, MetIntegrating;
  }

  predicate CountsAsFailed(e: Ending) {
    !e.Completed? && !e.Rejected? && !e.Pending?
  }

  function ExecutedAs(executions: seq<Execution>, counts: Ending -> bool): seq<string> {
    if executions == [] then []
    else
      ExecutedAs(executions[..|executions| - 1], counts)
      + if counts(executions[|executions| - 1].ending) then [executions[|executions| - 1].taskId] else []
  }

  const COMPLETED: Ending -> bool := (e: Ending) => e.Completed?
  const FAILED: Ending -> bool := (e: Ending) => CountsAsFailed(e)

  function IntegratedAs(outcomes: seq<QueueOutcome>, processed: bool): seq<string> {
    if outcomes == [] then []
    else
      var last := outcomes[|outcomes| - 1];
      IntegratedAs(outcomes[..|outcomes| - 1], processed)
      + match last
        case Processed(taskId) => if processed then [taskId] else []
        case NotProcessed(taskId) => if processed then [] else [taskId]
        case _ => []
  }

  lemma {:induction false} ExecutedAsExact(executions: seq<Execution>, counts: Ending -> bool, id: string)
    ensures id in ExecutedAs(executions, counts) <==> exists x :: x in executions && x.taskId == id && counts(x.ending)
  {
    if executions != [] {
      var n := |executions| - 1;
      ExecutedAsExact(executions[..n], counts, id);
      assert executions == executions[..n] + [executions[n]];
    }
  }

  lemma {:induction false} IntegratedAsExact(outcomes: seq<QueueOutcome>, processed: bool, id: string)
    ensures id in IntegratedAs(outcomes, processed) <==> if processed then Processed(id) in outcomes else NotProcessed(id) in outcomes
  {
    if outcomes != [] {
      var n := |outcomes| - 1;
      IntegratedAsExact(outcomes[..n], processed, id);
      assert outcomes == outcomes[..n] + [outcomes[n]];
    }
  }

  /** The tasks that the cycles report as completed, in order: the integrated ones of a cycle before the executed ones. */
  function CompletedIn(cycles: seq<Cycle>): seq<string> {
    if cycles == [] then []
    else
      var last := cycles[|cycles| - 1];
      CompletedIn(cycles[..|cycles| - 1]) + IntegratedAs(last.integrations, true) + ExecutedAs(last.executions, COMPLETED)
  }

  function FailedIn(cycles: seq<Cycle>): seq<string> {
    if cycles == [] then []
    else
      var last := cycles[|cycles| - 1];
      FailedIn(cycles[..|cycles| - 1]) + IntegratedAs(last.integrations, false) + ExecutedAs(last.executions, FAILED)
  }

  /** A task of the cycle was integrated, or its execution completed. */
  ghost predicate CompletesIn(c: Cycle, id: string) {
    Processed(id) in c.integrations || exists x :: x in c.executions && x.taskId == id && x.ending == Completed
  }

  /** An integration of the cycle went wrong, or an execution ended badly or with an error. */
  ghost predicate FailsIn(c: Cycle, id: string) {
    || NotProcessed(id) in c.integrations
    || exists x :: x in c.executions && x.taskId == id
         && (x.ending in {FailedRun, CancelledRun, BlockedRun} || x.ending.Errored? || x.ending.LeaseLost?)
  }

  /** A run reports exactly the tasks that completed, and those that failed, in some cycle. */
  lemma {:induction false} ReportsAreExact(cycles: seq<Cycle>, id: string)
    ensures id in CompletedIn(cycles) <==> exists c :: c in cycles && CompletesIn(c, id)
    ensures id in FailedIn(cycles) <==> exists c :: c in cycles && FailsIn(c, id)
  {
    if cycles != [] {
      var n := |cycles| - 1;
      var last := cycles[n];
      ReportsAreExact(cycles[..n], id);
      assert cycles == cycles[..n] + [last];
      CycleReports(last, id);
      hide CompletesIn, FailsIn;
    }
  }

  lemma CycleReports(c: Cycle, id: string)
    ensures CompletesIn(c, id) <==> id in IntegratedAs(c.integrations, true) || id in ExecutedAs(c.executions, COMPLETED)
    ensures FailsIn(c, id) <==> id in IntegratedAs(c.integrations, false) || id in ExecutedAs(c.executions, FAILED)
  {
    hide ExecutedAs, IntegratedAs;
    ExecutedAsExact(c.executions, COMPLETED, id);
    ExecutedAsExact(c.executions, FAILED, id);
    IntegratedAsExact(c.integrations, true, id);
    IntegratedAsExact(c.integrations, false, id);
  }

  /** The queue after the executions that ended in a committed revision. */
  function EnqueuedBy(q: Q.Queue, executions: seq<Execution>): Q.Queue {
    if executions == [] then q
    else
      var before, last := EnqueuedBy(q, executions[..|executions| - 1]), executions[|executions| - 1].ending;
      if last.Pending? then Q.Enqueued(before, last.entryId, last.request) else before
  }

  lemma NoProgressEnqueuesNothing(q: Q.Queue, executions: seq<Execution>)
    requires !SomeProgress(executions)
    ensures EnqueuedBy(q, executions) == q
  {
    if executions != [] {
      var front, last := executions[..|executions| - 1], executions[|executions| - 1];
      assert executions == front + [last];
      OneMore(front, last);
      hide SomeProgress, NoRecovery, NeedsRecovery;
      NoProgressEnqueuesNothing(q, front);
    }
  }

  lemma EnqueueOneMore(q: Q.Queue, executions: seq<Execution>, e: Execution)
    ensures EnqueuedBy(q, executions + [e]) ==
            if e.ending.Pending? then Q.Enqueued(EnqueuedBy(q, executions), e.ending.entryId, e.ending.request) else EnqueuedBy(q, executions)
  {
    assert (executions + [e])[..|executions|] == executions;
  }

  /** Every one of the tasks was executed. */
  ghost predicate Covers(executions: seq<Execution>, ids: set<string>) {
    forall id :: id in ids ==> exists k :: 0 <= k < |executions| && executions[k].taskId == id
  }

  lemma CoversOneMore(executions: seq<Execution>, e: Execution, ids: set<string>)
    requires Covers(executions, ids)
    ensures Covers(executions + [e], ids + {e.taskId})
  {
    var more := executions + [e];
    assert more[|executions|] == e;
    forall id | id in ids ensures exists k :: 0 <= k < |more| && more[k].taskId == id {
      var k :| 0 <= k < |executions| && executions[k].taskId == id;
      assert more[k] == executions[k];
    }
  }

  lemma DrainedSoFar(before: map<string, TaskStatus>, tasks: map<string, TaskStatus>, front: seq<Cycle>, started: Cycle, log: seq<Cycle>,
                     outcomes: seq<QueueOutcome>, completed: seq<string>, failed: seq<string>)
    requires DrainSoFar(before, tasks, front, started, log, outcomes, completed, failed)
    ensures log == front + [started.(integrations := outcomes)]
    ensures completed == IntegratedAs(outcomes, true) && failed == IntegratedAs(outcomes, false)
    ensures DoneStays(before, tasks) && ReadyTasks(tasks) <= ReadyTasks(before) && AllDone(completed, tasks)
  {
  }

  lemma CoversOne(executions: seq<Execution>, ids: set<string>, id: string)
    requires Covers(executions, ids) && id in ids
    ensures exists k :: 0 <= k < |executions| && executions[k].taskId == id
  {
  }

  lemma IntegratedOneMore(outcomes: seq<QueueOutcome>, outcome: QueueOutcome, processed: bool)
    ensures IntegratedAs(outcomes + [outcome], processed) == IntegratedAs(outcomes, processed) +
            match outcome
            case Processed(taskId) => if processed then [taskId] else []
            case NotProcessed(taskId) => if processed then [] else [taskId]
            case _ => []
  {
    assert (outcomes + [outcome])[..|outcomes|] == outcomes;
  }

  lemma DrainEnds(before: seq<QueueOutcome>, outcome: QueueOutcome)
    requires (forall i :: 0 <= i < |before| ==> IsIntegration(before[i])) && !IsIntegration(outcome)
    ensures IsDrain(before + [outcome]) && (SomeIntegration(before + [outcome]) ==> before != [])
  {
  }

  lemma LogOneMore(front: seq<Cycle>, c: Cycle, outcome: QueueOutcome)
    ensures WithIntegration(front + [c], outcome) == front + [c.(integrations := c.integrations + [outcome])]
  {
    assert (front + [c])[..|front|] == front;
  }

  /** What the executions so far have made of tasks and queue, and that none of the offered ones was passed over. */
  ghost predicate DispatchSoFar(before: map<string, TaskStatus>, tasks: map<string, TaskStatus>, queueBefore: Q.Queue, queue: Q.Queue,
                                offered: seq<Execution>, executions: seq<Execution>, seen: set<string>) {
    && ExecutedSoFar(before, tasks, executions, seen) && Covers(executions, seen) && queue == EnqueuedBy(queueBefore, executions)
    && forall j :: 0 <= j < |offered| && offered[j].taskId in before && before[offered[j].taskId] == Ready ==> offered[j].taskId in seen
  }

  lemma DispatchOne(before: map<string, TaskStatus>, tasks: map<string, TaskStatus>, queueBefore: Q.Queue, queue: Q.Queue,
                    offered: seq<Execution>, executions: seq<Execution>, seen: set<string>, e: Execution)
    requires DispatchSoFar(before, tasks, queueBefore, queue, offered, executions, seen)
    ensures if e.taskId !in tasks || tasks[e.taskId] != Ready || e.taskId in seen
            then DispatchSoFar(before, tasks, queueBefore, queue, offered + [e], executions, seen)
            else DispatchSoFar(before, tasks[e.taskId := StatusAfter(e.ending)], queueBefore,
                               if e.ending.Pending? then Q.Enqueued(queue, e.ending.entryId, e.ending.request) else queue,
                               offered + [e], executions + [e], seen + {e.taskId})
  {
    if e.taskId in tasks && tasks[e.taskId] == Ready && e.taskId !in seen {
      ExecuteOne(before, tasks, executions, seen, e);
      CoversOneMore(executions, e, seen);
      EnqueueOneMore(queueBefore, executions, e);
      hide ExecutedSoFar, Covers, EnqueuedBy, StatusAfter, Q.Enqueued;
    } else {
      hide Covers, EnqueuedBy, StatusAfter;
    }
  }

  /** Every execution that is offered for a ready task is carried out, or another one of the same task. */
  ghost predicate NonePassedOver(offered: seq<Execution>, before: map<string, TaskStatus>, executions: seq<Execution>) {
    forall e :: e in offered && e.taskId in before && before[e.taskId] == Ready ==>
      exists k :: 0 <= k < |executions| && executions[k].taskId == e.taskId
  }

  lemma DispatchedSoFar(before: map<string, TaskStatus>, tasks: map<string, TaskStatus>, queueBefore: Q.Queue, queue: Q.Queue,
                        offered: seq<Execution>, executions: seq<Execution>, seen: set<string>)
    requires DispatchSoFar(before, tasks, queueBefore, queue, offered, executions, seen)
    ensures ExecutedAll(before, tasks, executions)
    ensures NonePassedOver(offered, before, executions)
    ensures queue == EnqueuedBy(queueBefore, executions) && (!SomeProgress(executions) ==> queue == queueBefore)
    ensures DoneStays(before, tasks) && ReadyTasks(tasks) <= ReadyTasks(before)
    ensures NoRecovery(executions) && SomeProgress(executions) ==> ReadyTasks(tasks) < ReadyTasks(before)
    ensures forall i :: 0 <= i < |executions| && executions[i].ending.Completed? ==>
              executions[i].taskId in tasks && tasks[executions[i].taskId] == Done
  {
    ProgressLeavesReady(before, tasks, executions, seen);
    hide ExecutedSoFar, SomeProgress, NoRecovery, ReadyTasks, DoneStays;
    forall e | e in offered && e.taskId in before && before[e.taskId] == Ready
      ensures exists k :: 0 <= k < |executions| && executions[k].taskId == e.taskId
    {
      CoversOne(executions, seen, e.taskId);
    }
    if !SomeProgress(executions) {
      NoProgressEnqueuesNothing(queueBefore, executions);
    }
  }

  /** The cycles before the last all went on, and the lists are those of the cycles. */
  ghost predicate RunSoFar(before: map<string, TaskStatus>, tasks: map<string, TaskStatus>, cycles: seq<Cycle>, completed: seq<string>, failed: seq<string>) {
    (forall i :: 0 <= i < |cycles| ==> ShouldGoOn(cycles[i])) && ListsFit(before, tasks, cycles, completed, failed)
  }

  ghost predicate ListsFit(before: map<string, TaskStatus>, tasks: map<string, TaskStatus>, cycles: seq<Cycle>, completed: seq<string>, failed: seq<string>) {
    completed == CompletedIn(cycles) && failed == FailedIn(cycles) && DoneStays(before, tasks) && AllDone(completed, tasks)
  }

  lemma RunOneMore(before: map<string, TaskStatus>, tasks: map<string, TaskStatus>, next: map<string, TaskStatus>, cycles: seq<Cycle>,
                   completed: seq<string>, failed: seq<string>, c: Cycle)
    requires RunSoFar(before, tasks, cycles, completed, failed) && DoneStays(tasks, next)
    requires AllDone(IntegratedAs(c.integrations, true) + ExecutedAs(c.executions, COMPLETED), next)
    ensures ListsFit(before, next, cycles + [c], completed + IntegratedAs(c.integrations, true) + ExecutedAs(c.executions, COMPLETED),
                     failed + IntegratedAs(c.integrations, false) + ExecutedAs(c.executions, FAILED))
    ensures forall i :: 0 <= i < |cycles| ==> ShouldGoOn((cycles + [c])[i])
  {
    var more, done := cycles + [c], IntegratedAs(c.integrations, true) + ExecutedAs(c.executions, COMPLETED);
    assert more[..|more| - 1] == cycles && more[|cycles|] == c;
    assert completed + IntegratedAs(c.integrations, true) + ExecutedAs(c.executions, COMPLETED) == completed + done;
    hide ShouldGoOn, IntegratedAs, ExecutedAs;
    forall i | 0 <= i < |completed + done| ensures (completed + done)[i] in next && next[(completed + done)[i]] == Done {
      if i >= |completed| {
        assert (completed + done)[i] == done[i - |completed|];
      }
    }
  }

  lemma EndOfRun(before: map<string, TaskStatus>, tasks: map<string, TaskStatus>, cycles: seq<Cycle>, c: Cycle, completed: seq<string>, failed: seq<string>)
    requires ListsFit(before, tasks, cycles + [c], completed, failed) && forall i :: 0 <= i < |cycles| ==> ShouldGoOn((cycles + [c])[i])
    ensures completed == CompletedIn(cycles + [c]) && failed == FailedIn(cycles + [c])
    ensures DoneStays(before, tasks) && AllDone(completed, tasks)
    ensures forall i :: 0 <= i < |cycles + [c]| - 1 ==> ShouldGoOn((cycles + [c])[i])
  {
    hide ShouldGoOn, DoneStays, AllDone, CompletedIn, FailedIn;
  }

  lemma WentOn(before: map<string, TaskStatus>, tasks: map<string, TaskStatus>, cycles: seq<Cycle>, c: Cycle, completed: seq<string>, failed: seq<string>)
    requires ListsFit(before, tasks, cycles + [c], completed, failed) && forall i :: 0 <= i < |cycles| ==> ShouldGoOn((cycles + [c])[i])
    requires ShouldGoOn(c)
    ensures RunSoFar(before, tasks, cycles + [c], completed, failed)
  {
    hide ShouldGoOn, ListsFit;
  }

  /** What the inner loop has made of tasks, log and lists. */
  ghost predicate DrainSoFar(before: map<string, TaskStatus>, tasks: map<string, TaskStatus>, front: seq<Cycle>, started: Cycle, log: seq<Cycle>,
                             outcomes: seq<QueueOutcome>, completed: seq<string>, failed: seq<string>) {
    && log == front + [started.(integrations := outcomes)]
    && completed == IntegratedAs(outcomes, true) && failed == IntegratedAs(outcomes, false)
    && DoneStays(before, tasks) && ReadyTasks(tasks) <= ReadyTasks(before) && AllDone(completed, tasks)
  }

  lemma DrainOneMore(before: map<string, TaskStatus>, tasks: map<string, TaskStatus>, next: map<string, TaskStatus>, front: seq<Cycle>,
                     started: Cycle, log: seq<Cycle>, outcomes: seq<QueueOutcome>, completed: seq<string>, failed: seq<string>, outcome: QueueOutcome)
    requires DrainSoFar(before, tasks, front, started, log, outcomes, completed, failed)
    requires DoneStays(tasks, next) && ReadyTasks(next) <= ReadyTasks(tasks)
    requires outcome.Processed? ==> outcome.taskId in next && next[outcome.taskId] == Done
    ensures DrainSoFar(before, next, front, started, WithIntegration(log, outcome), outcomes + [outcome],
                       completed + (if outcome.Processed? then [outcome.taskId] else []),
                       failed + (if outcome.NotProcessed? then [outcome.taskId] else []))
  {
    LogOneMore(front, started.(integrations := outcomes), outcome);
    IntegratedOneMore(outcomes, outcome, true);
    IntegratedOneMore(outcomes, outcome, false);
    hide WithIntegration, IntegratedAs, ReadyTasks;
    assert completed + [] == completed && failed + [] == failed;
  }

  class Scheduler {
    const outside: Outside
    var tasks: map<string, TaskStatus>
    var queue: Q.Queue
    var dispatches: nat
    var settlements: nat
    var running: bool
    /** The dispatches and integrations that have taken place, cycle by cycle. */
    ghost var log: seq<Cycle>

    constructor (outside: Outside, tasks: map<string, TaskStatus>, queue: Q.Queue)
      ensures this.outside == outside && this.tasks == tasks && this.queue == queue && !running && log == []
    {
      this.outside, this.tasks, this.queue := outside, tasks, queue;
      dispatches, settlements, running, log := 0, 0, false, [];
    }

    /** The coordinator executes ready tasks, each of them once, with the endings that come from outside. */
    method DispatchAvailable() returns (executions: seq<Execution>, activeClaims: nat)
      modifies `tasks, `queue, `dispatches, `log
      ensures log == old(log) + [Cycle(executions, activeClaims, [])]
      ensures activeClaims == outside.activeClaims(old(dispatches)) && dispatches == old(dispatches) + 1
      ensures ExecutedAll(old(tasks), tasks, executions)
      ensures NonePassedOver(old(outside.executions(dispatches)), old(tasks), executions)
      ensures queue == EnqueuedBy(old(queue), executions)
      ensures DoneStays(old(tasks), tasks)
      ensures ReadyTasks(tasks) <= ReadyTasks(old(tasks))
      ensures NoRecovery(executions) && SomeProgress(executions) ==> ReadyTasks(tasks) < ReadyTasks(old(tasks))
      ensures !SomeProgress(executions) ==> queue == old(queue)
      ensures forall i :: 0 <= i < |executions| && executions[i].ending.Completed? ==>
                executions[i].taskId in tasks && tasks[executions[i].taskId] == Done
    {
      var offered := outside.executions(dispatches);
      activeClaims := outside.activeClaims(dispatches);
      dispatches := dispatches + 1;
      executions := [];
      var seen: set<string> := {};
      assert DispatchSoFar(tasks, tasks, queue, queue, offered[..0], [], {});
      hide DispatchSoFar, ExecutedAll, StatusAfter, Q.Enqueued, ReadyTasks, DoneStays, EnqueuedBy, NoRecovery, SomeProgress, NonePassedOver;
      for i := 0 to |offered|
        invariant DispatchSoFar(old(tasks), tasks, old(queue), queue, offered[..i], executions, seen)
        invariant log == old(log) && dispatches == old(dispatches) + 1
      {
        var e := offered[i];
        assert offered[..i + 1] == offered[..i] + [e];
        DispatchOne(old(tasks), tasks, old(queue), queue, offered[..i], executions, seen, e);
        if e.taskId !in tasks || tasks[e.taskId] != Ready || e.taskId in seen {
          continue;
        }
        seen := seen + {e.taskId};
        tasks := tasks[e.taskId := StatusAfter(e.ending)];
        if e.ending.Pending? {
          queue := Q.Enqueued(queue, e.ending.entryId, e.ending.request);
        }
        executions := executions + [e];
      }
      assert offered[..|offered|] == offered;
      DispatchedSoFar(old(tasks), tasks, old(queue), queue, offered, executions, seen);
      log := log + [Cycle(executions, activeClaims, [])];
    }

    /** The processor claims and settles at most one entry, the next one. */
    method ProcessNext() returns (outcome: QueueOutcome)
      requires log != []
      modifies `tasks, `queue, `settlements, `log
      ensures log == WithIntegration(old(log), outcome)
      ensures DoneStays(old(tasks), tasks) && ReadyTasks(tasks) <= ReadyTasks(old(tasks))
      ensures outcome.Empty? <==> Q.NextToClaim(old(queue)).None? && !HasIntegrating(old(queue))
      ensures outcome.BlockedQueue? <==> Q.NextToClaim(old(queue)).None? && HasIntegrating(old(queue))
      ensures outcome.Empty? ==> PendingEntries(queue) == {} && !HasIntegrating(queue)
      ensures !IsIntegration(outcome) ==> queue == old(queue) && tasks == old(tasks)
      ensures IsIntegration(outcome) ==> |PendingEntries(queue)| < |PendingEntries(old(queue))|
      ensures IsIntegration(outcome) ==>
                var entry := old(queue)[Q.NextToClaim(old(queue)).value];
                && outcome.taskId == entry.request.taskId
                && (outcome.Processed? <==> outside.settle(old(settlements)).SettledDone?)
                && tasks == SettledBy(old(tasks), entry.request.taskId, outside.settle(old(settlements)))
      ensures outcome.Processed? ==> outcome.taskId in tasks && tasks[outcome.taskId] == Done
    {
      var next := Q.NextToClaim(queue);
      if next.None? {
        if HasIntegrating(queue) {
          outcome := BlockedQueue;
        } else {
          NothingToClaim(queue);
          outcome := Empty;
        }
        log := WithIntegration(log, outcome);
        return;
      }
      ClaimTakesPending(queue, 0);
      var entry := queue[next.value];
      var taskId := entry.request.taskId;
      queue := Q.Claimed(queue, 0);
      SettlingKeepsPending(queue, entry.id, "failed", 0);
      hide Q.Completed, Q.Failed, Q.NextToClaim, PendingEntries, HasIntegrating;
      var settlement := outside.settle(settlements);
      settlements := settlements + 1;
      SettlementKeepsDone(tasks, taskId, settlement);
      hide ReadyTasks, DoneStays, WithIntegration;
      tasks := SettledBy(tasks, taskId, settlement);
      match settlement {
        case SettledDone =>
          queue, outcome := Q.Completed(queue, entry.id, 0), Processed(taskId);
        case LockNotReleased =>
          queue, outcome := Q.Completed(queue, entry.id, 0), NotProcessed(taskId);
        case SettledFailed =>
          queue, outcome := Q.Failed(queue, entry.id, "failed", 0), NotProcessed(taskId);
        case NotSettled =>
          outcome := NotProcessed(taskId);
      }
      log := WithIntegration(log, outcome);
    }

    /** The inner loop: it always ends, with the queue drained or blocked. */
    method DrainQueue(ghost started: Cycle) returns (integrations: seq<QueueOutcome>, completed: seq<string>, failed: seq<string>)
      requires log != [] && log[|log| - 1] == started && started.integrations == []
      modifies `tasks, `queue, `settlements, `log
      ensures log == old(log)[..|old(log)| - 1] + [started.(integrations := integrations)]
      ensures IsDrain(integrations)
      ensures completed == IntegratedAs(integrations, true) && failed == IntegratedAs(integrations, false)
      ensures DoneStays(old(tasks), tasks) && ReadyTasks(tasks) <= ReadyTasks(old(tasks))
      ensures integrations[|integrations| - 1].Empty? ==> PendingEntries(queue) == {} && !HasIntegrating(queue)
      ensures integrations[|integrations| - 1].BlockedQueue? ==> Q.NextToClaim(queue).None? && HasIntegrating(queue)
      ensures SomeIntegration(integrations) ==> PendingEntries(old(queue)) != {}
      ensures AllDone(completed, tasks)
    {
      integrations, completed, failed := [], [], [];
      ghost var front := log[..|log| - 1];
      assert DrainSoFar(tasks, tasks, front, started, log, [], [], []);
      hide DrainSoFar, HasIntegrating, PendingEntries, ReadyTasks, DoneStays, AllDone, WithIntegration, IntegratedAs, IsDrain, SomeIntegration,
        SettledBy, Q.NextToClaim;
      while true
        invariant DrainSoFar(old(tasks), tasks, front, started, log, integrations, completed, failed)
        invariant forall i :: 0 <= i < |integrations| ==> IsIntegration(integrations[i])
        invariant |PendingEntries(queue)| <= |PendingEntries(old(queue))|
        invariant integrations != [] ==> |PendingEntries(old(queue))| > 0
        decreases |PendingEntries(queue)|
      {
        ghost var tasksBefore, logBefore, done := tasks, log, integrations;
        var outcome := ProcessNext();
        DrainOneMore(old(tasks), tasksBefore, tasks, front, started, logBefore, done, completed, failed, outcome);
        integrations := integrations + [outcome];
        if !IsIntegration(outcome) {
          assert completed + [] == completed && failed + [] == failed;
          DrainEnds(done, outcome);
          DrainedSoFar(old(tasks), tasks, front, started, log, integrations, completed, failed);
          return;
        }
        if outcome.Processed? {
          completed := completed + [outcome.taskId];
          assert failed + [] == failed;
        } else {
          failed := failed + [outcome.taskId];
          assert completed + [] == completed;
        }
      }
    }

    /** collectTaskOutcome. */
    method Collect(executions: seq<Execution>) returns (completed: seq<string>, failed: seq<string>)
      ensures completed == ExecutedAs(executions, COMPLETED) && failed == ExecutedAs(executions, FAILED)
    {
      completed, failed := [], [];
      for i := 0 to |executions|
        invariant completed == ExecutedAs(executions[..i], COMPLETED) && failed == ExecutedAs(executions[..i], FAILED)
      {
        assert executions[..i + 1][..i] == executions[..i];
        match executions[i].ending {
          case Completed => completed := completed + [executions[i].taskId];
          case Rejected =>
          case Pending(_, _) =>
          case _ => failed := failed + [executions[i].taskId];
        }
      }
      assert executions[..|executions|] == executions;
    }

    /**
     * run: it returns after at most as many cycles as there were ready tasks, and two more, whatever
     * executions and integrations do, and exactly when a cycle says so; None when it is running already or
     * the capacity is refused.
     */
    method Run(maxParallelism: int) returns (r: Option<RunResult>)
      modifies this
      ensures old(running) || maxParallelism <= 0 ==> r.None? && tasks == old(tasks) && queue == old(queue) && log == old(log)
      ensures !old(running) && maxParallelism > 0 ==> r.Some?
      ensures running == old(running)
      ensures r.Some? ==> 1 <= |r.value.cycles| <= |ReadyTasks(old(tasks))| + 2
      ensures r.Some? ==> log == old(log) + r.value.cycles
      ensures r.Some? ==> forall i :: 0 <= i < |r.value.cycles| - 1 ==> ShouldGoOn(r.value.cycles[i])
      ensures r.Some? ==>
                var last := r.value.cycles[|r.value.cycles| - 1];
                (r.value.kind == Quiescent <==> ShouldQuiesce(last)) && (r.value.kind == RunKind.Blocked <==> ShouldBlock(last))
      ensures r.Some? ==> r.value.completed == CompletedIn(r.value.cycles) && r.value.failed == FailedIn(r.value.cycles)
      ensures r.Some? ==> AllDone(r.value.completed, tasks) && DoneStays(old(tasks), tasks)
      ensures r.Some? && r.value.kind == Quiescent ==> PendingEntries(queue) == {} && !HasIntegrating(queue)
    {
      if running || maxParallelism <= 0 {
        return None;
      }
      running := true;
      var cycles: seq<Cycle> := [];
      var completed: seq<string>, failed: seq<string> := [], [];
      assert log + [] == log;
      assert RunSoFar(tasks, tasks, [], [], []);
      hide RunSoFar, ShouldGoOn, ShouldQuiesce, ShouldBlock, HasIntegrating, DoneStays, AllDone, CompletedIn, FailedIn, IntegratedAs, ExecutedAs;
      while true
        invariant running && log == old(log) + cycles
        invariant RunSoFar(old(tasks), tasks, cycles, completed, failed)
        invariant |cycles| + |ReadyTasks(tasks)| <= |ReadyTasks(old(tasks))| + (if PendingEntries(queue) == {} then 1 else 0)
        decreases |ReadyTasks(tasks)|, |PendingEntries(queue)|
      {
        ghost var earlier := tasks;
        var cycle, done, broken, ended := RunCycle();
        RunOneMore(old(tasks), earlier, tasks, cycles, completed, failed, cycle);
        Assoc(completed, IntegratedAs(cycle.integrations, true), ExecutedAs(cycle.executions, COMPLETED));
        Assoc(failed, IntegratedAs(cycle.integrations, false), ExecutedAs(cycle.executions, FAILED));
        ghost var before := cycles;
        completed, failed, cycles := completed + done, failed + broken, cycles + [cycle];
        CycleKinds(cycle);
        if ended.Some? {
          EndOfRun(old(tasks), tasks, before, cycle, completed, failed);
          running := false;
          return Some(RunResult(ended.value, cycles, completed, failed));
        }
        WentOn(old(tasks), tasks, before, cycle, completed, failed);
      }
    }

    /** One cycle of the outer loop; `ended` is the kind of the run when it ends here. */
    method RunCycle() returns (cycle: Cycle, completed: seq<string>, failed: seq<string>, ended: Option<RunKind>)
      modifies `tasks, `queue, `dispatches, `settlements, `log
      ensures log == old(log) + [cycle]
      ensures completed == IntegratedAs(cycle.integrations, true) + ExecutedAs(cycle.executions, COMPLETED)
      ensures failed == IntegratedAs(cycle.integrations, false) + ExecutedAs(cycle.executions, FAILED)
      ensures ended == Some(Quiescent) <==> ShouldQuiesce(cycle)
      ensures ended == Some(RunKind.Blocked) <==> ShouldBlock(cycle)
      ensures ended.None? <==> ShouldGoOn(cycle)
      ensures DoneStays(old(tasks), tasks) && AllDone(completed, tasks)
      ensures ended == Some(Quiescent) ==> PendingEntries(queue) == {} && !HasIntegrating(queue)
      ensures ended.None? ==>
                PendingEntries(queue) == {} &&
                (|ReadyTasks(tasks)| < |ReadyTasks(old(tasks))|
                 || (|ReadyTasks(tasks)| == |ReadyTasks(old(tasks))| && PendingEntries(old(queue)) != {}))
    {
      var executions, activeClaims := DispatchAvailable();
      ghost var dispatched := tasks;
      CompletedAreDone(executions, tasks);
      var executed, broken := Collect(executions);
      hide PendingEntries, HasIntegrating, IsDrain;
      assert log[..|log| - 1] == old(log);
      var integrations, settled, unsettled := DrainQueue(Cycle(executions, activeClaims, []));
      DrainedEnd(integrations);
      cycle, completed, failed := Cycle(executions, activeClaims, integrations), settled + executed, unsettled + broken;
      if integrations[|integrations| - 1].BlockedQueue? {
        return cycle, completed, failed, Some(RunKind.Blocked);
      }
      var progress, integrated := SomeProgress(executions), SomeIntegration(integrations);
      hide SomeProgress, SomeIntegration, NoRecovery;
      if !NoRecovery(executions) || (activeClaims > 0 && !progress && !integrated) {
        return cycle, completed, failed, Some(RunKind.Blocked);
      }
      if !progress && !integrated {
        return cycle, completed, failed, Some(Quiescent);
      }
      SmallerSets(ReadyTasks(tasks), ReadyTasks(dispatched), ReadyTasks(old(tasks)), progress);
      ended := None;
    }
  }

  /** The log after one more integration of the running cycle. */
  function WithIntegration(log: seq<Cycle>, outcome: QueueOutcome): seq<Cycle>
    requires log != []
  {
    var last := log[|log| - 1];
    log[..|log| - 1] + [last.(integrations := last.integrations + [outcome])]
  }

  /** A settled entry leaves no task integrating; nobody else is touched. */
  function SettledBy(tasks: map<string, TaskStatus>, taskId: string, settlement: Settlement): (r: map<string, TaskStatus>)
    ensures settlement == NotSettled ==> r == tasks
    ensures settlement != NotSettled && taskId in r ==> r[taskId] != Integrating
    ensures taskId in r && r[taskId] == Done <==> settlement in {SettledDone, LockNotReleased} || (taskId in tasks && tasks[taskId] == Done)
    ensures forall id :: id != taskId ==> (id in r <==> id in tasks) && (id in r ==> r[id] == tasks[id])
  {
    match settlement
    case SettledDone => tasks[taskId := Done]
    case LockNotReleased => tasks[taskId := Done]
    case SettledFailed => if taskId in tasks && tasks[taskId] == Integrating then tasks[taskId := Failed] else tasks
    case NotSettled => tasks
  }

  lemma SettlementKeepsDone(tasks: map<string, TaskStatus>, taskId: string, settlement: Settlement)
    ensures var after := SettledBy(tasks, taskId, settlement);
            && DoneStays(tasks, after) && ReadyTasks(after) <= ReadyTasks(tasks)
            && (settlement.SettledDone? ==> taskId in after && after[taskId] == Done)
  {
  }

  lemma DrainedEnd(outcomes: seq<QueueOutcome>)
    requires IsDrain(outcomes)
    ensures outcomes != [] && (outcomes[|outcomes| - 1].Empty? || outcomes[|outcomes| - 1].BlockedQueue?)
  {
  }

  /** The executions that completed left their tasks done. */
  lemma {:induction false} CompletedAreDone(executions: seq<Execution>, tasks: map<string, TaskStatus>)
    requires forall i :: 0 <= i < |executions| && executions[i].ending.Completed? ==>
               executions[i].taskId in tasks && tasks[executions[i].taskId] == Done
    ensures AllDone(ExecutedAs(executions, COMPLETED), tasks)
  {
    if executions != [] {
      CompletedAreDone(executions[..|executions| - 1], tasks);
    }
  }

  lemma {:induction false} SubsetSize(a: set<string>, b: set<string>)
    requires a <= b
    ensures |a| <= |b| && (a != b ==> |a| < |b|)
  {
    assert b == a + (b - a);
  }

  lemma SmallerSets(a: set<string>, b: set<string>, c: set<string>, strict: bool)
    requires a <= b <= c && (strict ==> b < c)
    ensures |a| <= |c| && (strict ==> |a| < |c|)
  {
    SubsetSize(a, b);
    SubsetSize(b, c);
  }
}
