/**
 * Which tasks may run, in which order, and how many (packages/core/src/domain/task-selection.ts,
 * scheduling-priority.ts and parallelism-capacity.ts).
 */
module TaskSelection {
  import opened Options
  import opened Text
  import opened Sorting
  import opened TaskStates
  import opened Tasks

  datatype Ineligibility =
    | NotReady(status: TaskStatus)
    | DependencyNotDone(notDone: seq<string>)
    | ApprovalRequired
    | AttemptLimitExhausted(attempts: nat, maxAttempts: int)
    | NoEligibleAgent

  /** `hasAgent` answers for the agent router. */
  datatype Input = Input(tasks: seq<Task>, attemptCounts: map<string, nat>, hasAgent: Task -> bool)

  /** A dependency counts as done when the first task with its id is. */
  predicate IsDone(tasks: seq<Task>, id: string) {
    if tasks == [] then false
    else if tasks[0].id == id then tasks[0].status == Done
    else IsDone(tasks[1..], id)
  }

  function NotDone(dependsOn: seq<string>, tasks: seq<Task>): (r: seq<string>)
    ensures r == [] <==> forall d :: d in dependsOn ==> IsDone(tasks, d)
  {
    if dependsOn == [] then []
    else
      assert forall d :: d in dependsOn <==> d == dependsOn[0] || d in dependsOn[1..];
      (if IsDone(tasks, dependsOn[0]) then [] else [dependsOn[0]]) + NotDone(dependsOn[1..], tasks)
  }

  function Attempts(input: Input, id: string): nat {
    if id in input.attemptCounts then input.attemptCounts[id] else 0
  }

  /** firstIneligibilityOf. */
  function FirstIneligibility(task: Task, input: Input): Option<Ineligibility> {
    if task.status != Ready then Some(NotReady(task.status))
    else if NotDone(task.dependsOn, input.tasks) != [] then Some(DependencyNotDone(NotDone(task.dependsOn, input.tasks)))
    else if task.approvalRequired && !task.approvalGranted then Some(ApprovalRequired)
    else if Attempts(input, task.id) >= task.maxAttempts then Some(AttemptLimitExhausted(Attempts(input, task.id), task.maxAttempts))
    else if !input.hasAgent(task) then Some(NoEligibleAgent)
    else None
  }

  ghost predicate DependenciesDone(task: Task, tasks: seq<Task>) {
    forall d :: d in task.dependsOn ==> IsDone(tasks, d)
  }

  /** A task is runnable exactly when all canonical conditions hold. */
  lemma RunnableIffAllConditions(task: Task, input: Input)
    ensures FirstIneligibility(task, input).None? <==>
            && task.status == Ready && DependenciesDone(task, input.tasks)
            && (task.approvalRequired ==> task.approvalGranted)
            && Attempts(input, task.id) < task.maxAttempts && input.hasAgent(task)
  {
  }

  /** The reasons in the order of the checks. */
  function Rank(x: Ineligibility): nat {
    match x
    case NotReady(_) => 0
    case DependencyNotDone(_) => 1
    case ApprovalRequired => 2
    case AttemptLimitExhausted(_, _) => 3
    case NoEligibleAgent => 4
  }

  /** The condition that a reason is about fails for the task, with the details of the reason. */
  ghost predicate Fails(task: Task, input: Input, x: Ineligibility) {
    match x
    case NotReady(status) => status == task.status && status != Ready
    case DependencyNotDone(notDone) => AreNotDone(task, input.tasks, notDone)
    case ApprovalRequired => task.approvalRequired && !task.approvalGranted
    case AttemptLimitExhausted(attempts, maxAttempts) =>
      maxAttempts == task.maxAttempts <= attempts && attempts == if task.id in input.attemptCounts then input.attemptCounts[task.id] else 0
    case NoEligibleAgent => !input.hasAgent(task)
  }

  /** These are the dependencies that are not done, and there are some. */
  ghost predicate AreNotDone(task: Task, tasks: seq<Task>, notDone: seq<string>) {
    notDone != [] && multiset(notDone) <= multiset(task.dependsOn) && forall d :: d in notDone <==> d in task.dependsOn && !DoneFirst(tasks, d)
  }

  /** The first task with the id is there and done. */
  ghost predicate DoneFirst(tasks: seq<Task>, id: string) {
    exists i :: 0 <= i < |tasks| && tasks[i].id == id && tasks[i].status == Done && forall j :: 0 <= j < i ==> tasks[j].id != id
  }

  lemma {:induction false} IsDoneIsFirst(tasks: seq<Task>, id: string)
    ensures IsDone(tasks, id) <==> DoneFirst(tasks, id)
  {
    if tasks != [] {
      IsDoneIsFirst(tasks[1..], id);
      if tasks[0].id != id {
        if i :| 0 <= i < |tasks| && tasks[i].id == id && tasks[i].status == Done && forall j :: 0 <= j < i ==> tasks[j].id != id {
          assert tasks[1..][i - 1] == tasks[i];
          assert forall j :: 0 <= j < i - 1 ==> tasks[1..][j].id != id;
        }
        if DoneFirst(tasks[1..], id) {
          var i :| 0 <= i < |tasks| - 1 && tasks[1..][i].id == id && tasks[1..][i].status == Done && forall j :: 0 <= j < i ==> tasks[1..][j].id != id;
          assert tasks[i + 1].id == id;
          assert forall j :: 0 <= j < i + 1 ==> tasks[j].id != id by {
            assert forall j :: 0 <= j < i ==> tasks[1..][j] == tasks[j + 1];
          }
        }
      }
    }
  }

  lemma {:induction false} NotDoneElements(dependsOn: seq<string>, tasks: seq<Task>)
    ensures multiset(NotDone(dependsOn, tasks)) <= multiset(dependsOn)
    ensures forall d :: d in NotDone(dependsOn, tasks) <==> d in dependsOn && !IsDone(tasks, d)
  {
    hide IsDone;
    if dependsOn != [] {
      NotDoneElements(dependsOn[1..], tasks);
      assert dependsOn == [dependsOn[0]] + dependsOn[1..];
    }
  }

  lemma DependenciesFail(task: Task, tasks: seq<Task>)
    ensures NotDone(task.dependsOn, tasks) != [] ==> AreNotDone(task, tasks, NotDone(task.dependsOn, tasks))
    ensures forall notDone :: AreNotDone(task, tasks, notDone) ==> NotDone(task.dependsOn, tasks) != []
  {
    hide IsDone, DoneFirst;
    NotDoneElements(task.dependsOn, tasks);
    forall d ensures IsDone(tasks, d) <==> DoneFirst(tasks, d) {
      IsDoneIsFirst(tasks, d);
    }
    forall notDone | AreNotDone(task, tasks, notDone) ensures NotDone(task.dependsOn, tasks) != [] {
      assert notDone[0] in notDone;
    }
  }

  /** A task that is not runnable has the first reason that holds, and every reason of lower rank does not. */
  lemma ReasonsInOrder(task: Task, input: Input)
    ensures match FirstIneligibility(task, input)
            case None => forall x :: !Fails(task, input, x)
            case Some(reason) => Fails(task, input, reason) && forall x :: Fails(task, input, x) ==> Rank(reason) <= Rank(x)
  {
    hide AreNotDone, NotDone;
    DependenciesFail(task, input.tasks);
  }

  /** The first loop: the first task of every id. */
  method IndexTasks(tasks: seq<Task>) returns (byId: map<string, Task>)
    ensures forall id :: id in byId && byId[id].status == Done <==> IsDone(tasks, id)
  {
    byId := map[];
    for i := 0 to |tasks|
      invariant forall id :: id in byId <==> exists k :: 0 <= k < i && tasks[k].id == id
      invariant forall id :: IsDone(tasks, id) == if id in byId then byId[id].status == Done else IsDone(tasks[i..], id)
    {
      assert tasks[i..][1..] == tasks[i + 1..];
      if tasks[i].id !in byId {
        byId := byId[tasks[i].id := tasks[i]];
      }
    }
  }

  lemma NotDoneStep(deps: seq<string>, i: nat, tasks: seq<Task>)
    requires i < |deps|
    ensures NotDone(deps[i..], tasks) ==
            if IsDone(tasks, deps[i]) then NotDone(deps[i + 1..], tasks) else [deps[i]] + NotDone(deps[i + 1..], tasks)
  {
    hide IsDone;
    assert deps[i..][1..] == deps[i + 1..];
    assert [] + NotDone(deps[i + 1..], tasks) == NotDone(deps[i + 1..], tasks);
  }

  method NotDoneDependencies(task: Task, tasks: seq<Task>, byId: map<string, Task>) returns (notDone: seq<string>)
    requires forall id :: id in byId && byId[id].status == Done <==> IsDone(tasks, id)
    ensures notDone == NotDone(task.dependsOn, tasks)
  {
    notDone := [];
    var deps := task.dependsOn;
    for i := 0 to |deps|
      invariant notDone + NotDone(deps[i..], tasks) == NotDone(deps, tasks)
    {
      NotDoneStep(deps, i, tasks);
      hide NotDone, IsDone;
      if !(deps[i] in byId && byId[deps[i]].status == Done) {
        Assoc(notDone, [deps[i]], NotDone(deps[i + 1..], tasks));
        notDone := notDone + [deps[i]];
      }
    }
    assert notDone + [] == notDone;
  }

  /** The tasks of a sequence that are runnable, in order. */
  function Runnable(tasks: seq<Task>, input: Input): (r: seq<Task>)
    ensures forall t :: t in r <==> t in tasks && FirstIneligibility(t, input).None?
  {
    if tasks == [] then []
    else
      assert tasks == [tasks[0]] + tasks[1..];
      (if FirstIneligibility(tasks[0], input).None? then [tasks[0]] else []) + Runnable(tasks[1..], input)
  }

  /** A task that is not runnable, with the first condition that fails. */
  ghost predicate IsReported(x: (string, Ineligibility), tasks: seq<Task>, input: Input) {
    exists i :: 0 <= i < |tasks| && tasks[i].id == x.0 && FirstIneligibility(tasks[i], input) == Some(x.1)
  }

  /** selectRunnableTasks: the runnable tasks and, for the others, the first condition that fails. */
  method SelectRunnableTasks(input: Input) returns (runnable: seq<Task>, ineligible: seq<(string, Ineligibility)>)
    ensures runnable == Runnable(input.tasks, input)
    ensures forall x :: x in ineligible <==> IsReported(x, input.tasks, input)
    ensures |runnable| + |ineligible| == |input.tasks|
  {
    hide IsDone, FirstIneligibility, Runnable;
    var byId := IndexTasks(input.tasks);
    runnable, ineligible := [], [];
    assert input.tasks[0..] == input.tasks;
    for i := 0 to |input.tasks|
      invariant runnable + Runnable(input.tasks[i..], input) == Runnable(input.tasks, input)
      invariant forall x :: x in ineligible <==> IsReported(x, input.tasks[..i], input)
      invariant |runnable| + |ineligible| == i
    {
      var task := input.tasks[i];
      RunnableStep(input.tasks, i, input);
      assert input.tasks[..i + 1] == input.tasks[..i] + [task];
      var ineligibility := FindIneligibility(task, input, byId);
      if ineligibility.None? {
        Assoc(runnable, [task], Runnable(input.tasks[i + 1..], input));
        runnable := runnable + [task];
      } else {
        ineligible := ineligible + [(task.id, ineligibility.value)];
      }
    }
    assert input.tasks[..|input.tasks|] == input.tasks;
    assert input.tasks[|input.tasks|..] == [];
    NoneRunnable(input);
    assert runnable + [] == runnable;
  }

  lemma NoneRunnable(input: Input)
    ensures Runnable([], input) == []
  {
  }

  lemma RunnableStep(tasks: seq<Task>, i: nat, input: Input)
    requires i < |tasks|
    ensures Runnable(tasks[i..], input) ==
            if FirstIneligibility(tasks[i], input).None? then [tasks[i]] + Runnable(tasks[i + 1..], input) else Runnable(tasks[i + 1..], input)
  {
    hide FirstIneligibility;
    assert tasks[i..][1..] == tasks[i + 1..];
    assert [] + Runnable(tasks[i + 1..], input) == Runnable(tasks[i + 1..], input);
  }

  method FindIneligibility(task: Task, input: Input, byId: map<string, Task>) returns (r: Option<Ineligibility>)
    requires forall id :: id in byId && byId[id].status == Done <==> IsDone(input.tasks, id)
    ensures r == FirstIneligibility(task, input)
  {
    if task.status != Ready {
      return Some(NotReady(task.status));
    }
    var notDone := NotDoneDependencies(task, input.tasks, byId);
    if |notDone| > 0 {
      return Some(DependencyNotDone(notDone));
    }
    if task.approvalRequired && !task.approvalGranted {
      return Some(ApprovalRequired);
    }
    var attempts := if task.id in input.attemptCounts then input.attemptCounts[task.id] else 0;
    if attempts >= task.maxAttempts {
      return Some(AttemptLimitExhausted(attempts, task.maxAttempts));
    }
    return if input.hasAgent(task) then None else Some(NoEligibleAgent);
  }

  // --- Order and capacity ---

  /** compareTasksForExecution: priority first, then id. */
  const EXECUTION_ORDER: (Task, Task) -> bool :=
    (a: Task, b: Task) => if a.priority != b.priority then a.priority < b.priority else AtMost(a.id, b.id)

  function OrderRunnable(tasks: seq<Task>): seq<Task> {
    SortBy(EXECUTION_ORDER, tasks)
  }

  lemma ExecutionOrderIsTotal()
    ensures TotalPreorder(EXECUTION_ORDER)
  {
    forall a, b ensures EXECUTION_ORDER(a, b) || EXECUTION_ORDER(b, a) {
      StringOrder(a.id, b.id, b.id);
    }
    forall a, b, c | EXECUTION_ORDER(a, b) && EXECUTION_ORDER(b, c) ensures EXECUTION_ORDER(a, c) {
      StringOrder(a.id, b.id, c.id);
    }
  }

  /** countParallelismActiveExecutions. */
  method CountActive(statuses: seq<TaskStatus>) returns (count: nat)
    ensures count == |ActivePositions(statuses)|
  {
    count := 0;
    assert ActivePositions(statuses[..0]) == {};
    for i := 0 to |statuses|
      invariant count == |ActivePositions(statuses[..i])|
    {
      var before, now := ActivePositions(statuses[..i]), ActivePositions(statuses[..i + 1]);
      if IsActive(statuses[i]) {
        count := count + 1;
        assert now == before + {i};
      } else {
        assert now == before;
      }
    }
    assert statuses[..|statuses|] == statuses;
  }

  function ActivePositions(statuses: seq<TaskStatus>): set<nat> {
    set i: nat | i < |statuses| && IsActive(statuses[i])
  }

  /** evaluateParallelismCapacity: the free slots; None for arguments it refuses. */
  function RemainingSlots(maxParallelism: int, active: int): (slots: Option<nat>)
    ensures slots.Some? <==> maxParallelism > 0 && active >= 0
    ensures slots.Some? ==> (slots.value > 0 <==> active < maxParallelism)
  {
    if maxParallelism <= 0 || active < 0 then None
    else Some(if maxParallelism - active > 0 then maxParallelism - active else 0)
  }
}
