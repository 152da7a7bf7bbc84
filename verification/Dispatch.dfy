/** The admission of runnable tasks (packages/orchestrator/src/task-execution-coordinator.ts). */
module Dispatch {
  import opened Options
  import opened Text
  import opened Sorting
  import opened TaskStates
  import opened Tasks
  import opened TaskConflicts
  import opened TaskSelection

  datatype Reason = CapacityExhausted | Conflict | AlreadyClaimed | LockUnavailable

  datatype Admission = Admitted(taskId: string) | Deferred(taskId: string, reason: Reason)

  /** How the store answers a claim; Throws stands for a persistence error. */
  datatype ClaimAnswer = Granted | NotReadyAnymore | ClaimedAlready | NoCapacity | LockedResource | Throws

  /** What the store and this coordinator answer when it is a task's turn. */
  datatype Answers = Answers(runningHere: string -> bool, claim: string -> ClaimAnswer)

  datatype Dispatched = Dispatched(admissions: seq<Admission>, admitted: seq<Task>, threw: bool)

  // --- Conflicts of one task with the others ---

  /** A rearrangement of tasks with different ids has different ids. */
  lemma PermutedIds(tasks: seq<Task>, moved: seq<Task>)
    requires DistinctIds(tasks) && multiset(moved) == multiset(tasks)
    ensures DistinctIds(moved)
  {
    var key := (t: Task) => t.id;
    assert DistinctBy(key, tasks);
    MovedKeysDiffer(key, tasks, moved);
    assert forall i, j :: 0 <= i < j < |moved| ==> key(moved[i]) != key(moved[j]);
  }

  /** Some other task conflicts with this one. */
  ghost predicate ConflictsWithSome(task: Task, others: seq<Task>) {
    exists t :: t in others && t.id != task.id && Conflicting(t, task)
  }

  lemma NamedConflictIsReal(tasks: seq<Task>, task: Task, c: TaskConflicts.Conflict)
    requires DistinctIds(tasks) && task in tasks && c in ConflictsOf(tasks) && (c.taskIdA == task.id || c.taskIdB == task.id)
    ensures ConflictsWithSome(task, tasks)
  {
    hide ConflictsOf, Conflicting;
    var x, y := ReportedPair(tasks, c);
    ConflictingIsSymmetric(x, y);
    PairIsDistinct(tasks, c);
    if x.id == task.id {
      SameIdSameTask(tasks, x, task);
    } else {
      SameIdSameTask(tasks, y, task);
    }
  }

  lemma PairIsDistinct(tasks: seq<Task>, c: TaskConflicts.Conflict)
    requires DistinctIds(tasks) && c in ConflictsOf(tasks)
    ensures c.taskIdA != c.taskIdB
  {
    var ordered := SortBy(TASK_ID_ORDER, tasks);
    PermutedIds(tasks, ordered);
    OverPairsElements(PairConflicts, ordered, c);
    hide SortBy, OverPairs, PairConflicts;
    var k, l :| 0 <= k < l < |ordered| && c in PairConflicts(ordered[k], ordered[l]);
    PairConflictsExact(ordered[k], ordered[l]);
  }

  /** detectTaskConflicts, filtered by the task: whether it may not start beside the others. */
  method HasConflict(others: seq<Task>, task: Task) returns (r: bool)
    requires DistinctIds(others + [task])
    ensures r <==> ConflictsWithSome(task, others)
  {
    var tasks := others + [task];
    var conflicts := DetectTaskConflicts(tasks);
    hide ConflictsOf, Conflicting;
    r := exists i :: 0 <= i < |conflicts| && (conflicts[i].taskIdA == task.id || conflicts[i].taskIdB == task.id);
    if r {
      ghost var i :| 0 <= i < |conflicts| && (conflicts[i].taskIdA == task.id || conflicts[i].taskIdB == task.id);
      NamedConflictIsReal(tasks, task, conflicts[i]);
    }
    if t :| t in others && t.id != task.id && Conflicting(t, task) {
      ghost var c := FindConflict(tasks, t, task);
      ghost var i :| 0 <= i < |conflicts| && conflicts[i] == c;
    }
  }

  // --- The admission loop ---

  /** A task comes strictly before another in the order of execution. */
  predicate Before(a: Task, b: Task) {
    a.priority < b.priority || (a.priority == b.priority && Less(a.id, b.id))
  }

  ghost predicate InOrder(tasks: seq<Task>) {
    forall i, j :: 0 <= i < j < |tasks| ==> Before(tasks[i], tasks[j])
  }

  ghost predicate PairwiseConflictFree(tasks: seq<Task>) {
    forall i, j :: 0 <= i < j < |tasks| ==> !Conflicting(tasks[i], tasks[j])
  }

  ghost predicate FreeOf(tasks: seq<Task>, others: seq<Task>) {
    forall t, o :: t in tasks && o in others && t.id != o.id ==> !Conflicting(o, t)
  }

  /** Why a task was deferred; `used` is the number of executions counted when the loop ended. */
  ghost predicate Justified(task: Task, reason: Reason, active: seq<Task>, admitted: seq<Task>, answers: Answers, used: int, limit: int) {
    match reason
    case CapacityExhausted => used >= limit || answers.claim(task.id) == NoCapacity
    case Conflict => answers.runningHere(task.id) || ConflictsWithSome(task, active + admitted) || answers.claim(task.id) == NotReadyAnymore
    case AlreadyClaimed => answers.claim(task.id) == ClaimedAlready
    case LockUnavailable => answers.claim(task.id) == LockedResource
  }

  /** The state of the loop after the first n tasks. */
  ghost predicate Admitting(ordered: seq<Task>, n: nat, active: seq<Task>, admissions: seq<Admission>, admitted: seq<Task>, answers: Answers, used: int, limit: int) {
    && n <= |ordered| && |admissions| == n
    && (forall k :: 0 <= k < n ==> admissions[k].taskId == ordered[k].id)
    && (forall k :: 0 <= k < n && admissions[k].Admitted? ==> ordered[k] in admitted)
    && (forall k :: 0 <= k < n && admissions[k].Deferred? ==>
          Justified(ordered[k], admissions[k].reason, active, admitted, answers, used, limit))
    && (forall t :: t in admitted ==> exists k :: 0 <= k < n && ordered[k] == t && admissions[k].Admitted?)
    && PairwiseConflictFree(admitted) && FreeOf(admitted, active) && InOrder(admitted)
  }

  /** The loop stopped early only because the capacity was used up. */
  ghost predicate StoppedByCapacity(ordered: seq<Task>, admissions: seq<Admission>) {
    |admissions| < |ordered| ==> admissions != [] && admissions[|admissions| - 1].Deferred? && admissions[|admissions| - 1].reason == CapacityExhausted
  }

  lemma AdmitStep(ordered: seq<Task>, n: nat, active: seq<Task>, admissions: seq<Admission>, admitted: seq<Task>, answers: Answers, used: int, limit: int)
    requires n < |ordered| && Admitting(ordered, n, active, admissions, admitted, answers, used, limit) && InOrder(ordered)
    requires !ConflictsWithSome(ordered[n], active + admitted)
    requires forall t :: t in admitted ==> t.id != ordered[n].id
    ensures Admitting(ordered, n + 1, active, admissions + [Admitted(ordered[n].id)], admitted + [ordered[n]], answers, used + 1, limit)
  {
    var task, more := ordered[n], admitted + [ordered[n]];
    hide Conflicting, Before;
    forall t | t in admitted ensures !Conflicting(t, task) && Before(t, task) {
      assert t in active + admitted;
      var k :| 0 <= k < n && ordered[k] == t && admissions[k].Admitted?;
    }
    forall o | o in active && o.id != task.id ensures !Conflicting(o, task) {
      assert o in active + admitted;
    }
    forall k | 0 <= k < n && admissions[k].Deferred?
      ensures Justified(ordered[k], admissions[k].reason, active, more, answers, used + 1, limit)
    {
      StillJustified(ordered[k], admissions[k].reason, active, admitted, more, answers, used, limit);
    }
    assert (admissions + [Admitted(task.id)])[n].Admitted?;
    assert forall t :: t in admitted ==> exists k :: 0 <= k < n && ordered[k] == t && (admissions + [Admitted(task.id)])[k].Admitted?;
  }

  lemma StillJustified(task: Task, reason: Reason, active: seq<Task>, admitted: seq<Task>, more: seq<Task>, answers: Answers, used: int, limit: int)
    requires Justified(task, reason, active, admitted, answers, used, limit) && forall t :: t in admitted ==> t in more
    ensures Justified(task, reason, active, more, answers, used + 1, limit)
  {
    hide Conflicting;
    if ConflictsWithSome(task, active + admitted) {
      var t :| t in active + admitted && t.id != task.id && Conflicting(t, task);
      assert t in active + more;
    }
  }

  lemma DeferStep(ordered: seq<Task>, n: nat, active: seq<Task>, admissions: seq<Admission>, admitted: seq<Task>, answers: Answers, used: int, limit: int, reason: Reason)
    requires n < |ordered| && Admitting(ordered, n, active, admissions, admitted, answers, used, limit)
    requires Justified(ordered[n], reason, active, admitted, answers, used, limit)
    ensures Admitting(ordered, n + 1, active, admissions + [Deferred(ordered[n].id, reason)], admitted, answers, used, limit)
  {
    hide Conflicting, Before, Justified;
    var more := admissions + [Deferred(ordered[n].id, reason)];
    forall t | t in admitted ensures exists k :: 0 <= k < n + 1 && ordered[k] == t && more[k].Admitted? {
      var k :| 0 <= k < n && ordered[k] == t && admissions[k].Admitted?;
      assert more[k].Admitted?;
    }
  }

  // --- What dispatch selects from ---

  function Filter(p: Task -> bool, tasks: seq<Task>): (r: seq<Task>)
    ensures forall t :: t in r <==> t in tasks && p(t)
  {
    if tasks == [] then []
    else
      assert tasks == [tasks[0]] + tasks[1..];
      (if p(tasks[0]) then [tasks[0]] else []) + Filter(p, tasks[1..])
  }

  lemma {:induction false} FilterDistinct(p: Task -> bool, tasks: seq<Task>)
    requires DistinctIds(tasks)
    ensures DistinctIds(Filter(p, tasks))
  {
    if tasks != [] {
      FilterDistinct(p, tasks[1..]);
      var rest := Filter(p, tasks[1..]);
      forall t | t in rest ensures t.id != tasks[0].id {
        assert t in tasks[1..];
      }
    }
  }

  lemma {:induction false} RunnableIsFilter(tasks: seq<Task>, input: Input)
    ensures Runnable(tasks, input) == Filter((t: Task) => FirstIneligibility(t, input).None?, tasks)
  {
    hide FirstIneligibility;
    if tasks != [] {
      RunnableIsFilter(tasks[1..], input);
    }
  }

  function Selectable(tasks: seq<Task>, activeClaims: seq<string>): seq<Task> {
    Filter((t: Task) => t.id !in activeClaims, tasks)
  }

  function ActiveTasks(tasks: seq<Task>): seq<Task> {
    Filter((t: Task) => IsActive(t.status), tasks)
  }

  function InputOf(tasks: seq<Task>, activeClaims: seq<string>, attemptCounts: map<string, nat>, hasAgent: Task -> bool): Input {
    Input(Selectable(tasks, activeClaims), attemptCounts, hasAgent)
  }

  /** The runnable tasks in the order of execution. */
  function Candidates(input: Input): seq<Task> {
    OrderRunnable(Runnable(input.tasks, input))
  }

  lemma CandidatesAreOrdered(input: Input)
    requires DistinctIds(input.tasks)
    ensures InOrder(Candidates(input)) && DistinctIds(Candidates(input))
    ensures forall t :: t in Candidates(input) <==> t in input.tasks && FirstIneligibility(t, input).None?
  {
    var runnable := Runnable(input.tasks, input);
    var ordered := Candidates(input);
    RunnableIsFilter(input.tasks, input);
    FilterDistinct((t: Task) => FirstIneligibility(t, input).None?, input.tasks);
    PermutedIds(runnable, ordered);
    SameElements(ordered, runnable);
    ExecutionOrderIsTotal();
    SortBySorted(EXECUTION_ORDER, runnable);
    hide Less, AtMost, SortBy, Runnable, TotalPreorder, FirstIneligibility;
    forall i, j | 0 <= i < j < |ordered| ensures Before(ordered[i], ordered[j]) {
      assert EXECUTION_ORDER(ordered[i], ordered[j]);
      StringOrder(ordered[i].id, ordered[j].id, ordered[j].id);
    }
  }

  lemma WithTaskDistinct(tasks: seq<Task>, active: seq<Task>, admitted: seq<Task>, task: Task)
    requires DistinctIds(tasks) && DistinctIds(active) && InOrder(admitted)
    requires forall t :: t in active ==> t in tasks && IsActive(t.status)
    requires forall t :: t in admitted + [task] ==> t in tasks && t.status == Ready
    requires forall t :: t in admitted ==> Before(t, task)
    ensures DistinctIds(active + admitted + [task])
  {
    var all := active + admitted + [task];
    forall i, j | 0 <= i < j < |all| ensures all[i].id != all[j].id {
      if j >= |active| {
        if i < |active| {
          DifferentTasks(tasks, all[i], all[j]);
        } else {
          assert all[i] in admitted && all[i] == admitted[i - |active|];
          assert Before(all[i], all[j]);
          BeforeDiffers(all[i], all[j]);
          DifferentTasks(tasks, all[i], all[j]);
        }
      }
    }
  }

  lemma BeforeDiffers(a: Task, b: Task)
    requires Before(a, b)
    ensures a != b
  {
    StrictStringOrder(a.id, b.id, b.id);
  }

  lemma DifferentTasks(tasks: seq<Task>, a: Task, b: Task)
    requires DistinctIds(tasks) && a in tasks && b in tasks && a != b
    ensures a.id != b.id
  {
  }

  /** The executions that count when dispatch begins. */
  function EntryCount(tasks: seq<Task>, activeClaims: seq<string>): nat {
    var active := |ActivePositions(StatusesOf(tasks))|;
    if |activeClaims| > active then |activeClaims| else active
  }

  function StatusesOf(tasks: seq<Task>): (r: seq<TaskStatus>)
    ensures |r| == |tasks|
  {
    seq(|tasks|, i requires 0 <= i < |tasks| => tasks[i].status)
  }

  /** How a turn ends. */
  datatype Turn = Admit | Defer(reason: Reason) | Fail

  /** How a turn ends, from the facts: each end exactly when the checks before it pass. */
  ghost predicate TurnFits(turn: Turn, task: Task, active: seq<Task>, admitted: seq<Task>, answers: Answers, used: int, limit: int) {
    var here, free, conflict, claim :=
      answers.runningHere(task.id), used < limit, ConflictsWithSome(task, active + admitted), answers.claim(task.id);
    var asks := !here && free && !conflict;
    && (turn == Admit <==> asks && claim == Granted)
    && (turn == Defer(CapacityExhausted) <==> !here && (!free || (!conflict && claim == NoCapacity)))
    && (turn == Defer(Conflict) <==> here || (free && (conflict || claim == NotReadyAnymore)))
    && (turn == Defer(AlreadyClaimed) <==> asks && claim == ClaimedAlready)
    && (turn == Defer(LockUnavailable) <==> asks && claim == LockedResource)
    && (turn == Fail <==> asks && claim == Throws)
  }

  function TurnOf(a: Admission): Turn {
    match a
    case Admitted(_) => Admit
    case Deferred(_, reason) => Defer(reason)
  }

  predicate EndsTheLoop(a: Admission) {
    a.Deferred? && a.reason == CapacityExhausted
  }

  /** The tasks that the admissions admit, in order. */
  function AdmittedBy(ordered: seq<Task>, admissions: seq<Admission>): seq<Task>
    requires |admissions| <= |ordered|
  {
    if admissions == [] then []
    else
      var n := |admissions| - 1;
      AdmittedBy(ordered, admissions[..n]) + if admissions[n].Admitted? then [ordered[n]] else []
  }

  /** Every turn so far ended as the facts of its moment say, and none before the last ended the loop. */
  ghost predicate TurnsFit(ordered: seq<Task>, active: seq<Task>, admissions: seq<Admission>, answers: Answers, entry: int, limit: int)
    requires |admissions| <= |ordered|
  {
    && (forall k :: 0 <= k < |admissions| ==> TurnFitsAt(ordered, active, admissions, answers, entry, limit, k))
    && (forall k :: 0 <= k < |admissions| - 1 ==> !EndsTheLoop(admissions[k]))
  }

  /** Dispatch goes through the candidates until the capacity is used up or the store throws. */
  ghost predicate DispatchExact(ordered: seq<Task>, active: seq<Task>, d: Dispatched, answers: Answers, entry: int, limit: int) {
    && |d.admissions| <= |ordered| && TurnsFit(ordered, active, d.admissions, answers, entry, limit)
    && d.admitted == AdmittedBy(ordered, d.admissions)
    && if d.threw then
         |d.admissions| < |ordered| && (d.admissions != [] ==> !EndsTheLoop(d.admissions[|d.admissions| - 1]))
         && TurnFits(Fail, ordered[|d.admissions|], active, d.admitted, answers, entry + |d.admitted|, limit)
       else |d.admissions| == |ordered| || (d.admissions != [] && EndsTheLoop(d.admissions[|d.admissions| - 1]))
  }

  /** The k-th turn ended as the facts of its moment say. */
  ghost predicate TurnFitsAt(ordered: seq<Task>, active: seq<Task>, admissions: seq<Admission>, answers: Answers, entry: int, limit: int, k: nat)
    requires k < |admissions| <= |ordered|
  {
    var before := AdmittedBy(ordered, admissions[..k]);
    && admissions[k].taskId == ordered[k].id
    && TurnFits(TurnOf(admissions[k]), ordered[k], active, before, answers, entry + |before|, limit)
  }

  lemma {:induction false} SameTurn(ordered: seq<Task>, active: seq<Task>, admissions: seq<Admission>, answers: Answers, entry: int, limit: int,
                                    a: Admission, k: nat)
    requires k < |admissions| < |ordered| && TurnFitsAt(ordered, active, admissions, answers, entry, limit, k)
    ensures TurnFitsAt(ordered, active, admissions + [a], answers, entry, limit, k)
  {
    hide TurnFits;
    assert (admissions + [a])[..k] == admissions[..k];
  }

  lemma {:induction false} OneMoreTurn(ordered: seq<Task>, active: seq<Task>, admissions: seq<Admission>, answers: Answers, entry: int, limit: int,
                                       a: Admission)
    requires |admissions| < |ordered| && TurnsFit(ordered, active, admissions, answers, entry, limit)
    requires a.taskId == ordered[|admissions|].id && (admissions != [] ==> !EndsTheLoop(admissions[|admissions| - 1]))
    requires var before := AdmittedBy(ordered, admissions);
             TurnFits(TurnOf(a), ordered[|admissions|], active, before, answers, entry + |before|, limit)
    ensures TurnsFit(ordered, active, admissions + [a], answers, entry, limit)
    ensures AdmittedBy(ordered, admissions + [a]) == AdmittedBy(ordered, admissions) + if a.Admitted? then [ordered[|admissions|]] else []
  {
    var n, more := |admissions|, admissions + [a];
    assert more[..n] == admissions && more[n] == a;
    hide TurnFits;
    assert TurnFitsAt(ordered, active, more, answers, entry, limit, n);
    hide AdmittedBy, TurnFitsAt;
    forall k | 0 <= k < |more| ensures TurnFitsAt(ordered, active, more, answers, entry, limit, k) {
      if k < n {
        SameTurn(ordered, active, admissions, answers, entry, limit, a, k);
      }
    }
    assert forall k :: 0 <= k < n ==> more[k] == admissions[k];
  }

  /** The executions that count at the beginning: all active claims, and all tasks in an active status, whichever are more. */
  lemma EntryCountsBoth(tasks: seq<Task>, activeClaims: seq<string>)
    requires DistinctIds(tasks)
    ensures var active := |set t | t in tasks && IsActive(t.status)|;
            EntryCount(tasks, activeClaims) == if |activeClaims| > active then |activeClaims| else active
  {
    ActiveTasksCount(tasks);
  }

  lemma {:induction false} ActiveTasksCount(tasks: seq<Task>)
    requires DistinctIds(tasks)
    ensures |ActivePositions(StatusesOf(tasks))| == |set t | t in tasks && IsActive(t.status)|
  {
    if tasks == [] {
      assert ActivePositions(StatusesOf(tasks)) == {} && (set t | t in tasks && IsActive(t.status)) == {};
    } else {
      var n := |tasks| - 1;
      ActiveTasksCount(tasks[..n]);
      OneMorePosition(StatusesOf(tasks));
      OneMoreTask(tasks);
      assert StatusesOf(tasks[..n]) == StatusesOf(tasks)[..n];
    }
  }

  lemma OneMorePosition(statuses: seq<TaskStatus>)
    requires statuses != []
    ensures var n := |statuses| - 1;
            |ActivePositions(statuses)| == |ActivePositions(statuses[..n])| + if IsActive(statuses[n]) then 1 else 0
  {
    var n := |statuses| - 1;
    var front := ActivePositions(statuses[..n]);
    if IsActive(statuses[n]) {
      assert ActivePositions(statuses) == front + {n};
    } else {
      assert ActivePositions(statuses) == front;
    }
  }

  lemma OneMoreTask(tasks: seq<Task>)
    requires DistinctIds(tasks) && tasks != []
    ensures var n := |tasks| - 1;
            |set t | t in tasks && IsActive(t.status)| ==
            |set t | t in tasks[..n] && IsActive(t.status)| + if IsActive(tasks[n].status) then 1 else 0
  {
    var n := |tasks| - 1;
    var last, some, all := tasks[n], set t | t in tasks[..n] && IsActive(t.status), set t | t in tasks && IsActive(t.status);
    assert tasks == tasks[..n] + [last] && last !in tasks[..n];
    if IsActive(last.status) {
      assert all == some + {last};
    } else {
      assert all == some;
    }
  }

  /** The checks of one task, in the order of the code. */
  method TakeTurn(task: Task, active: seq<Task>, admitted: seq<Task>, answers: Answers, used: int, limit: int) returns (turn: Turn)
    requires DistinctIds(active + admitted + [task]) && limit > 0 && used >= 0
    ensures turn.Admit? ==> used < limit && !ConflictsWithSome(task, active + admitted) && answers.claim(task.id) == Granted && !answers.runningHere(task.id)
    ensures turn.Defer? ==> Justified(task, turn.reason, active, admitted, answers, used, limit)
    ensures turn.Fail? ==> answers.claim(task.id) == Throws
    ensures TurnFits(turn, task, active, admitted, answers, used, limit)
  {
    hide ConflictsWithSome, Conflicting;
    if answers.runningHere(task.id) {
      return Defer(Conflict);
    }
    var slots := RemainingSlots(limit, used);
    if slots == Some(0) {
      return Defer(CapacityExhausted);
    }
    var conflict := HasConflict(active + admitted, task);
    if conflict {
      return Defer(Conflict);
    }
    match answers.claim(task.id) {
      case Granted => return Admit;
      case NotReadyAnymore => return Defer(Conflict);
      case ClaimedAlready => return Defer(AlreadyClaimed);
      case NoCapacity => return Defer(CapacityExhausted);
      case LockedResource => return Defer(LockUnavailable);
      case Throws => return Fail;
    }
  }

  /** What dispatch promises about the tasks it admitted and about those it did not. */
  ghost predicate DispatchSound(ordered: seq<Task>, active: seq<Task>, d: Dispatched, answers: Answers, entry: int, limit: int) {
    && Admitting(ordered, |d.admissions|, active, d.admissions, d.admitted, answers, entry + |d.admitted|, limit)
    && |d.admitted| <= (if limit > entry then limit - entry else 0)
    && (!d.threw ==> StoppedByCapacity(ordered, d.admissions))
  }

  /** dispatchAvailable up to the executions; None for a capacity that is refused. */
  method DispatchAvailable(tasks: seq<Task>, activeClaims: seq<string>, attemptCounts: map<string, nat>, hasAgent: Task -> bool,
                           limit: int, answers: Answers)
    returns (r: Option<Dispatched>)
    requires DistinctIds(tasks)
    ensures r.None? <==> limit <= 0
    ensures r.Some? ==>
              DispatchSound(Candidates(InputOf(tasks, activeClaims, attemptCounts, hasAgent)), ActiveTasks(tasks), r.value, answers,
                            EntryCount(tasks, activeClaims), limit)
    ensures r.Some? ==>
              DispatchExact(Candidates(InputOf(tasks, activeClaims, attemptCounts, hasAgent)), ActiveTasks(tasks), r.value, answers,
                            EntryCount(tasks, activeClaims), limit)
  {
    if limit <= 0 {
      return None;
    }
    var input := InputOf(tasks, activeClaims, attemptCounts, hasAgent);
    var runnable, ineligible := SelectRunnableTasks(input);
    var ordered := OrderRunnable(runnable);
    var active := ActiveTasks(tasks);
    FilterDistinct((t: Task) => t.id !in activeClaims, tasks);
    FilterDistinct((t: Task) => IsActive(t.status), tasks);
    CandidatesAreOrdered(input);
    CandidatesAreReady(tasks, activeClaims, input);
    var counted := CountActive(StatusesOf(tasks));
    var entry := if |activeClaims| > counted then |activeClaims| else counted;
    var d := AdmitTasks(tasks, ordered, active, answers, entry, limit);
    return Some(d);
  }

  lemma CandidatesAreReady(tasks: seq<Task>, activeClaims: seq<string>, input: Input)
    requires input.tasks == Selectable(tasks, activeClaims) && DistinctIds(input.tasks)
    ensures forall t :: t in Candidates(input) ==> t in tasks && t.status == Ready && t.id !in activeClaims
  {
    CandidatesAreOrdered(input);
    hide Candidates, NotDone;
  }

  /** The whole state of the loop after the first turns. */
  ghost predicate AdmitState(ordered: seq<Task>, active: seq<Task>, admissions: seq<Admission>, admitted: seq<Task>, answers: Answers, entry: int, limit: int) {
    && Admitting(ordered, |admissions|, active, admissions, admitted, answers, entry + |admitted|, limit)
    && (admitted != [] ==> entry + |admitted| <= limit)
    && TurnsFit(ordered, active, admissions, answers, entry, limit) && admitted == AdmittedBy(ordered, admissions)
  }

  ghost predicate GoesOn(admissions: seq<Admission>) {
    admissions != [] ==> !EndsTheLoop(admissions[|admissions| - 1])
  }

  lemma AfterAdmitting(ordered: seq<Task>, active: seq<Task>, admissions: seq<Admission>, admitted: seq<Task>, answers: Answers, entry: int, limit: int)
    requires AdmitState(ordered, active, admissions, admitted, answers, entry, limit) && GoesOn(admissions)
    requires |admissions| < |ordered| && InOrder(ordered) && entry + |admitted| < limit
    requires var task := ordered[|admissions|];
             !ConflictsWithSome(task, active + admitted) && (forall t :: t in admitted ==> t.id != task.id)
             && TurnFits(Admit, task, active, admitted, answers, entry + |admitted|, limit)
    ensures var task := ordered[|admissions|];
            AdmitState(ordered, active, admissions + [Admitted(task.id)], admitted + [task], answers, entry, limit)
            && GoesOn(admissions + [Admitted(task.id)])
  {
    var task := ordered[|admissions|];
    hide Admitting, TurnsFit, TurnFits, AdmittedBy, ConflictsWithSome, InOrder;
    OneMoreTurn(ordered, active, admissions, answers, entry, limit, Admitted(task.id));
    AdmitStep(ordered, |admissions|, active, admissions, admitted, answers, entry + |admitted|, limit);
  }

  lemma AfterDeferring(ordered: seq<Task>, active: seq<Task>, admissions: seq<Admission>, admitted: seq<Task>,
                       answers: Answers, entry: int, limit: int, reason: Reason)
    requires AdmitState(ordered, active, admissions, admitted, answers, entry, limit) && GoesOn(admissions) && |admissions| < |ordered|
    requires var task := ordered[|admissions|];
             Justified(task, reason, active, admitted, answers, entry + |admitted|, limit)
             && TurnFits(Defer(reason), task, active, admitted, answers, entry + |admitted|, limit)
    ensures var more := admissions + [Deferred(ordered[|admissions|].id, reason)];
            AdmitState(ordered, active, more, admitted, answers, entry, limit) && (GoesOn(more) <==> reason != CapacityExhausted)
  {
    var a := Deferred(ordered[|admissions|].id, reason);
    var more := admissions + [a];
    assert GoesOn(more) <==> reason != CapacityExhausted by {
      assert more[|more| - 1] == a;
    }
    assert admissions != [] ==> !EndsTheLoop(admissions[|admissions| - 1]);
    hide Admitting, TurnsFit, TurnFits, AdmittedBy, Justified, GoesOn, EndsTheLoop;
    OneMoreTurn(ordered, active, admissions, answers, entry, limit, a);
    DeferStep(ordered, |admissions|, active, admissions, admitted, answers, entry + |admitted|, limit, reason);
    assert AdmittedBy(ordered, more) == admitted;
  }

  lemma LoopEndsWell(ordered: seq<Task>, active: seq<Task>, d: Dispatched, answers: Answers, entry: int, limit: int)
    requires AdmitState(ordered, active, d.admissions, d.admitted, answers, entry, limit)
    requires if d.threw then
               GoesOn(d.admissions) && |d.admissions| < |ordered|
               && TurnFits(Fail, ordered[|d.admissions|], active, d.admitted, answers, entry + |d.admitted|, limit)
             else |d.admissions| == |ordered| || !GoesOn(d.admissions)
    ensures DispatchSound(ordered, active, d, answers, entry, limit) && DispatchExact(ordered, active, d, answers, entry, limit)
  {
    hide TurnsFit, TurnFits, AdmittedBy;
  }

  lemma DifferentFromAdmitted(tasks: seq<Task>, ordered: seq<Task>, active: seq<Task>, admissions: seq<Admission>, admitted: seq<Task>,
                              answers: Answers, entry: int, limit: int)
    requires AdmitState(ordered, active, admissions, admitted, answers, entry, limit) && |admissions| < |ordered|
    requires DistinctIds(tasks) && DistinctIds(active) && InOrder(ordered) && DistinctIds(ordered)
    requires forall t :: t in active ==> t in tasks && IsActive(t.status)
    requires forall t :: t in ordered ==> t in tasks && t.status == Ready
    ensures DistinctIds(active + admitted + [ordered[|admissions|]])
    ensures forall t :: t in admitted ==> t.id != ordered[|admissions|].id
  {
    hide PairwiseConflictFree, FreeOf, TurnsFit, AdmittedBy, Justified;
    var task := ordered[|admissions|];
    AdmittedComeBefore(ordered, |admissions|, admissions, admitted, task);
    WithTaskDistinct(tasks, active, admitted, task);
  }

  method AdmitTasks(tasks: seq<Task>, ordered: seq<Task>, active: seq<Task>, answers: Answers, entry: nat, limit: int) returns (d: Dispatched)
    requires DistinctIds(tasks) && DistinctIds(active) && InOrder(ordered) && DistinctIds(ordered) && limit > 0
    requires forall t :: t in active ==> t in tasks && IsActive(t.status)
    requires forall t :: t in ordered ==> t in tasks && t.status == Ready
    ensures DispatchSound(ordered, active, d, answers, entry, limit)
    ensures DispatchExact(ordered, active, d, answers, entry, limit)
  {
    var admissions: seq<Admission> := [];
    var admitted: seq<Task> := [];
    var activeExecutions := entry;
    for n := 0 to |ordered|
      invariant |admissions| == n && activeExecutions == entry + |admitted|
      invariant AdmitState(ordered, active, admissions, admitted, answers, entry, limit) && GoesOn(admissions)
    {
      hide AdmitState, Justified, TurnFits, ConflictsWithSome, InOrder, GoesOn, DispatchSound, DispatchExact;
      var task := ordered[n];
      DifferentFromAdmitted(tasks, ordered, active, admissions, admitted, answers, entry, limit);
      var turn := TakeTurn(task, active, admitted, answers, activeExecutions, limit);
      match turn {
        case Admit =>
          AfterAdmitting(ordered, active, admissions, admitted, answers, entry, limit);
          admissions, admitted := admissions + [Admitted(task.id)], admitted + [task];
          activeExecutions := activeExecutions + 1;
        case Defer(reason) =>
          AfterDeferring(ordered, active, admissions, admitted, answers, entry, limit, reason);
          admissions := admissions + [Deferred(task.id, reason)];
          if reason == CapacityExhausted {
            d := Dispatched(admissions, admitted, false);
            LoopEndsWell(ordered, active, d, answers, entry, limit);
            return;
          }
        case Fail =>
          d := Dispatched(admissions, admitted, true);
          LoopEndsWell(ordered, active, d, answers, entry, limit);
          return;
      }
    }
    d := Dispatched(admissions, admitted, false);
    LoopEndsWell(ordered, active, d, answers, entry, limit);
  }

  lemma AdmittedComeBefore(ordered: seq<Task>, n: nat, admissions: seq<Admission>, admitted: seq<Task>, task: Task)
    requires n < |ordered| && |admissions| == n && InOrder(ordered) && DistinctIds(ordered) && task == ordered[n]
    requires forall t :: t in admitted ==> exists k :: 0 <= k < n && ordered[k] == t && admissions[k].Admitted?
    ensures forall t :: t in admitted ==> t in ordered && Before(t, task) && t.id != task.id
  {
    hide Before;
    forall t | t in admitted ensures t in ordered && Before(t, task) && t.id != task.id {
      var k :| 0 <= k < n && ordered[k] == t && admissions[k].Admitted?;
    }
  }

  /** Every runnable task that was not admitted has its reason: one of its own, or the capacity that ended the loop. */
  lemma NotAdmittedIsJustified(ordered: seq<Task>, active: seq<Task>, d: Dispatched, answers: Answers, entry: int, limit: int, k: nat)
    requires DispatchSound(ordered, active, d, answers, entry, limit) && !d.threw && k < |ordered| && ordered[k] !in d.admitted
    ensures k < |d.admissions| ==>
              d.admissions[k].Deferred? && d.admissions[k].taskId == ordered[k].id
              && Justified(ordered[k], d.admissions[k].reason, active, d.admitted, answers, entry + |d.admitted|, limit)
    ensures k >= |d.admissions| ==>
              entry + |d.admitted| >= limit || exists t :: t in ordered && answers.claim(t.id) == NoCapacity
  {
    hide PairwiseConflictFree, FreeOf, InOrder, ConflictsWithSome;
    if k >= |d.admissions| {
      var last := |d.admissions| - 1;
      assert Justified(ordered[last], d.admissions[last].reason, active, d.admitted, answers, entry + |d.admitted|, limit);
      assert ordered[last] in ordered;
    }
  }

  /** An admitted task has all its dependencies done, in the tasks that dispatch saw. */
  lemma AdmittedIsRunnable(tasks: seq<Task>, activeClaims: seq<string>, attemptCounts: map<string, nat>, hasAgent: Task -> bool,
                           d: Dispatched, answers: Answers, limit: int, t: Task)
    requires DistinctIds(tasks) && t in d.admitted
    requires var input := InputOf(tasks, activeClaims, attemptCounts, hasAgent);
             DispatchSound(Candidates(input), ActiveTasks(tasks), d, answers, EntryCount(tasks, activeClaims), limit)
    ensures t in tasks && t.status == Ready && t.id !in activeClaims && DependenciesDone(t, Selectable(tasks, activeClaims))
  {
    var input := InputOf(tasks, activeClaims, attemptCounts, hasAgent);
    FilterDistinct((t: Task) => t.id !in activeClaims, tasks);
    CandidatesAreOrdered(input);
    CandidatesAreReady(tasks, activeClaims, input);
    hide Candidates, PairwiseConflictFree, FreeOf, InOrder, Justified, Selectable;
    var ordered := Candidates(input);
    var k :| 0 <= k < |d.admissions| && ordered[k] == t && d.admissions[k].Admitted?;
    assert t in ordered;
    RunnableIffAllConditions(t, input);
  }
}
