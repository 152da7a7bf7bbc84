/**
 * Dependencies over a whole unattended run: what was done when a task was admitted stays done, and a
 * task that waits for itself or for a missing task is never admitted.
 */
module DependencyClosure {
  import opened TaskStates
  import opened Tasks
  import opened TaskConflicts
  import opened TaskSelection
  import opened Dispatch

  /** The persisted tasks, and the ids of all tasks admitted so far. */
  datatype Moment = Moment(tasks: seq<Task>, admitted: set<string>)

  datatype Event =
    | Dispatch(activeClaims: seq<string>, attemptCounts: map<string, nat>, hasAgent: Task -> bool, limit: int, answers: Answers, dispatched: Dispatched)
    | Move(position: nat, status: TaskStatus)

  /**
   * The status changes of executions, recovery and failures: along the tables, or out of an unexpected
   * failure, which spares DONE.
   */
  predicate MayMove(from: TaskStatus, to: TaskStatus) {
    CanReconcile(from, to) || (from != Done && (to == Failed || to == NeedsHuman))
  }

  /** A task that is not being worked on only comes to run once it has been admitted. */
  predicate NeedsAdmission(from: TaskStatus, to: TaskStatus) {
    !IsActive(from) && IsActive(to)
  }

  function IdsOf(tasks: seq<Task>): (ids: set<string>)
    ensures forall t :: t in tasks ==> t.id in ids
  {
    set t | t in tasks :: t.id
  }

  ghost predicate Next(m: Moment, e: Event, n: Moment) {
    match e
    case Dispatch(activeClaims, attemptCounts, hasAgent, limit, answers, d) =>
      && DispatchSound(Candidates(InputOf(m.tasks, activeClaims, attemptCounts, hasAgent)), ActiveTasks(m.tasks), d, answers,
                       EntryCount(m.tasks, activeClaims), limit)
      && n == Moment(m.tasks, m.admitted + IdsOf(d.admitted))
    case Move(k, status) =>
      && k < |m.tasks| && MayMove(m.tasks[k].status, status)
      && (NeedsAdmission(m.tasks[k].status, status) ==> m.tasks[k].id in m.admitted)
      && n == Moment(m.tasks[k := m.tasks[k].(status := status)], m.admitted)
  }

  ghost predicate IsRun(run: seq<Moment>, events: seq<Event>) {
    && |run| == |events| + 1 && DistinctIds(run[0].tasks) && run[0].admitted == {}
    && forall i :: 0 <= i < |events| ==> Next(run[i], events[i], run[i + 1])
  }

  /** The same tasks, apart from their statuses. */
  ghost predicate SameTasks(a: seq<Task>, b: seq<Task>) {
    |a| == |b| && forall k :: 0 <= k < |a| ==> b[k] == a[k].(status := b[k].status)
  }

  /** No move leads out of DONE. */
  lemma DoneIsFinal(to: TaskStatus)
    ensures !MayMove(Done, to)
  {
  }

  lemma StepKeepsTasks(m: Moment, e: Event, n: Moment)
    requires Next(m, e, n)
    ensures SameTasks(m.tasks, n.tasks) && (DistinctIds(m.tasks) ==> DistinctIds(n.tasks))
    ensures forall k :: 0 <= k < |m.tasks| && m.tasks[k].status == Done ==> n.tasks[k].status == Done
  {
    hide DispatchSound, Candidates, InputOf, ActiveTasks, EntryCount, MayMove;
    if e.Move? {
      DoneIsFinal(e.status);
    }
  }

  lemma {:induction false} TasksStay(run: seq<Moment>, events: seq<Event>, i: nat, j: nat)
    requires IsRun(run, events) && i <= j < |run|
    ensures SameTasks(run[i].tasks, run[j].tasks) && DistinctIds(run[j].tasks)
    decreases j
  {
    hide Next;
    if j > 0 {
      TasksStay(run, events, if i < j then i else 0, j - 1);
      StepKeepsTasks(run[j - 1], events[j - 1], run[j]);
    }
  }

  /** A task that is done stays done. */
  lemma {:induction false} DoneStays(run: seq<Moment>, events: seq<Event>, i: nat, j: nat, k: nat)
    requires IsRun(run, events) && i <= j < |run| && k < |run[i].tasks| && run[i].tasks[k].status == Done
    ensures k < |run[j].tasks| && run[j].tasks[k].status == Done
    decreases j - i
  {
    hide Next;
    if i < j {
      DoneStays(run, events, i, j - 1, k);
      StepKeepsTasks(run[j - 1], events[j - 1], run[j]);
    }
  }

  /** A dependency counts as done exactly when the task with its id is. */
  lemma {:induction false} IsDoneMeansDone(tasks: seq<Task>, id: string)
    requires DistinctIds(tasks)
    ensures IsDone(tasks, id) <==> exists k :: 0 <= k < |tasks| && tasks[k].id == id && tasks[k].status == Done
  {
    if tasks != [] {
      IsDoneMeansDone(tasks[1..], id);
      assert forall k :: 0 < k < |tasks| ==> tasks[k] == tasks[1..][k - 1];
      if tasks[0].id != id && IsDone(tasks[1..], id) {
        var k :| 0 <= k < |tasks[1..]| && tasks[1..][k].id == id && tasks[1..][k].status == Done;
        assert tasks[k + 1].id == id;
      }
    }
  }

  lemma SelectableDone(tasks: seq<Task>, activeClaims: seq<string>, id: string)
    requires DistinctIds(tasks) && IsDone(Selectable(tasks, activeClaims), id)
    ensures IsDone(tasks, id)
  {
    FilterDistinct((t: Task) => t.id !in activeClaims, tasks);
    var some := Selectable(tasks, activeClaims);
    IsDoneMeansDone(some, id);
    IsDoneMeansDone(tasks, id);
    var k :| 0 <= k < |some| && some[k].id == id && some[k].status == Done;
    assert some[k] in some;
    assert some[k] in tasks;
  }

  lemma {:induction false} DoneIdStays(run: seq<Moment>, events: seq<Event>, i: nat, j: nat, id: string)
    requires IsRun(run, events) && i <= j < |run| && IsDone(run[i].tasks, id)
    ensures IsDone(run[j].tasks, id)
  {
    TasksStay(run, events, i, i);
    TasksStay(run, events, i, j);
    IsDoneMeansDone(run[i].tasks, id);
    IsDoneMeansDone(run[j].tasks, id);
    var k :| 0 <= k < |run[i].tasks| && run[i].tasks[k].id == id && run[i].tasks[k].status == Done;
    DoneStays(run, events, i, j, k);
  }

  /** Every task that was admitted has all its dependencies done, then and at every later moment. */
  lemma AdmittedDependenciesStayDone(run: seq<Moment>, events: seq<Event>, i: nat, j: nat, t: Task)
    requires IsRun(run, events) && i < |events| && i <= j < |run| && events[i].Dispatch? && t in events[i].dispatched.admitted
    ensures t in run[i].tasks && DependenciesDone(t, run[j].tasks)
  {
    var e, tasks := events[i], run[i].tasks;
    assert Next(run[i], e, run[i + 1]);
    TasksStay(run, events, i, i);
    AdmittedIsRunnable(tasks, e.activeClaims, e.attemptCounts, e.hasAgent, e.dispatched, e.answers, e.limit, t);
    hide DispatchSound;
    forall d | d in t.dependsOn ensures IsDone(run[j].tasks, d) {
      SelectableDone(tasks, e.activeClaims, d);
      DoneIdStays(run, events, i, j, d);
    }
  }

  // --- Cycles and missing dependencies ---

  /** The task with this id depends on a task of the set, or on one that does not exist. */
  ghost predicate WaitsIn(t: Task, ids: set<string>, tasks: seq<Task>) {
    exists d :: d in t.dependsOn && (d in ids || forall u :: u in tasks ==> u.id != d)
  }

  /** Every task of the set waits for one of the set or for a missing one, such as the tasks of a dependency cycle. */
  ghost predicate Stuck(ids: set<string>, tasks: seq<Task>) {
    forall t :: t in tasks && t.id in ids ==> WaitsIn(t, ids, tasks)
  }

  /** No task of the set is admitted, running or done. */
  ghost predicate Untouched(m: Moment, ids: set<string>) {
    && (forall id :: id in ids ==> id !in m.admitted)
    && forall t :: t in m.tasks && t.id in ids ==> !IsActive(t.status) && t.status != Done
  }

  /** Crash recovery finds the work of a failed task of the set integrated after all. */
  ghost predicate Completes(m: Moment, e: Event, ids: set<string>) {
    e.Move? && e.position < |m.tasks| && m.tasks[e.position].id in ids && m.tasks[e.position].status == Failed && e.status == Done
  }

  lemma WaitingIsNotRunnable(tasks: seq<Task>, ids: set<string>, t: Task)
    requires DistinctIds(tasks) && t in tasks && WaitsIn(t, ids, tasks)
    requires forall u :: u in tasks && u.id in ids ==> u.status != Done
    ensures !DependenciesDone(t, tasks)
  {
    var d :| d in t.dependsOn && (d in ids || forall u :: u in tasks ==> u.id != d);
    IsDoneMeansDone(tasks, d);
    assert forall k :: 0 <= k < |tasks| ==> tasks[k] in tasks;
    assert !IsDone(tasks, d);
  }

  lemma StepKeepsUntouched(m: Moment, e: Event, n: Moment, ids: set<string>)
    requires Next(m, e, n) && DistinctIds(m.tasks) && Stuck(ids, m.tasks) && Untouched(m, ids)
    ensures Untouched(n, ids) <==> !Completes(m, e, ids)
  {
    hide Candidates, ActiveTasks, EntryCount;
    match e
    case Dispatch(activeClaims, attemptCounts, hasAgent, limit, answers, d) =>
      forall t | t in d.admitted ensures t.id !in ids {
        AdmittedIsRunnable(m.tasks, activeClaims, attemptCounts, hasAgent, d, answers, limit, t);
        hide DispatchSound;
        forall id | id in t.dependsOn ensures IsDone(m.tasks, id) {
          SelectableDone(m.tasks, activeClaims, id);
        }
        if t.id in ids {
          WaitingIsNotRunnable(m.tasks, ids, t);
        }
      }
    case Move(k, status) =>
      assert n.tasks[k] in n.tasks && m.tasks[k] in m.tasks;
      if !Completes(m, e, ids) {
        forall t | t in n.tasks && t.id in ids ensures !IsActive(t.status) && t.status != Done {
          var l :| 0 <= l < |n.tasks| && n.tasks[l] == t;
          assert m.tasks[l] in m.tasks;
        }
      }
  }

  lemma StuckStays(a: seq<Task>, b: seq<Task>, ids: set<string>)
    requires SameTasks(a, b) && Stuck(ids, a)
    ensures Stuck(ids, b)
  {
    forall t | t in b && t.id in ids ensures WaitsIn(t, ids, b) {
      var k :| 0 <= k < |b| && b[k] == t;
      assert a[k] in a && WaitsIn(a[k], ids, a);
      var d :| d in a[k].dependsOn && (d in ids || forall u :: u in a ==> u.id != d);
      assert d in t.dependsOn;
      if d !in ids {
        forall u | u in b ensures u.id != d {
          var l :| 0 <= l < |b| && b[l] == u;
          assert a[l] in a;
        }
      }
    }
  }

  /**
   * A task on a dependency cycle, or waiting for a missing task, is never admitted, and stays so as long
   * as crash recovery does not complete a failed task of the set.
   */
  lemma {:induction false} StuckTasksAreNeverAdmitted(run: seq<Moment>, events: seq<Event>, ids: set<string>, i: nat)
    requires IsRun(run, events) && i < |run| && Stuck(ids, run[0].tasks) && Untouched(run[0], ids)
    requires forall k :: 0 <= k < i ==> !Completes(run[k], events[k], ids)
    ensures Untouched(run[i], ids)
  {
    if i > 0 {
      StuckTasksAreNeverAdmitted(run, events, ids, i - 1);
      TasksStay(run, events, 0, i - 1);
      StuckStays(run[0].tasks, run[i - 1].tasks, ids);
      hide Stuck, Untouched, Next, Completes;
      StepKeepsUntouched(run[i - 1], events[i - 1], run[i], ids);
    }
  }
}
