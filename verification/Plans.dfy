/** Task plans and the facts the validator checks about them (`core/state.py`).

    `status`, `priority` and `task_type` play no part in validation or
    scheduling and are not modelled. */
module Plans {
  import opened Graphs

  type TaskId = string

  datatype Task = Task(
    id: TaskId,
    title: string,
    description: string,
    persona: string,
    dependencies: seq<TaskId>)

  datatype TaskPlan = TaskPlan(planId: string, tasks: seq<Task>)

  function Ids(tasks: seq<Task>): set<TaskId> {
    set t | t in tasks :: t.id
  }

  ghost predicate UniqueIds(tasks: seq<Task>) {
    forall i, j :: 0 <= i < j < |tasks| ==> tasks[i].id != tasks[j].id
  }

  ghost predicate KnownPersonas(tasks: seq<Task>, personas: set<string>) {
    forall t :: t in tasks ==> t.persona in personas
  }

  ghost predicate KnownDependencies(tasks: seq<Task>) {
    forall t, d :: t in tasks && d in t.dependencies ==> d in Ids(tasks)
  }

  /** The dict `{t.task_id: t.dependencies for t in tasks}`: a later task wins. */
  function DependencyGraph(tasks: seq<Task>): Graph<TaskId> {
    if tasks == [] then map[]
    else
      var last := tasks[|tasks| - 1];
      DependencyGraph(tasks[..|tasks| - 1])[last.id := last.dependencies]
  }

  /** The structural part of validity. */
  ghost predicate Dag(tasks: seq<Task>) {
    && UniqueIds(tasks)
    && KnownDependencies(tasks)
    && Acyclic(DependencyGraph(tasks))
  }

  /** What the validator promises of a plan it accepts. */
  ghost predicate ValidPlan(tasks: seq<Task>, personas: set<string>) {
    tasks != [] && KnownPersonas(tasks, personas) && Dag(tasks)
  }

  lemma {:induction false} GraphKeys(tasks: seq<Task>)
    ensures DependencyGraph(tasks).Keys == Ids(tasks)
  {
    if tasks == [] {
    } else {
      var front := tasks[..|tasks| - 1];
      assert tasks == front + [tasks[|tasks| - 1]];
      GraphKeys(front);
    }
  }

  lemma {:induction false} GraphEntry(tasks: seq<Task>, t: Task)
    requires UniqueIds(tasks) && t in tasks
    ensures t.id in DependencyGraph(tasks) && DependencyGraph(tasks)[t.id] == t.dependencies
  {
    var n := |tasks| - 1;
    var front := tasks[..n];
    assert tasks == front + [tasks[n]];
    if t != tasks[n] {
      GraphEntry(front, t);
      var i :| 0 <= i < n && tasks[i] == t;
    }
  }

  /** With known dependencies every successor in the graph is itself a task id. */
  lemma {:induction false} SuccessorsAreIds(tasks: seq<Task>, n: TaskId, s: TaskId)
    requires s in Succ(DependencyGraph(tasks), n)
    ensures exists t :: t in tasks && t.id == n && s in t.dependencies
  {
    var k := |tasks| - 1;
    if k >= 0 {
      var front := tasks[..k];
      assert tasks == front + [tasks[k]];
      if tasks[k].id == n {
        assert tasks[k] in tasks;
      } else {
        SuccessorsAreIds(front, n, s);
      }
    }
  }

  predicate IsReady(t: Task, completed: set<TaskId>) {
    && t.id !in completed
    && forall d :: d in t.dependencies ==> d in completed
  }

  /** The list comprehension of `TaskPlan.get_ready_tasks`. */
  function GetReadyTasks(tasks: seq<Task>, completed: set<TaskId>): (ready: seq<Task>)
    ensures forall t :: t in ready <==> t in tasks && IsReady(t, completed)
    ensures (forall t :: t in tasks ==> !IsReady(t, completed)) ==> ready == []
  {
    if tasks == [] then []
    else (if IsReady(tasks[0], completed) then [tasks[0]] else []) + GetReadyTasks(tasks[1..], completed)
  }
}
