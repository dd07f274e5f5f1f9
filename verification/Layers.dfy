/** In a validated plan the rounds of the loop are the layers of the graph. */
module Layers {
  import opened Execution
  import opened Graphs
  import opened Plans
  import opened Schedule
  import opened Wrappers

  /** A state about to run a well-formed plan none of whose ids was seen before. */
  ghost predicate Fresh(s: BossState) {
    && s.plan.Some?
    && Dag(s.plan.value)
    && Done(s) !! Ids(s.plan.value)
    && s.outputs.Keys !! Ids(s.plan.value)
  }

  /** Depth as a table: below every task, and deeper by one than some dependency. */
  ghost predicate Layering(tasks: seq<Task>, depth: map<TaskId, nat>) {
    && depth.Keys == Ids(tasks)
    && (forall t, d :: t in tasks && d in t.dependencies ==> d in depth && depth[d] < depth[t.id])
    && (forall t :: t in tasks && depth[t.id] > 0 ==>
      exists d :: d in t.dependencies && d in depth && depth[t.id] == depth[d] + 1)
  }

  ghost function DepthTable(tasks: seq<Task>): (depth: map<TaskId, nat>)
    requires Dag(tasks)
    ensures Layering(tasks, depth)
    ensures forall id :: id in depth ==> depth[id] == Depth(DependencyGraph(tasks), id)
  {
    var g := DependencyGraph(tasks);
    var depth: map<TaskId, nat> := map id | id in Ids(tasks) :: Depth(g, id);
    DepthTableIsLayering(tasks, depth);
    depth
  }

  lemma DepthTableIsLayering(tasks: seq<Task>, depth: map<TaskId, nat>)
    requires Dag(tasks) && depth.Keys == Ids(tasks)
    requires forall id :: id in depth ==> depth[id] == Depth(DependencyGraph(tasks), id)
    ensures Layering(tasks, depth)
  {
    var g := DependencyGraph(tasks);
    forall t, d | t in tasks && d in t.dependencies
      ensures d in depth && depth[d] < depth[t.id]
    {
      GraphEntry(tasks, t);
      assert Edge(g, t.id, d);
      DepthDecreases(g, t.id, d);
    }
    forall t | t in tasks && depth[t.id] > 0
      ensures exists d :: d in t.dependencies && d in depth && depth[t.id] == depth[d] + 1
    {
      GraphEntry(tasks, t);
      var d := DeepestSuccessor(g, t.id);
    }
  }

  /** Exactly the tasks shallower than `k` are done, and they have an output. */
  ghost predicate DoneBelow(tasks: seq<Task>, depth: map<TaskId, nat>, e: BossState, k: nat) {
    && e.plan == Some(tasks)
    && (forall id :: id in depth ==> (id in Done(e) <==> depth[id] < k))
    && (forall id :: id in depth ==> (id in e.outputs <==> depth[id] < k))
  }

  /** With everything shallower than `k` done, the ready tasks are layer `k`. */
  lemma ReadyIsLayer(tasks: seq<Task>, depth: map<TaskId, nat>, done: set<TaskId>, k: nat, t: Task)
    requires Layering(tasks, depth) && t in tasks
    requires forall id :: id in depth ==> (id in done <==> depth[id] < k)
    ensures IsReady(t, done) <==> depth[t.id] == k
  {
  }

  lemma ReadyIdsAreLayer(tasks: seq<Task>, depth: map<TaskId, nat>, e: BossState, k: nat, id: TaskId)
    requires Layering(tasks, depth) && DoneBelow(tasks, depth, e, k) && id in depth
    ensures id in Ids(Ready(e)) <==> depth[id] == k
  {
  }

  lemma OneLayerMore(rt: Runtime, tasks: seq<Task>, depth: map<TaskId, nat>, e: BossState, k: nat)
    requires Layering(tasks, depth) && DoneBelow(tasks, depth, e, k)
    ensures DoneBelow(tasks, depth, Execute(rt, e), k + 1)
  {
    ExecuteEffect(rt, e);
    forall id | id in depth
      ensures id in Ids(Ready(e)) <==> depth[id] == k
    {
      ReadyIdsAreLayer(tasks, depth, e, k, id);
    }
  }

  lemma {:induction false} MoreLayers(
    rt: Runtime, tasks: seq<Task>, depth: map<TaskId, nat>, e: BossState, j: nat, k: nat)
    requires Layering(tasks, depth) && DoneBelow(tasks, depth, e, j)
    ensures DoneBelow(tasks, depth, After(rt, e, k), j + k)
    decreases k
  {
    if k == 0 {
    } else {
      OneLayerMore(rt, tasks, depth, e, j);
      MoreLayers(rt, tasks, depth, Execute(rt, e), j + 1, k - 1);
    }
  }

  lemma {:induction false} ReadyCount(tasks: seq<Task>, done: set<TaskId>, t: Task)
    ensures multiset(GetReadyTasks(tasks, done))[t] == if IsReady(t, done) then multiset(tasks)[t] else 0
  {
    if tasks == [] {
    } else {
      ReadyCount(tasks[1..], done, t);
      assert tasks == [tasks[0]] + tasks[1..];
    }
  }

  lemma {:induction false} UniqueCount(tasks: seq<Task>, t: Task)
    requires UniqueIds(tasks) && t in tasks
    ensures multiset(tasks)[t] == 1
  {
    var rest := tasks[1..];
    assert tasks == [tasks[0]] + rest;
    assert UniqueIds(rest);
    if t in rest {
      UniqueCount(rest, t);
      var i :| 0 <= i < |rest| && rest[i] == t;
      assert tasks[i + 1].id != tasks[0].id;
    } else {
      assert multiset(rest)[t] == 0;
    }
  }

  lemma ReadyTasksAreUncalled(tasks: seq<Task>, depth: map<TaskId, nat>, e: BossState, k: nat)
    requires Layering(tasks, depth) && DoneBelow(tasks, depth, e, k)
    ensures Calls(e) == Ready(e)
  {
    forall u | u in Ready(e)
      ensures u.id !in e.outputs
    {
      ReadyIsLayer(tasks, depth, Done(e), k, u);
      assert u.id in Ids(tasks);
    }
    AllCalled(Ready(e), e.outputs);
  }

  lemma LayerCalls(rt: Runtime, tasks: seq<Task>, depth: map<TaskId, nat>, e: BossState, k: nat, t: Task)
    requires Layering(tasks, depth) && DoneBelow(tasks, depth, e, k) && UniqueIds(tasks) && t in tasks
    ensures t.id in depth
    ensures multiset(Calls(e))[t] == if k == depth[t.id] then 1 else 0
    ensures t in Calls(e) ==> forall d :: d in t.dependencies ==> d in e.outputs
  {
    assert t.id in Ids(tasks);
    ReadyTasksAreUncalled(tasks, depth, e, k);
    ReadyIsLayer(tasks, depth, Done(e), k, t);
    ReadyCount(tasks, Done(e), t);
    UniqueCount(tasks, t);
  }

  /** Every task's persona is called exactly once, in the round whose number is
      the task's depth, and then every dependency has its output. */
  lemma RunsOnceAtItsDepth(rt: Runtime, s: BossState, t: Task, k: nat)
    requires Fresh(s) && t in s.plan.value
    ensures
      multiset(Calls(After(rt, s, k)))[t] ==
      if k == Depth(DependencyGraph(s.plan.value), t.id) then 1 else 0
    ensures t in Calls(After(rt, s, k)) ==>
      forall d :: d in t.dependencies ==> d in After(rt, s, k).outputs
  {
    var tasks := s.plan.value;
    var depth := DepthTable(tasks);
    MoreLayers(rt, tasks, depth, s, 0, k);
    LayerCalls(rt, tasks, depth, After(rt, s, k), k, t);
  }

  /** Below a task of some depth there is a task of every smaller depth. */
  lemma {:induction false} LayersAreInhabited(tasks: seq<Task>, depth: map<TaskId, nat>, t: Task, j: nat)
    returns (u: Task)
    requires Layering(tasks, depth) && t in tasks && j <= depth[t.id]
    ensures u in tasks && depth[u.id] == j
    decreases depth[t.id]
  {
    if depth[t.id] == j {
      u := t;
    } else {
      var d :| d in t.dependencies && d in depth && depth[t.id] == depth[d] + 1;
      var v :| v in tasks && v.id == d;
      u := LayersAreInhabited(tasks, depth, v, j);
    }
  }

  lemma NothingReadyWhenAllDone(tasks: seq<Task>, depth: map<TaskId, nat>, e: BossState, k: nat)
    requires Layering(tasks, depth) && DoneBelow(tasks, depth, e, k)
    requires forall id :: id in depth ==> depth[id] < k
    ensures Ready(e) == []
  {
  }

  lemma {:induction false} LayerRounds(
    rt: Runtime, tasks: seq<Task>, depth: map<TaskId, nat>, s: BossState, deepest: Task, k: nat)
    requires Layering(tasks, depth) && DoneBelow(tasks, depth, s, k)
    requires deepest in tasks && k <= depth[deepest.id] + 1
    requires forall id :: id in depth ==> depth[id] <= depth[deepest.id]
    ensures Rounds(rt, s) == depth[deepest.id] + 1 - k
    ensures DoneBelow(tasks, depth, RunLoop(rt, s), depth[deepest.id] + 1)
    decreases depth[deepest.id] + 1 - k
  {
    if k == depth[deepest.id] + 1 {
      NothingReadyWhenAllDone(tasks, depth, s, k);
    } else {
      var u := LayersAreInhabited(tasks, depth, deepest, k);
      ReadyIsLayer(tasks, depth, Done(s), k, u);
      assert u in Ready(s);
      OneLayerMore(rt, tasks, depth, s, k);
      LayerRounds(rt, tasks, depth, Execute(rt, s), deepest, k + 1);
    }
  }

  /** The loop takes one round more than the longest dependency chain has edges,
      and leaves nothing out. */
  lemma RoundsAreDepth(rt: Runtime, s: BossState, longest: nat)
    requires Fresh(s)
    requires forall t :: t in s.plan.value ==> Depth(DependencyGraph(s.plan.value), t.id) <= longest
    requires exists t :: t in s.plan.value && Depth(DependencyGraph(s.plan.value), t.id) == longest
    ensures Rounds(rt, s) == longest + 1
    ensures Ids(s.plan.value) <= Done(RunLoop(rt, s)) * RunLoop(rt, s).outputs.Keys
  {
    var tasks := s.plan.value;
    var depth := DepthTable(tasks);
    var deepest :| deepest in tasks && Depth(DependencyGraph(tasks), deepest.id) == longest;
    assert deepest.id in depth;
    LayerRounds(rt, tasks, depth, s, deepest, 0);
  }

  lemma {:induction false} CallsFromLayer(
    rt: Runtime, tasks: seq<Task>, depth: map<TaskId, nat>, e: BossState, k: nat, t: Task)
    requires Layering(tasks, depth) && DoneBelow(tasks, depth, e, k) && UniqueIds(tasks) && t in tasks
    ensures t.id in depth
    ensures multiset(AllCalls(rt, e))[t] == if depth[t.id] >= k then 1 else 0
    decreases Pending(e)
  {
    assert t.id in Ids(tasks);
    if Ready(e) == [] {
      if depth[t.id] >= k {
        var u := LayersAreInhabited(tasks, depth, t, k);
        ReadyIsLayer(tasks, depth, Done(e), k, u);
      }
    } else {
      LayerCalls(rt, tasks, depth, e, k, t);
      OneLayerMore(rt, tasks, depth, e, k);
      PendingShrinks(rt, e);
      CallsFromLayer(rt, tasks, depth, Execute(rt, e), k + 1, t);
    }
  }

  lemma {:induction false} OnlyPlanTasksAreCalled(rt: Runtime, s: BossState, t: Task)
    requires s.plan.Some? && t !in s.plan.value
    ensures t !in AllCalls(rt, s)
    decreases Pending(s)
  {
    if Ready(s) != [] {
      CalledIsReady(Ready(s), s.outputs, t);
      PendingShrinks(rt, s);
      ExecuteEffect(rt, s);
      OnlyPlanTasksAreCalled(rt, Execute(rt, s), t);
    }
  }

  lemma {:induction false} CalledIsReady(ready: seq<Task>, existing: Outputs, t: Task)
    ensures t in Called(ready, existing) ==> t in ready
  {
    if ready == [] {
    } else {
      CalledIsReady(ready[1..], existing, t);
    }
  }

  /** Over the whole loop every task of a fresh plan is called once. */
  lemma LoopCallsEveryTask(rt: Runtime, s: BossState)
    requires Fresh(s)
    ensures multiset(AllCalls(rt, s)) == multiset(s.plan.value)
  {
    var tasks := s.plan.value;
    var depth := DepthTable(tasks);
    var calls := multiset(AllCalls(rt, s));
    forall t
      ensures calls[t] == multiset(tasks)[t]
    {
      if t in tasks {
        CallsFromLayer(rt, tasks, depth, s, 0, t);
        UniqueCount(tasks, t);
      } else {
        OnlyPlanTasksAreCalled(rt, s, t);
      }
    }
  }
}
