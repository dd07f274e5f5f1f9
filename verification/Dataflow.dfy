/** What a plan means, independently of any schedule: each task's output is its
    persona applied to the meanings of its dependencies.  Running the plan in
    parallel layers, or one task at a time in any topological order, computes
    exactly that. */
module Dataflow {
  import opened Execution
  import opened Graphs
  import opened Layers
  import opened Plans
  import opened Schedule

  ghost function TaskOf(tasks: seq<Task>, id: TaskId): (t: Task)
    requires id in Ids(tasks)
    ensures t in tasks && t.id == id
  {
    var t :| t in tasks && t.id == id;
    t
  }

  ghost function Eval(rt: Runtime, tasks: seq<Task>, depth: map<TaskId, nat>, id: TaskId): TaskOutput
    requires Layering(tasks, depth) && id in depth
    decreases depth[id], 1
  {
    var t := TaskOf(tasks, id);
    CallPersona(rt, t, BuildUpstreamContext(t.dependencies, EvalAll(rt, tasks, depth, t.dependencies, depth[id])))
  }

  ghost function EvalAll(
    rt: Runtime, tasks: seq<Task>, depth: map<TaskId, nat>, ids: seq<TaskId>, bound: nat): (m: Outputs)
    requires Layering(tasks, depth) && forall d :: d in ids ==> d in depth && depth[d] < bound
    ensures forall d :: d in m <==> d in ids
    decreases bound, 0
  {
    map d | d in ids :: Eval(rt, tasks, depth, d)
  }

  /** The outputs of a plan by recursion over its dependencies. */
  ghost function Meaning(rt: Runtime, tasks: seq<Task>): (m: Outputs)
    requires Dag(tasks)
    ensures m.Keys == Ids(tasks)
  {
    var depth := DepthTable(tasks);
    map id | id in depth :: Eval(rt, tasks, depth, id)
  }

  lemma SameIdSameTask(tasks: seq<Task>, t: Task, u: Task)
    requires UniqueIds(tasks) && t in tasks && u in tasks && t.id == u.id
    ensures t == u
  {
  }

  /** Outputs of other tasks do not show. */
  lemma {:induction false} ContextIgnoresOthers(dependencies: seq<TaskId>, a: Outputs, b: Outputs)
    requires forall d :: d in dependencies ==> (d in a <==> d in b) && (d in a ==> a[d] == b[d])
    ensures UpstreamBlocks(dependencies, a) == UpstreamBlocks(dependencies, b)
    ensures BuildUpstreamContext(dependencies, a) == BuildUpstreamContext(dependencies, b)
  {
    if dependencies == [] {
    } else {
      var n := |dependencies| - 1;
      assert dependencies[n] in dependencies;
      ContextIgnoresOthers(dependencies[..n], a, b);
    }
  }

  /** Outputs that solve the dataflow equation of every task they contain. */
  ghost predicate Agrees(outputs: Outputs, meaning: Outputs) {
    forall id :: id in outputs && id in meaning ==> outputs[id] == meaning[id]
  }

  /** `meaning` is the solution of the dataflow equations of the plan. */
  ghost predicate Solves(rt: Runtime, tasks: seq<Task>, meaning: Outputs) {
    && meaning.Keys == Ids(tasks)
    && forall t :: t in tasks ==>
      meaning[t.id] == CallPersona(rt, t, BuildUpstreamContext(t.dependencies, meaning))
  }

  /** The defining equation: a task's meaning is its persona applied to the
      meanings of its dependencies. */
  lemma MeaningSolves(rt: Runtime, tasks: seq<Task>)
    requires Dag(tasks)
    ensures Solves(rt, tasks, Meaning(rt, tasks))
  {
    var depth := DepthTable(tasks);
    var m := Meaning(rt, tasks);
    forall t | t in tasks
      ensures m[t.id] == CallPersona(rt, t, BuildUpstreamContext(t.dependencies, m))
    {
      assert t.id in depth;
      SameIdSameTask(tasks, t, TaskOf(tasks, t.id));
      ContextIgnoresOthers(t.dependencies, EvalAll(rt, tasks, depth, t.dependencies, depth[t.id]), m);
    }
  }

  /** The equations have no other solution. */
  lemma {:induction false} SolutionIsUnique(
    rt: Runtime, tasks: seq<Task>, depth: map<TaskId, nat>, a: Outputs, b: Outputs, t: Task)
    requires Layering(tasks, depth) && Solves(rt, tasks, a) && Solves(rt, tasks, b) && t in tasks
    ensures a[t.id] == b[t.id]
    decreases depth[t.id]
  {
    forall d | d in t.dependencies
      ensures d in a && d in b && a[d] == b[d]
    {
      assert d in depth && depth[d] < depth[t.id];
      var u :| u in tasks && u.id == d;
      SolutionIsUnique(rt, tasks, depth, a, b, u);
    }
    ContextIgnoresOthers(t.dependencies, a, b);
  }

  /** Running a task whose dependencies have their meanings gives its meaning. */
  lemma RunGivesMeaning(rt: Runtime, tasks: seq<Task>, meaning: Outputs, outputs: Outputs, t: Task)
    requires Solves(rt, tasks, meaning) && Agrees(outputs, meaning) && t in tasks && KnownDependencies(tasks)
    requires forall d :: d in t.dependencies ==> d in outputs
    ensures RunSingleSafe(rt, t, outputs) == meaning[t.id]
  {
    assert t.id in meaning;
    ContextIgnoresOthers(t.dependencies, outputs, meaning);
  }

  lemma ReadyInputsArePresent(tasks: seq<Task>, depth: map<TaskId, nat>, e: BossState, k: nat, t: Task)
    requires Layering(tasks, depth) && DoneBelow(tasks, depth, e, k) && t in Ready(e)
    ensures t in tasks && forall d :: d in t.dependencies ==> d in e.outputs
  {
    assert IsReady(t, Done(e));
    forall d | d in t.dependencies
      ensures d in e.outputs
    {
      assert d in depth;
    }
  }

  lemma RoundAgrees(
    rt: Runtime, tasks: seq<Task>, depth: map<TaskId, nat>, meaning: Outputs, e: BossState, k: nat)
    requires Layering(tasks, depth) && DoneBelow(tasks, depth, e, k)
    requires Solves(rt, tasks, meaning) && KnownDependencies(tasks) && Agrees(e.outputs, meaning)
    ensures Agrees(Execute(rt, e).outputs, meaning)
  {
    ExecuteEffect(rt, e);
    var next := Execute(rt, e).outputs;
    forall id | id in next && id in meaning
      ensures next[id] == meaning[id]
    {
      if id !in e.outputs {
        CollectValue(rt, Ready(e), e.outputs, id);
        var t :| t in Ready(e) && t.id == id && next[id] == RunSingleSafe(rt, t, e.outputs);
        ReadyInputsArePresent(tasks, depth, e, k, t);
        RunGivesMeaning(rt, tasks, meaning, e.outputs, t);
      }
    }
  }

  lemma {:induction false} LoopAgrees(
    rt: Runtime, tasks: seq<Task>, depth: map<TaskId, nat>, meaning: Outputs, e: BossState, k: nat)
    requires Layering(tasks, depth) && DoneBelow(tasks, depth, e, k)
    requires Solves(rt, tasks, meaning) && KnownDependencies(tasks) && Agrees(e.outputs, meaning)
    ensures Agrees(RunLoop(rt, e).outputs, meaning)
    decreases Pending(e)
  {
    if Ready(e) != [] {
      RoundAgrees(rt, tasks, depth, meaning, e, k);
      OneLayerMore(rt, tasks, depth, e, k);
      PendingShrinks(rt, e);
      LoopAgrees(rt, tasks, depth, meaning, Execute(rt, e), k + 1);
    }
  }

  lemma {:induction false} LoopKeepsOthers(rt: Runtime, s: BossState)
    ensures s.outputs.Keys <= RunLoop(rt, s).outputs.Keys
    ensures forall id :: id in s.outputs ==> RunLoop(rt, s).outputs[id] == s.outputs[id]
    ensures s.plan.Some? ==> RunLoop(rt, s).outputs.Keys <= s.outputs.Keys + Ids(s.plan.value)
    decreases Pending(s)
  {
    if Ready(s) != [] {
      ExecuteEffect(rt, s);
      PendingShrinks(rt, s);
      LoopKeepsOthers(rt, Execute(rt, s));
      assert Ids(Ready(s)) <= Ids(s.plan.value);
    }
  }

  lemma MaximalDepth(tasks: seq<Task>, depth: map<TaskId, nat>) returns (deepest: Task)
    requires Layering(tasks, depth) && tasks != []
    ensures deepest in tasks && deepest.id in depth
    ensures forall id :: id in depth ==> depth[id] <= depth[deepest.id]
  {
    deepest := tasks[0];
    assert tasks[0] in tasks && tasks[0].id in Ids(tasks);
    for k := 0 to |tasks|
      invariant deepest in tasks && deepest.id in depth
      invariant forall j :: 0 <= j < k ==> tasks[j].id in depth && depth[tasks[j].id] <= depth[deepest.id]
    {
      assert tasks[k] in tasks && tasks[k].id in Ids(tasks);
      if depth[tasks[k].id] > depth[deepest.id] {
        deepest := tasks[k];
      }
    }
  }

  lemma MergedMap<K, V>(r: map<K, V>, a: map<K, V>, b: map<K, V>)
    requires r.Keys == a.Keys + b.Keys
    requires forall k :: k in b ==> r[k] == b[k]
    requires forall k :: k in a && k !in b ==> r[k] == a[k]
    ensures r == a + b
  {
  }

  lemma LoopCoversPlan(rt: Runtime, tasks: seq<Task>, depth: map<TaskId, nat>, s: BossState)
    requires Layering(tasks, depth) && DoneBelow(tasks, depth, s, 0)
    ensures Ids(tasks) <= RunLoop(rt, s).outputs.Keys
  {
    if tasks != [] {
      var deepest := MaximalDepth(tasks, depth);
      LayerRounds(rt, tasks, depth, s, deepest, 0);
    }
  }

  /** The loop adds to the outputs exactly the meaning of the plan. */
  lemma ParallelIsDataflow(rt: Runtime, s: BossState)
    requires Fresh(s)
    ensures RunLoop(rt, s).outputs == s.outputs + Meaning(rt, s.plan.value)
  {
    var tasks := s.plan.value;
    var depth, meaning := DepthTable(tasks), Meaning(rt, tasks);
    MeaningSolves(rt, tasks);
    LoopAgrees(rt, tasks, depth, meaning, s, 0);
    LoopKeepsOthers(rt, s);
    LoopCoversPlan(rt, tasks, depth, s);
    MergedMap(RunLoop(rt, s).outputs, s.outputs, meaning);
  }

  /** One task at a time, each seeing the outputs of those before it. */
  function SequentialRun(rt: Runtime, order: seq<Task>, outputs: Outputs): Outputs {
    if order == [] then outputs
    else
      var n := |order| - 1;
      var before := SequentialRun(rt, order[..n], outputs);
      before[order[n].id := RunSingleSafe(rt, order[n], before)]
  }

  /** Every dependency comes earlier. */
  ghost predicate Topological(order: seq<Task>) {
    forall i, d :: 0 <= i < |order| && d in order[i].dependencies ==> d in Ids(order[..i])
  }

  lemma TopologicalFront(order: seq<Task>)
    requires Topological(order) && order != []
    ensures
      var front, last := order[..|order| - 1], order[|order| - 1];
      && Topological(front)
      && (forall d :: d in last.dependencies ==> d in Ids(front))
      && Ids(order) == Ids(front) + {last.id}
  {
  }

  lemma {:induction false} SequentialKeys(rt: Runtime, order: seq<Task>, outputs: Outputs)
    ensures SequentialRun(rt, order, outputs).Keys == outputs.Keys + Ids(order)
  {
    if order == [] {
    } else {
      var n := |order| - 1;
      assert order == order[..n] + [order[n]];
      SequentialKeys(rt, order[..n], outputs);
    }
  }

  lemma {:induction false} SequentialAgrees(rt: Runtime, tasks: seq<Task>, meaning: Outputs, order: seq<Task>, outputs: Outputs)
    requires Solves(rt, tasks, meaning) && KnownDependencies(tasks) && Agrees(outputs, meaning)
    requires Topological(order) && forall t :: t in order ==> t in tasks
    ensures Agrees(SequentialRun(rt, order, outputs), meaning)
    ensures forall id :: id in outputs && id !in meaning ==>
      id in SequentialRun(rt, order, outputs) && SequentialRun(rt, order, outputs)[id] == outputs[id]
  {
    if order == [] {
    } else {
      var n := |order| - 1;
      TopologicalFront(order);
      SequentialKeys(rt, order[..n], outputs);
      SequentialAgrees(rt, tasks, meaning, order[..n], outputs);
      var before := SequentialRun(rt, order[..n], outputs);
      assert order[n] in order;
      RunGivesMeaning(rt, tasks, meaning, before, order[n]);
      assert order[n].id in meaning;
    }
  }

  /** Any topological order of the same tasks leads to the same outputs. */
  lemma ParallelEqualsSequential(rt: Runtime, s: BossState, order: seq<Task>)
    requires Fresh(s) && multiset(order) == multiset(s.plan.value) && Topological(order)
    ensures SequentialRun(rt, order, s.outputs) == RunLoop(rt, s).outputs
  {
    var tasks := s.plan.value;
    forall t
      ensures t in order <==> t in tasks
    {
      assert t in order <==> t in multiset(order);
      assert t in tasks <==> t in multiset(tasks);
    }
    assert Ids(order) == Ids(tasks);
    MeaningSolves(rt, tasks);
    SequentialKeys(rt, order, s.outputs);
    SequentialAgrees(rt, tasks, Meaning(rt, tasks), order, s.outputs);
    MergedMap(SequentialRun(rt, order, s.outputs), s.outputs, Meaning(rt, tasks));
    ParallelIsDataflow(rt, s);
  }
}
