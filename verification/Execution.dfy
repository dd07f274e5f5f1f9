/** The execute node and the loop it is run in (`agents/nodes.py`,
    `core/state.py`, `agents/boss.py`).

    A persona is an uninterpreted function of its name, the task's title and
    description and the upstream section of its prompt; the user's intent is the
    same throughout a run and is left inside that function. */
module Execution {
  import opened Plans
  import opened Wrappers

  datatype PersonaReply = Reply(content: string) | Raised(error: string)

  datatype Runtime = Runtime(
    invoke: (string, string, string, string) -> PersonaReply,
    truncateSummary: string -> string)

  datatype TaskOutput = TaskOutput(
    taskId: TaskId,
    persona: string,
    summary: string,
    fullResult: string,
    confidence: real)

  type Outputs = map<TaskId, TaskOutput>

  datatype BossState = BossState(
    plan: Option<seq<Task>>,
    outputs: Outputs,
    completed: seq<TaskId>,
    finalResult: Option<string>)

  /** What the execute node returns for the reducers to merge. */
  datatype Update = Update(outputs: Outputs, completed: seq<TaskId>)

  function Done(s: BossState): set<TaskId> {
    set id | id in s.completed
  }

  function Ready(s: BossState): seq<Task> {
    if s.plan.None? then [] else GetReadyTasks(s.plan.value, Done(s))
  }

  function UpstreamBlocks(dependencies: seq<TaskId>, outputs: Outputs): string {
    if dependencies == [] then ""
    else
      var n := |dependencies| - 1;
      UpstreamBlocks(dependencies[..n], outputs) +
      if dependencies[n] in outputs then
        var o := outputs[dependencies[n]];
        "\n--- Result from " + o.persona + " ---\n" + o.summary + "\n"
      else ""
  }

  function BuildUpstreamContext(dependencies: seq<TaskId>, outputs: Outputs): string {
    var blocks := UpstreamBlocks(dependencies, outputs);
    if blocks != "" then "Upstream task results:" + blocks else ""
  }

  /** The output of a persona call, its exceptions turned into an output too. */
  function CallPersona(rt: Runtime, t: Task, upstream: string): TaskOutput {
    match rt.invoke(t.persona, t.title, t.description, upstream)
    case Reply(content) => TaskOutput(t.id, t.persona, rt.truncateSummary(content), content, 0.8)
    case Raised(error) => TaskOutput(t.id, t.persona, "Execution failed: " + error, error, 0.0)
  }

  /** `run_single_safe`: a task that has an output already is not run again. */
  function RunSingleSafe(rt: Runtime, t: Task, existing: Outputs): TaskOutput {
    if t.id in existing then existing[t.id]
    else CallPersona(rt, t, BuildUpstreamContext(t.dependencies, existing))
  }

  /** The dict filled from the gathered results: a later result wins. */
  function Collect(rt: Runtime, ready: seq<Task>, existing: Outputs): Outputs {
    if ready == [] then map[]
    else
      var n := |ready| - 1;
      Collect(rt, ready[..n], existing)[ready[n].id := RunSingleSafe(rt, ready[n], existing)]
  }

  function IdList(tasks: seq<Task>): seq<TaskId> {
    seq(|tasks|, i requires 0 <= i < |tasks| => tasks[i].id)
  }

  /** The two reducers of the graph state: merge dicts, append lists. */
  function ApplyUpdate(s: BossState, u: Update): BossState {
    s.(outputs := s.outputs + u.outputs, completed := s.completed + u.completed)
  }

  function Execute(rt: Runtime, s: BossState): BossState {
    ApplyUpdate(s, Update(Collect(rt, Ready(s), s.outputs), IdList(Ready(s))))
  }

  /** The tasks whose persona one visit of the execute node calls. */
  function Called(ready: seq<Task>, existing: Outputs): seq<Task> {
    if ready == [] then []
    else (if ready[0].id in existing then [] else [ready[0]]) + Called(ready[1..], existing)
  }

  function Calls(s: BossState): seq<Task> {
    Called(Ready(s), s.outputs)
  }

  /** `asyncio.gather`: every ready task sees the outputs from before the round. */
  method Gather(rt: Runtime, readyTasks: seq<Task>, existing: Outputs) returns (results: seq<(TaskId, TaskOutput)>)
    ensures |results| == |readyTasks|
    ensures forall j :: 0 <= j < |results| ==>
      results[j] == (readyTasks[j].id, RunSingleSafe(rt, readyTasks[j], existing))
  {
    results := [];
    for k := 0 to |readyTasks|
      invariant |results| == k
      invariant forall j :: 0 <= j < k ==>
        results[j] == (readyTasks[j].id, RunSingleSafe(rt, readyTasks[j], existing))
    {
      results := results + [(readyTasks[k].id, RunSingleSafe(rt, readyTasks[k], existing))];
    }
  }

  /** The loop that fills `new_outputs` and `new_completed` from the results. */
  method CollectResults(
    ghost rt: Runtime, ghost readyTasks: seq<Task>, ghost existing: Outputs, results: seq<(TaskId, TaskOutput)>)
    returns (newOutputs: Outputs, newCompleted: seq<TaskId>)
    requires |results| == |readyTasks|
    requires forall j :: 0 <= j < |results| ==>
      results[j] == (readyTasks[j].id, RunSingleSafe(rt, readyTasks[j], existing))
    ensures newOutputs == Collect(rt, readyTasks, existing)
    ensures newCompleted == IdList(readyTasks)
  {
    newOutputs, newCompleted := map[], [];
    for k := 0 to |results|
      invariant newOutputs == Collect(rt, readyTasks[..k], existing)
      invariant newCompleted == IdList(readyTasks[..k])
    {
      var (taskId, output) := results[k];
      assert readyTasks[..k + 1][..k] == readyTasks[..k];
      newOutputs := newOutputs[taskId := output];
      newCompleted := newCompleted + [taskId];
    }
    assert readyTasks[..|readyTasks|] == readyTasks;
  }

  method ExecuteNode(rt: Runtime, s: BossState) returns (u: Update)
    ensures ApplyUpdate(s, u) == Execute(rt, s)
  {
    var readyTasks := Ready(s);
    if readyTasks == [] {
      return Update(map[], []);
    }
    var results := Gather(rt, readyTasks, s.outputs);
    var newOutputs, newCompleted := CollectResults(rt, readyTasks, s.outputs, results);
    u := Update(newOutputs, newCompleted);
  }

  // ---------------------------------------------------------------- one round

  lemma {:induction false} CollectKeys(rt: Runtime, ready: seq<Task>, existing: Outputs)
    ensures Collect(rt, ready, existing).Keys == Ids(ready)
  {
    if ready == [] {
    } else {
      var n := |ready| - 1;
      assert ready == ready[..n] + [ready[n]];
      CollectKeys(rt, ready[..n], existing);
    }
  }

  lemma {:induction false} CollectValue(rt: Runtime, ready: seq<Task>, existing: Outputs, id: TaskId)
    requires id in Ids(ready)
    ensures id in Collect(rt, ready, existing)
    ensures exists t :: t in ready && t.id == id && Collect(rt, ready, existing)[id] == RunSingleSafe(rt, t, existing)
  {
    var n := |ready| - 1;
    assert ready == ready[..n] + [ready[n]];
    if ready[n].id != id {
      CollectValue(rt, ready[..n], existing, id);
    }
  }

  lemma IdListIds(tasks: seq<Task>)
    ensures (set id | id in IdList(tasks)) == Ids(tasks)
  {
    var l := IdList(tasks);
    forall t | t in tasks
      ensures t.id in l
    {
      var i :| 0 <= i < |tasks| && tasks[i] == t;
      assert l[i] == t.id;
    }
  }

  /** One visit completes exactly the ready tasks and touches no other output. */
  lemma ExecuteEffect(rt: Runtime, s: BossState)
    ensures
      var e := Execute(rt, s);
      && e.plan == s.plan && e.finalResult == s.finalResult
      && Done(e) == Done(s) + Ids(Ready(s))
      && e.outputs.Keys == s.outputs.Keys + Ids(Ready(s))
      && forall id :: id in s.outputs ==> e.outputs[id] == s.outputs[id]
  {
    IdListIds(Ready(s));
    CollectKeys(rt, Ready(s), s.outputs);
    var e := Execute(rt, s);
    assert forall id :: id in e.completed <==> id in s.completed || id in IdList(Ready(s));
    forall id | id in s.outputs
      ensures e.outputs[id] == s.outputs[id]
    {
      if id in Ids(Ready(s)) {
        CollectValue(rt, Ready(s), s.outputs, id);
      }
    }
  }

  /** Re-running a round whose outputs were merged but whose ids were not yet
      appended calls no persona and lands in the very same state. */
  lemma RerunIsHarmless(rt: Runtime, s: BossState)
    ensures
      var halfway := s.(outputs := Execute(rt, s).outputs);
      Calls(halfway) == [] && Execute(rt, halfway) == Execute(rt, s)
  {
    var halfway := s.(outputs := Execute(rt, s).outputs);
    ExecuteEffect(rt, s);
    assert Ready(halfway) == Ready(s);
    NothingCalled(Ready(s), halfway.outputs);
    NothingNew(rt, halfway);
  }

  lemma NothingNew(rt: Runtime, s: BossState)
    requires Ids(Ready(s)) <= s.outputs.Keys
    ensures Execute(rt, s).outputs == s.outputs
  {
    ExecuteEffect(rt, s);
    assert Execute(rt, s).outputs.Keys == s.outputs.Keys;
  }

  lemma {:induction false} NothingCalled(ready: seq<Task>, existing: Outputs)
    requires Ids(ready) <= existing.Keys
    ensures Called(ready, existing) == []
  {
    if ready == [] {
    } else {
      assert ready[0].id in Ids(ready);
      NothingCalled(ready[1..], existing);
    }
  }

  lemma {:induction false} AllCalled(ready: seq<Task>, existing: Outputs)
    requires Ids(ready) !! existing.Keys
    ensures Called(ready, existing) == ready
  {
    if ready == [] {
    } else {
      assert ready[0].id in Ids(ready);
      AllCalled(ready[1..], existing);
    }
  }

  lemma IdleRound(rt: Runtime, s: BossState)
    requires Ready(s) == []
    ensures Execute(rt, s) == s && Calls(s) == []
  {
  }
}
