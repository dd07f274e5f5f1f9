/** What a persona is given and what becomes of its answer (`agents/nodes.py`,
    `agents/prompts.py`). */
module PersonaInput {
  import opened Dataflow
  import opened Execution
  import opened Layers
  import opened Plans
  import opened Schedule

  function Flatten(blocks: seq<string>): string {
    if blocks == [] then "" else Flatten(blocks[..|blocks| - 1]) + blocks[|blocks| - 1]
  }

  const HEADER := "Upstream task results:"

  /** The envelope of one result. */
  predicate IsBlock(block: string, o: TaskOutput) {
    block == "\n--- Result from " + o.persona + " ---\n" + o.summary + "\n"
  }

  predicate Has(at: seq<int>, j: int) {
    exists i :: 0 <= i < |at| && at[i] == j
  }

  lemma HasSnoc(at: seq<int>, n: int, j: int)
    ensures Has(at + [n], j) <==> Has(at, j) || j == n
  {
    var more := at + [n];
    assert more[|at|] == n;
    if i :| 0 <= i < |at| && at[i] == j {
      assert more[i] == j;
    }
    if i :| 0 <= i < |more| && more[i] == j {
      assert i < |at| ==> at[i] == j;
    }
  }

  /** The positions of the dependencies that have an output, in order. */
  predicate Positions(at: seq<int>, dependencies: seq<TaskId>, outputs: Outputs) {
    && (forall i, j :: 0 <= i < j < |at| ==> at[i] < at[j])
    && (forall i :: 0 <= i < |at| ==> 0 <= at[i] < |dependencies| && dependencies[at[i]] in outputs)
    && (forall j :: 0 <= j < |dependencies| && dependencies[j] in outputs ==> Has(at, j))
  }

  /** One block per such position, in order. */
  predicate Blocks(blocks: seq<string>, at: seq<int>, dependencies: seq<TaskId>, outputs: Outputs)
    requires Positions(at, dependencies, outputs)
  {
    |blocks| == |at| && forall i :: 0 <= i < |at| ==> IsBlock(blocks[i], outputs[dependencies[at[i]]])
  }

  lemma OnePosition(at: seq<int>, dependencies: seq<TaskId>, outputs: Outputs, n: nat)
    requires |dependencies| == n + 1 && Positions(at, dependencies[..n], outputs)
    ensures Positions(if dependencies[n] in outputs then at + [n] else at, dependencies, outputs)
  {
    var next := if dependencies[n] in outputs then at + [n] else at;
    forall j | 0 <= j < |dependencies| && dependencies[j] in outputs
      ensures Has(next, j)
    {
      HasSnoc(at, n, j);
      assert j < n ==> dependencies[..n][j] in outputs;
    }
    forall i | 0 <= i < |at|
      ensures 0 <= at[i] < n && dependencies[at[i]] in outputs
    {
      assert dependencies[..n][at[i]] == dependencies[at[i]];
    }
  }

  lemma FlattenSnoc(blocks: seq<string>, block: string)
    ensures Flatten(blocks + [block]) == Flatten(blocks) + block
  {
    assert (blocks + [block])[..|blocks|] == blocks;
  }

  lemma OneBlock(blocks: seq<string>, block: string, at: seq<int>, dependencies: seq<TaskId>, outputs: Outputs, n: nat)
    requires |dependencies| == n + 1 && dependencies[n] in outputs && IsBlock(block, outputs[dependencies[n]])
    requires Positions(at, dependencies[..n], outputs) && Blocks(blocks, at, dependencies[..n], outputs)
    ensures Positions(at + [n], dependencies, outputs) && Blocks(blocks + [block], at + [n], dependencies, outputs)
  {
    OnePosition(at, dependencies, outputs, n);
  }

  lemma BlockText(dependencies: seq<TaskId>, outputs: Outputs, n: nat) returns (block: string)
    requires |dependencies| == n + 1
    ensures UpstreamBlocks(dependencies, outputs) == UpstreamBlocks(dependencies[..n], outputs) + block
    ensures dependencies[n] in outputs ==> IsBlock(block, outputs[dependencies[n]])
    ensures dependencies[n] !in outputs ==> block == ""
  {
    var d := dependencies[n];
    block := if d in outputs then "\n--- Result from " + outputs[d].persona + " ---\n" + outputs[d].summary + "\n" else "";
  }

  lemma {:induction false} BlocksAreShown(dependencies: seq<TaskId>, outputs: Outputs)
    returns (at: seq<int>, blocks: seq<string>)
    ensures Positions(at, dependencies, outputs) && Blocks(blocks, at, dependencies, outputs)
    ensures UpstreamBlocks(dependencies, outputs) == Flatten(blocks)
    decreases |dependencies|
  {
    if dependencies == [] {
      at, blocks := [], [];
    } else {
      var n := |dependencies| - 1;
      at, blocks := BlocksAreShown(dependencies[..n], outputs);
      var block := BlockText(dependencies, outputs, n);
      if dependencies[n] in outputs {
        OneBlock(blocks, block, at, dependencies, outputs, n);
        FlattenSnoc(blocks, block);
        at, blocks := at + [n], blocks + [block];
      } else {
        OnePosition(at, dependencies, outputs, n);
        assert Flatten(blocks) + "" == Flatten(blocks);
      }
    }
  }

  lemma SomethingIsShown(blocks: seq<string>, o: TaskOutput)
    requires blocks != [] && IsBlock(blocks[|blocks| - 1], o)
    ensures Flatten(blocks) != ""
  {
  }

  /** The section is the header followed by a block for every dependency that has
      an output, in the order of the dependencies, and by nothing else; with none
      it is empty. */
  lemma ContextShows(dependencies: seq<TaskId>, outputs: Outputs) returns (at: seq<int>, blocks: seq<string>)
    ensures Positions(at, dependencies, outputs) && Blocks(blocks, at, dependencies, outputs)
    ensures BuildUpstreamContext(dependencies, outputs) == if at == [] then "" else HEADER + Flatten(blocks)
  {
    at, blocks := BlocksAreShown(dependencies, outputs);
    if at != [] {
      SomethingIsShown(blocks, outputs[dependencies[at[|at| - 1]]]);
    }
  }

  lemma EmptyContextIff(dependencies: seq<TaskId>, outputs: Outputs)
    ensures BuildUpstreamContext(dependencies, outputs) == "" <==> forall d :: d in dependencies ==> d !in outputs
  {
    var at, blocks := ContextShows(dependencies, outputs);
    if at == [] {
      forall d | d in dependencies
        ensures d !in outputs
      {
        var j :| 0 <= j < |dependencies| && dependencies[j] == d;
        assert dependencies[j] in outputs ==> Has(at, j);
      }
    } else {
      assert dependencies[at[0]] in dependencies;
      assert (HEADER + Flatten(blocks))[0] == 'U';
    }
  }

  /** `_build_upstream_context`: the loop over the dependencies. */
  method UpstreamSection(dependencies: seq<TaskId>, outputs: Outputs) returns (section: string)
    ensures section == BuildUpstreamContext(dependencies, outputs)
  {
    var upstream := "";
    for k := 0 to |dependencies|
      invariant upstream == UpstreamBlocks(dependencies[..k], outputs)
    {
      assert dependencies[..k + 1][..k] == dependencies[..k];
      var id := dependencies[k];
      if id in outputs {
        var o := outputs[id];
        upstream := upstream + ("\n--- Result from " + o.persona + " ---\n" + o.summary + "\n");
      } else {
        assert upstream + "" == upstream;
      }
    }
    assert dependencies[..|dependencies|] == dependencies;
    section := if upstream != "" then "Upstream task results:" + upstream else "";
  }

  /** With all outputs present there is one block per dependency. */
  lemma EveryDependencyShows(dependencies: seq<TaskId>, outputs: Outputs) returns (blocks: seq<string>)
    requires forall d :: d in dependencies ==> d in outputs
    ensures |blocks| == |dependencies|
    ensures forall i :: 0 <= i < |blocks| ==> IsBlock(blocks[i], outputs[dependencies[i]])
    ensures
      BuildUpstreamContext(dependencies, outputs) == if dependencies == [] then "" else HEADER + Flatten(blocks)
  {
    var at, shown := ContextShows(dependencies, outputs);
    AllPositions(at, |dependencies|);
    blocks := shown;
  }

  lemma {:induction false} AscendingGrows(at: seq<int>, k: nat)
    requires (forall i, j :: 0 <= i < j < |at| ==> at[i] < at[j]) && k < |at| && at[0] >= 0
    ensures k <= at[k]
  {
    if k == 0 {
    } else {
      AscendingGrows(at, k - 1);
    }
  }

  lemma LengthBound(at: seq<int>, n: nat)
    requires forall i, j :: 0 <= i < j < |at| ==> at[i] < at[j]
    requires forall i :: 0 <= i < |at| ==> 0 <= at[i] < n
    ensures |at| <= n
  {
    if at != [] {
      AscendingGrows(at, |at| - 1);
    }
  }

  /** Ascending positions that leave none out are 0, 1, 2, ... */
  lemma {:induction false} AllPositions(at: seq<int>, n: nat)
    requires forall i, j :: 0 <= i < j < |at| ==> at[i] < at[j]
    requires (forall i :: 0 <= i < |at| ==> 0 <= at[i] < n) && forall j :: 0 <= j < n ==> Has(at, j)
    ensures |at| == n && forall i :: 0 <= i < n ==> at[i] == i
  {
    LengthBound(at, n);
    if n == 0 {
    } else {
      var last, k := n - 1, |at| - 1;
      assert Has(at, last);
      assert forall i :: 0 <= i < |at| ==> at[i] <= at[k];
      assert at[k] == last && at == at[..k] + [last];
      forall j | 0 <= j < last
        ensures Has(at[..k], j)
      {
        assert Has(at, j);
        HasSnoc(at[..k], last, j);
      }
      AllPositions(at[..k], last);
    }
  }

  // ------------------------------------------------------------ over the loop

  /** What a persona's reply becomes: below 0.6 the review asks about it. */
  predicate Answers(rt: Runtime, o: TaskOutput, t: Task, reply: PersonaReply) {
    && o.taskId == t.id && o.persona == t.persona
    && match reply
       case Reply(content) => o.fullResult == content && o.summary == rt.truncateSummary(content) && o.confidence == 0.8
       case Raised(error) => o.fullResult == error && o.summary == "Execution failed: " + error && o.confidence == 0.0
  }

  lemma {:induction false} AfterSnoc(rt: Runtime, e: BossState, k: nat)
    ensures After(rt, e, k + 1) == Execute(rt, After(rt, e, k))
    decreases k
  {
    if k == 0 {
    } else {
      AfterSnoc(rt, Execute(rt, e), k - 1);
    }
  }

  lemma {:induction false} AfterLeadsOn(rt: Runtime, s: BossState, k: nat)
    ensures RunLoop(rt, After(rt, s, k)) == RunLoop(rt, s) && After(rt, s, k).plan == s.plan
    decreases k
  {
    if k == 0 {
    } else {
      ExecuteEffect(rt, s);
      if Ready(s) == [] {
        IdleRound(rt, s);
      }
      AfterLeadsOn(rt, Execute(rt, s), k - 1);
    }
  }

  /** At any point of the loop the outputs of the plan are their meanings. */
  lemma AfterAgrees(rt: Runtime, s: BossState, k: nat)
    requires Fresh(s)
    ensures Agrees(After(rt, s, k).outputs, Meaning(rt, s.plan.value))
  {
    AfterLeadsOn(rt, s, k);
    LoopKeepsOthers(rt, After(rt, s, k));
    ParallelIsDataflow(rt, s);
  }

  lemma CalledTask(rt: Runtime, s: BossState, t: Task, k: nat)
    requires Fresh(s) && t in Calls(After(rt, s, k))
    ensures t in s.plan.value && t in Ready(After(rt, s, k))
    ensures forall d :: d in t.dependencies ==> d in After(rt, s, k).outputs && d in Ids(s.plan.value)
  {
    AfterLeadsOn(rt, s, k);
    CalledIsReady(Ready(After(rt, s, k)), After(rt, s, k).outputs, t);
    RunsOnceAtItsDepth(rt, s, t, k);
  }

  lemma RoundAnswers(rt: Runtime, s: BossState, t: Task, k: nat)
    requires Fresh(s) && t in Calls(After(rt, s, k))
    ensures t.id in Execute(rt, After(rt, s, k)).outputs
    ensures
      Answers(rt, Execute(rt, After(rt, s, k)).outputs[t.id], t,
        rt.invoke(t.persona, t.title, t.description, BuildUpstreamContext(t.dependencies, Meaning(rt, s.plan.value))))
  {
    CalledTask(rt, s, t, k);
    ExecuteEffect(rt, After(rt, s, k));
    AfterAgrees(rt, s, k + 1);
    AfterSnoc(rt, s, k);
    MeaningAnswers(rt, s.plan.value, t);
  }

  /** A task's meaning is its persona's answer to the meanings it depends on. */
  lemma MeaningAnswers(rt: Runtime, tasks: seq<Task>, t: Task)
    requires Dag(tasks) && t in tasks
    ensures
      t.id in Meaning(rt, tasks) &&
      Answers(rt, Meaning(rt, tasks)[t.id], t,
        rt.invoke(t.persona, t.title, t.description, BuildUpstreamContext(t.dependencies, Meaning(rt, tasks))))
  {
    MeaningSolves(rt, tasks);
  }

  lemma ReceivedSection(rt: Runtime, s: BossState, t: Task, k: nat)
    requires Fresh(s) && t in Calls(After(rt, s, k))
    ensures
      BuildUpstreamContext(t.dependencies, After(rt, s, k).outputs) ==
      BuildUpstreamContext(t.dependencies, Meaning(rt, s.plan.value))
  {
    CalledTask(rt, s, t, k);
    AfterAgrees(rt, s, k);
    ContextIgnoresOthers(t.dependencies, After(rt, s, k).outputs, Meaning(rt, s.plan.value));
  }

  /** In whatever round a persona is called, its section shows, for every
      dependency in order, the persona and the summary of that dependency's
      meaning; and the round's output for the task is its answer to that. */
  lemma PersonaSeesMeanings(rt: Runtime, s: BossState, t: Task, k: nat) returns (blocks: seq<string>)
    requires Fresh(s) && t in Calls(After(rt, s, k))
    ensures
      var meaning := Meaning(rt, s.plan.value);
      && |blocks| == |t.dependencies|
      && forall i :: 0 <= i < |blocks| ==>
        t.dependencies[i] in meaning && IsBlock(blocks[i], meaning[t.dependencies[i]])
    ensures
      var section := if t.dependencies == [] then "" else HEADER + Flatten(blocks);
      var before, after := After(rt, s, k), Execute(rt, After(rt, s, k));
      && BuildUpstreamContext(t.dependencies, before.outputs) == section
      && t.id in after.outputs
      && Answers(rt, after.outputs[t.id], t, rt.invoke(t.persona, t.title, t.description, section))
  {
    CalledTask(rt, s, t, k);
    ReceivedSection(rt, s, t, k);
    RoundAnswers(rt, s, t, k);
    blocks := EveryDependencyShows(t.dependencies, Meaning(rt, s.plan.value));
  }
}
