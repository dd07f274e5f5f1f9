/** Whole turns of a thread, from the planning node to the end of the run. */
module TurnRuns {
  import opened BossGraph
  import opened Dataflow
  import opened Execution
  import opened Graphs
  import opened Isomorphism
  import opened Layers
  import opened PersonaInput
  import opened PlanValidation
  import opened Plans
  import opened Prefixing
  import opened Schedule
  import opened Wrappers

  /** The plan a turn is about, before its ids get the prefix `q`: the parsed one,
      or after a parse failure the fallback of a single task. */
  predicate IsPlannedBy(cfg: Settings, i: Input, q: string, tasks: seq<Task>) {
    match i.planning
    case Parsed(planId, parsed) => q == PlanUuid(planId) && tasks == parsed
    case ParseFailed(action, uuid) =>
      action != "cancel" && q == uuid && tasks == [Task("t1", "Direct answer", cfg.intent, "researcher", [])]
    case ModelRaised => false
  }

  /** The fallback plan is a prefixed plan like any other. */
  lemma FallbackIsPrefixed(uuid: string, intent: string)
    ensures FallbackPlan(uuid, intent) == Prefixed(uuid, [Task("t1", "Direct answer", intent, "researcher", [])])
  {
    var t := Task("t1", "Direct answer", intent, "researcher", []);
    assert RenameAll(uuid, Ids([t]), []) == [];
  }

  lemma PlanIsHandedOn(cfg: Settings, c: Config, i: Input, q: string, tasks: seq<Task>)
    requires c.node == PlanNode && IsPlannedBy(cfg, i, q, tasks)
    ensures Step(cfg, c, i) == c.(node := ValidateNode, state := c.state.(plan := Some(Prefixed(q, tasks))))
  {
    if i.planning.ParseFailed? {
      FallbackIsPrefixed(q, cfg.intent);
    }
  }

  /** A plan that is not cancelled, valid or approved anyway, gets through as it
      is, unless it is a small one with a cycle: then the node raises. */
  lemma ValidationLetsThrough(cfg: Settings, c: Config, i: Input)
    requires c.node == ValidateNode && c.state.plan.Some? && !Cancels(cfg, c, i)
    ensures
      Step(cfg, c, i) == c.(node := ExecuteStage) <==>
      |c.state.plan.value| > 5 || Acyclic(DependencyGraph(c.state.plan.value))
    ensures Step(cfg, c, i).node == Crashed || Step(cfg, c, i) == c.(node := ExecuteStage)
  {
  }

  lemma PrefixedIsId(uuid: string, tasks: seq<Task>, x: TaskId)
    requires x in Ids(tasks)
    ensures Prefix(uuid, x) in Ids(Prefixed(uuid, tasks))
  {
    RenamedIsKnownIff(uuid, tasks, x);
  }

  /** Prefixing does not change whether a plan needs a preview. */
  lemma PreviewPreserved(uuid: string, tasks: seq<Task>)
    requires NoAlias(uuid, tasks)
    ensures NeedsPreview(Prefixed(uuid, tasks)) <==> NeedsPreview(tasks)
  {
    var r := Prefixed(uuid, tasks);
    var g, h, nodes := DependencyGraph(tasks), DependencyGraph(r), Occurring(tasks);
    var f := (n: TaskId) => Rename(uuid, Ids(tasks), n);
    PrefixingIsIsomorphism(uuid, tasks);
    if w :| Walk(g, w) && w[0] in Ids(tasks) && |w| >= 5 {
      WalkCommutes(g, h, nodes, f, w);
      PrefixedIsId(uuid, tasks, w[0]);
      assert Walk(h, Image(f, w)) && Image(f, w)[0] in Ids(r) && |Image(f, w)| >= 5;
    }
    if v :| Walk(h, v) && v[0] in Ids(r) && |v| >= 5 {
      var x := PrefixedIdHasPrefix(uuid, tasks, v[0]);
      IsomorphicLifts(g, h, nodes, f);
      assert f(x) == v[0] && x in nodes;
      var w := WalkLifts(g, h, nodes, f, x, v);
      assert |w| == |v|;
    }
  }

  lemma RunSkip(cfg: Settings, c: Config, inputs: seq<Input>, next: Config)
    requires inputs != [] && next == Step(cfg, c, inputs[0])
    ensures Run(cfg, c, inputs) == Run(cfg, next, inputs[1..])
  {
  }

  /** A first node common to two runs. */
  lemma FirstNode(cfg: Settings, c: Config, inputs: seq<Input>, longer: seq<Input>) returns (next: Config)
    requires inputs != [] && longer != [] && inputs[0] == longer[0]
    ensures Run(cfg, c, inputs) == Run(cfg, next, inputs[1..])
    ensures Run(cfg, c, longer) == Run(cfg, next, longer[1..])
  {
    next := Step(cfg, c, inputs[0]);
  }

  lemma {:induction false} RunSplits(cfg: Settings, c: Config, first: seq<Input>, more: seq<Input>, m: Config)
    requires m == Run(cfg, c, first)
    ensures Run(cfg, c, first + more) == Run(cfg, m, more)
    decreases |first|
  {
    if first == [] {
      assert first + more == more;
    } else {
      var next := FirstNode(cfg, c, first, first + more);
      assert (first + more)[1..] == first[1..] + more;
      RunSplits(cfg, next, first[1..], more, m);
    }
  }

  lemma RunOne(cfg: Settings, c: Config, i: Input)
    ensures Run(cfg, c, [i]) == Step(cfg, c, i)
  {
    assert [i][1..] == [];
  }

  /** The two nodes before execution. */
  lemma ExecutionIsReached(cfg: Settings, c: Config, q: string, tasks: seq<Task>, first: Input, second: Input)
    returns (planned: Config)
    requires c.node == PlanNode && IsPlannedBy(cfg, first, q, tasks) && Dag(tasks)
    requires second.decision != "cancel" && (NeedsPreview(tasks) ==> second.preview == "approve")
    ensures planned == Step(cfg, c, first)
    ensures
      Step(cfg, planned, second) ==
      c.(node := ExecuteStage, state := c.state.(plan := Some(Prefixed(q, tasks))))
  {
    KnownMeansNoAlias(q, tasks);
    PreviewPreserved(q, tasks);
    PrefixedAcyclic(q, tasks);
    PlanIsHandedOn(cfg, c, first, q, tasks);
    planned := c.(node := ValidateNode, state := c.state.(plan := Some(Prefixed(q, tasks))));
    ValidationLetsThrough(cfg, planned, second);
  }

  ghost function StartOfTurn(cfg: Settings, turns: seq<seq<Input>>): Config {
    Config(PlanNode, NewTurn(Turns(cfg, NO_STATE, turns)), [])
  }

  /** Before aggregation, with the meaning of the plan in the outputs and every
      one of its personas called once. */
  ghost predicate CarriedOut(cfg: Settings, start: Config, plan: seq<Task>, e: Config)
    requires Dag(plan)
  {
    && e.node == AggregateNode && e.state.finalResult == None
    && e.state.outputs == start.state.outputs + Meaning(cfg.rt, plan)
    && exists order: seq<Task> ::
      multiset(order) == multiset(plan) && e.effects == start.effects + PersonaCalls(order)
  }

  lemma ExecutionIsCarriedOut(cfg: Settings, c: Config, inputs: seq<Input>) returns (k: nat, e: Config)
    requires c.node == ExecuteStage && c.state.finalResult.None? && Fresh(c.state)
    requires forall i :: i in inputs ==> i.decision != "cancel"
    requires |inputs| >= 2 * |c.state.plan.value| + 3
    ensures k <= |inputs| && e == Run(cfg, c, inputs[..k]) && CarriedOut(cfg, c, c.state.plan.value, e)
  {
    k := FreshPlanIsCarriedOut(cfg, c, inputs);
    e := Run(cfg, c, inputs[..k]);
    AggregationWithoutResult(cfg, c, inputs[..k], e);
  }

  lemma Shorter(cfg: Settings, c: Config, inputs: seq<Input>, n: nat, k: nat, e: Config)
    requires k <= n <= |inputs| && e == Run(cfg, c, inputs[..n][..k])
    ensures e == Run(cfg, c, inputs[..k])
  {
    assert inputs[..n][..k] == inputs[..k];
  }

  lemma StillUncancelled(inputs: seq<Input>, n: nat)
    requires n <= |inputs| && forall i :: i in inputs ==> i.decision != "cancel"
    ensures forall i :: i in inputs[..n] ==> i.decision != "cancel"
    ensures forall i :: i in inputs[n..] ==> i.decision != "cancel"
  {
  }

  lemma EnoughInputs(cfg: Settings, c: Config, inputs: seq<Input>, n: nat) returns (k: nat, e: Config)
    requires c.node == ExecuteStage && c.state.finalResult.None? && Fresh(c.state)
    requires forall i :: i in inputs ==> i.decision != "cancel"
    requires |inputs| >= n >= 2 * |c.state.plan.value| + 3
    ensures k <= n && e == Run(cfg, c, inputs[..k]) && CarriedOut(cfg, c, c.state.plan.value, e)
  {
    StillUncancelled(inputs, n);
    k, e := ExecutionIsCarriedOut(cfg, c, inputs[..n]);
    Shorter(cfg, c, inputs, n, k, e);
  }

  lemma CarriedOutAlike(cfg: Settings, start: Config, c: Config, plan: seq<Task>, e: Config)
    requires Dag(plan) && CarriedOut(cfg, c, plan, e)
    requires c.state.outputs == start.state.outputs && c.effects == start.effects
    ensures CarriedOut(cfg, start, plan, e)
  {
  }

  lemma JoinRuns(cfg: Settings, start: Config, a: Config, c: Config, inputs: seq<Input>, rest: nat, e: Config)
    requires |inputs| >= rest + 2 && a == Step(cfg, start, inputs[0]) && c == Step(cfg, a, inputs[1])
    requires e == Run(cfg, c, inputs[2..][..rest])
    ensures e == Run(cfg, start, inputs[..rest + 2])
  {
    var all := inputs[..rest + 2];
    RunSkip(cfg, start, all, a);
    RunSkip(cfg, a, all[1..], c);
    assert all[1..][1..] == inputs[2..][..rest];
  }

  lemma CarriedOutFrom(cfg: Settings, c: Config, inputs: seq<Input>) returns (rest: nat, e: Config)
    requires c.node == ExecuteStage && c.state.finalResult.None? && Fresh(c.state)
    requires forall i :: i in inputs ==> i.decision != "cancel"
    requires |inputs| >= 2 * |c.state.plan.value| + 5
    ensures rest <= 2 * |c.state.plan.value| + 3
    ensures e == Run(cfg, c, inputs[2..][..rest]) && CarriedOut(cfg, c, c.state.plan.value, e)
  {
    StillUncancelled(inputs, 2);
    rest, e := EnoughInputs(cfg, c, inputs[2..], 2 * |c.state.plan.value| + 3);
  }

  /** After any earlier turns: when planning yields a plan without repeated ids,
      unknown dependencies or cycles, whose prefix is apart from the earlier ones,
      a preview it needs is approved, and nobody cancels, the run comes to
      aggregation with the meaning of the prefixed plan added to the outputs,
      after one persona call for every prefixed task. */
  lemma TurnIsCarriedOut(cfg: Settings, turns: seq<seq<Input>>, q: string, tasks: seq<Task>, inputs: seq<Input>)
    returns (k: nat, e: Config)
    requires |inputs| >= 2 * |tasks| + 5 && IsPlannedBy(cfg, inputs[0], q, tasks)
    requires Dag(tasks) && forall p :: p in Prefixes(turns) ==> Apart(p, q)
    requires NeedsPreview(tasks) ==> inputs[1].preview == "approve"
    requires forall i :: i in inputs ==> i.decision != "cancel"
    ensures k <= 2 * |tasks| + 5 && Dag(Prefixed(q, tasks))
    ensures e == Run(cfg, StartOfTurn(cfg, turns), inputs[..k])
    ensures CarriedOut(cfg, StartOfTurn(cfg, turns), Prefixed(q, tasks), e)
  {
    var start := StartOfTurn(cfg, turns);
    var c := start.(node := ExecuteStage, state := start.state.(plan := Some(Prefixed(q, tasks))));
    NewPlanIsFresh(cfg, turns, q, tasks);
    var planned := ExecutionIsReached(cfg, start, q, tasks, inputs[0], inputs[1]);
    k, e := CarriedOutFrom(cfg, c, inputs);
    JoinRuns(cfg, start, planned, c, inputs, k, e);
    k := k + 2;
    CarriedOutAlike(cfg, start, c, Prefixed(q, tasks), e);
  }

  lemma {:induction false} LoopKeepsResult(rt: Runtime, s: BossState)
    ensures RunLoop(rt, s).finalResult == s.finalResult
    decreases Pending(s)
  {
    if Ready(s) == [] {
    } else {
      ExecuteEffect(rt, s);
      PendingShrinks(rt, s);
      LoopKeepsResult(rt, Execute(rt, s));
    }
  }

  lemma AggregationWithoutResult(cfg: Settings, c: Config, inputs: seq<Input>, e: Config)
    requires c.node == ExecuteStage && c.state.finalResult.None? && c.state.plan.Some?
    requires forall i :: i in inputs ==> i.decision != "cancel"
    requires e == Run(cfg, c, inputs) && e.node == AggregateNode
    ensures e.state.finalResult == None
  {
    UncancelledRun(cfg, c.state, c.effects, c, inputs);
    LoopKeepsResult(cfg.rt, c.state);
  }

  // ------------------------------------------------------------------- the end

  /** How a run without a result so far ends at aggregation: with the full result
      of the only output there is, or else with the text that the model writes,
      which is called for nothing else; either way the text is stored as "final". */
  ghost predicate EndsWell(c: Config, i: Input, e: Config) {
    var others := c.state.outputs - {FINAL};
    var single := exists id :: others.Keys == {id};
    && (forall id :: others.Keys == {id} ==>
        e.node == End && e.state.finalResult == Some(others[id].fullResult) && e.effects == c.effects)
    && (!single && i.aggregate.Some? ==>
        e.node == End && e.state.finalResult == i.aggregate && e.effects == c.effects + [AggregationCalled])
    && (!single && i.aggregate.None? ==> e.node == Crashed && e.state == c.state)
    && (e.node == End ==>
        && FINAL in e.state.outputs && e.state.finalResult.Some?
        && e.state.outputs[FINAL] ==
          TaskOutput("final", "boss", "Final report generated", e.state.finalResult.value, 1.0)
        && e.state.outputs - {FINAL} == others)
  }

  lemma OneKey<K, V>(m: map<K, V>)
    ensures |m| == 1 <==> exists k :: m.Keys == {k}
    ensures |m| == 1 ==> forall k :: k in m ==> m.Keys == {k}
  {
    assert |m| == |m.Keys|;
    if |m| == 1 {
      var k :| k in m.Keys;
      assert |m.Keys - {k}| == 0;
      assert m.Keys == {k};
    }
  }

  lemma WithFinalKeepsOthers(s: BossState, result: string)
    ensures
      var e := WithFinal(s, result);
      && FINAL in e.outputs && e.finalResult == Some(result) && e.outputs - {FINAL} == s.outputs - {FINAL}
      && e.outputs[FINAL] == TaskOutput("final", "boss", "Final report generated", result, 1.0)
  {
  }

  lemma AggregationEndsWell(cfg: Settings, c: Config, i: Input)
    requires c.node == AggregateNode && c.state.finalResult == None
    ensures EndsWell(c, i, Step(cfg, c, i))
  {
    var others := c.state.outputs - {FINAL};
    OneKey(others);
    if |others| == 1 {
      var id :| id in others;
      WithFinalKeepsOthers(c.state, others[id].fullResult);
    } else if i.aggregate.Some? {
      WithFinalKeepsOthers(c.state, i.aggregate.value);
    }
  }

  lemma LastNode(cfg: Settings, start: Config, inputs: seq<Input>, k: nat, e: Config)
    requires k < |inputs| && e == Run(cfg, start, inputs[..k])
    ensures Run(cfg, start, inputs[..k + 1]) == Step(cfg, e, inputs[k])
  {
    assert inputs[..k + 1] == inputs[..k] + [inputs[k]];
    RunSplits(cfg, start, inputs[..k], [inputs[k]], e);
    RunOne(cfg, e, inputs[k]);
  }

  lemma EndOfRun(cfg: Settings, start: Config, inputs: seq<Input>, k: nat, e: Config) returns (end: Config)
    requires k < |inputs| && e == Run(cfg, start, inputs[..k])
    requires e.node == AggregateNode && e.state.finalResult == None
    ensures end == Run(cfg, start, inputs[..k + 1]) && EndsWell(e, inputs[k], end)
  {
    LastNode(cfg, start, inputs, k, e);
    AggregationEndsWell(cfg, e, inputs[k]);
    end := Step(cfg, e, inputs[k]);
  }

  /** The whole turn, one node further. */
  lemma TurnEndsWell(cfg: Settings, turns: seq<seq<Input>>, q: string, tasks: seq<Task>, inputs: seq<Input>)
    returns (k: nat, e: Config, end: Config)
    requires |inputs| >= 2 * |tasks| + 6 && IsPlannedBy(cfg, inputs[0], q, tasks)
    requires Dag(tasks) && forall p :: p in Prefixes(turns) ==> Apart(p, q)
    requires NeedsPreview(tasks) ==> inputs[1].preview == "approve"
    requires forall i :: i in inputs ==> i.decision != "cancel"
    ensures k <= 2 * |tasks| + 5 && Dag(Prefixed(q, tasks))
    ensures e == Run(cfg, StartOfTurn(cfg, turns), inputs[..k])
    ensures end == Run(cfg, StartOfTurn(cfg, turns), inputs[..k + 1])
    ensures CarriedOut(cfg, StartOfTurn(cfg, turns), Prefixed(q, tasks), e) && EndsWell(e, inputs[k], end)
  {
    k, e := TurnIsCarriedOut(cfg, turns, q, tasks, inputs);
    end := EndOfRun(cfg, StartOfTurn(cfg, turns), inputs, k, e);
  }

  /** The message a cancelled run ends with: a cancel in planning leaves validation
      without a plan, which puts its own message in place of the cancel's, unless
      review asks about earlier failures and is answered "cancel" too. */
  lemma CancelMessage(cfg: Settings, c: Config, i: Input, rest: seq<Input>)
    requires Cancels(cfg, c, i) && |rest| >= 4
    ensures
      Run(cfg, Step(cfg, c, i), rest).state.finalResult ==
      Some(
        if c.node == PlanNode && !(AnyFailed(c.state.outputs) && rest[2].decision == "cancel")
        then "计划生成失败" else "任务已取消")
  {
    var next := Step(cfg, c, i);
    CancelHalts(cfg, c, i);
    if c.node == PlanNode {
      var reviewed := ThreeNodes(cfg, next, rest);
      SettledStays(cfg, reviewed, rest[3..]);
    } else {
      CancelledStays(cfg, next, rest);
    }
  }

  /** From validation without a plan to aggregation. */
  lemma ThreeNodes(cfg: Settings, c: Config, inputs: seq<Input>) returns (e: Config)
    requires c.node == ValidateNode && c.state.plan.None? && |inputs| >= 3
    ensures Run(cfg, c, inputs) == Run(cfg, e, inputs[3..])
    ensures e.node == AggregateNode
    ensures
      e.state.finalResult ==
      Some(if AnyFailed(c.state.outputs) && inputs[2].decision == "cancel" then CANCELLED else PLAN_FAILED)
  {
    var a := Step(cfg, c, inputs[0]);
    assert Ready(a.state) == [];
    IdleRound(cfg.rt, a.state);
    var b := Step(cfg, a, inputs[1]);
    e := Step(cfg, b, inputs[2]);
    ThreeSteps(cfg, c, inputs, a, b, e);
  }

  lemma ThreeSteps(cfg: Settings, c: Config, inputs: seq<Input>, a: Config, b: Config, e: Config)
    requires |inputs| >= 3
    requires a == Step(cfg, c, inputs[0]) && b == Step(cfg, a, inputs[1]) && e == Step(cfg, b, inputs[2])
    ensures Run(cfg, c, inputs) == Run(cfg, e, inputs[3..])
  {
    RunSkip(cfg, c, inputs, a);
    RunSkip(cfg, a, inputs[1..], b);
    RunSkip(cfg, b, inputs[2..], e);
    assert inputs[1..][1..] == inputs[2..] && inputs[2..][1..] == inputs[3..];
  }

  lemma {:induction false} SettledStays(cfg: Settings, c: Config, inputs: seq<Input>)
    requires c.node in {AggregateNode, End} && c.state.finalResult.Some?
    ensures Run(cfg, c, inputs).state.finalResult == c.state.finalResult
    decreases |inputs|
  {
    if inputs == [] {
    } else {
      SettledStays(cfg, Step(cfg, c, inputs[0]), inputs[1..]);
    }
  }

  lemma {:induction false} CancelledStays(cfg: Settings, c: Config, inputs: seq<Input>)
    requires Halting(c) && c.node != ValidateNode && c.state.finalResult == Some(CANCELLED)
    ensures Run(cfg, c, inputs).state.finalResult == Some(CANCELLED)
    decreases |inputs|
  {
    if inputs == [] {
    } else {
      HaltingStep(cfg, c, inputs[0]);
      CancelledStep(cfg, c, inputs[0]);
      CancelledStays(cfg, Step(cfg, c, inputs[0]), inputs[1..]);
    }
  }

  lemma CancelledStep(cfg: Settings, c: Config, i: Input)
    requires Halting(c) && c.node != ValidateNode && c.state.finalResult == Some(CANCELLED)
    ensures Step(cfg, c, i).state.finalResult == Some(CANCELLED) && Step(cfg, c, i).node != ValidateNode
  {
    if c.node == ExecuteStage {
      ExecuteEffect(cfg.rt, c.state);
    }
  }

  // ---------------------------------------------------------- what review asks

  ghost predicate Raises(rt: Runtime, t: Task, meaning: Outputs) {
    rt.invoke(t.persona, t.title, t.description, BuildUpstreamContext(t.dependencies, meaning)).Raised?
  }

  /** When the loop is done, review asks the user exactly if an earlier output of
      the thread or a persona of this plan has failed. */
  lemma ReviewAsksIffFailed(rt: Runtime, s: BossState)
    requires Fresh(s)
    ensures
      AnyFailed(RunLoop(rt, s).outputs) <==>
      AnyFailed(s.outputs) || exists t :: t in s.plan.value && Raises(rt, t, Meaning(rt, s.plan.value))
  {
    var tasks, meaning := s.plan.value, Meaning(rt, s.plan.value);
    ParallelIsDataflow(rt, s);
    FailedInUnion(s.outputs, meaning);
    forall t | t in tasks
      ensures t.id in meaning && (meaning[t.id].confidence < 0.6 <==> Raises(rt, t, meaning))
    {
      MeaningAnswers(rt, tasks, t);
    }
    if AnyFailed(meaning) {
      var id :| id in meaning && meaning[id].confidence < 0.6;
      var t :| t in tasks && t.id == id;
    }
  }

  lemma FailedInUnion(a: Outputs, b: Outputs)
    requires a.Keys !! b.Keys
    ensures AnyFailed(a + b) <==> AnyFailed(a) || AnyFailed(b)
  {
    if id :| id in a && a[id].confidence < 0.6 {
      assert id in a + b && (a + b)[id] == a[id];
    }
    if id :| id in b && b[id].confidence < 0.6 {
      assert id in a + b && (a + b)[id] == b[id];
    }
  }

  // ------------------------------------------------------- what earlier turns left

  lemma StepKeepsOutput(cfg: Settings, c: Config, i: Input, id: TaskId)
    requires id in c.state.outputs && id != FINAL
    ensures id in Step(cfg, c, i).state.outputs && Step(cfg, c, i).state.outputs[id] == c.state.outputs[id]
  {
    if c.node == ExecuteStage {
      ExecuteEffect(cfg.rt, c.state);
    }
  }

  lemma {:induction false} RunKeepsOutput(cfg: Settings, c: Config, inputs: seq<Input>, id: TaskId)
    requires id in c.state.outputs && id != FINAL
    ensures id in Run(cfg, c, inputs).state.outputs && Run(cfg, c, inputs).state.outputs[id] == c.state.outputs[id]
    decreases |inputs|
  {
    if inputs == [] {
    } else {
      StepKeepsOutput(cfg, c, inputs[0], id);
      RunKeepsOutput(cfg, Step(cfg, c, inputs[0]), inputs[1..], id);
    }
  }

  /** No turn loses or overwrites the output of a task of an earlier one, however
      it goes and whatever ids its plan has. */
  lemma {:induction false} OutputsStay(cfg: Settings, s: BossState, turns: seq<seq<Input>>, id: TaskId)
    requires id in s.outputs && id != FINAL
    ensures id in Turns(cfg, s, turns).outputs && Turns(cfg, s, turns).outputs[id] == s.outputs[id]
    decreases |turns|
  {
    if turns == [] {
    } else {
      var start := Config(PlanNode, NewTurn(s), []);
      assert start.state.outputs == s.outputs;
      RunKeepsOutput(cfg, start, turns[0], id);
      OutputsStay(cfg, Run(cfg, start, turns[0]).state, turns[1..], id);
    }
  }
}
