/** Whole runs of the supervisor graph (`agents/boss.py`, `agents/nodes.py`).

    START -> plan -> validate -> execute -> review -> execute | aggregate -> END.
    Model replies, decisions of the user and exceptions are inputs. */
module BossGraph {
  import opened Dataflow
  import opened Execution
  import opened Graphs
  import opened Layers
  import opened PlanValidation
  import opened Plans
  import opened Prefixing
  import opened Schedule
  import opened Wrappers

  datatype Node = PlanNode | ValidateNode | ExecuteStage | ReviewNode | AggregateNode | End | Crashed

  /** The calls to language models whose absence cancelling promises. */
  datatype Effect = PersonaCalled(id: TaskId) | AggregationCalled

  datatype Config = Config(node: Node, state: BossState, effects: seq<Effect>)

  datatype Settings = Settings(rt: Runtime, personas: set<string>, intent: string)

  /** How planning turns out: a parsed plan, or the user's choice after a parse
      failure with a fresh uuid for the fallback plan, or an exception. */
  datatype Planning =
    | Parsed(planId: string, tasks: seq<Task>)
    | ParseFailed(action: string, uuid: string)
    | ModelRaised

  /** What one node receives from outside. */
  datatype Input = Input(planning: Planning, decision: string, preview: string, aggregate: Option<string>)

  const CANCELLED := "任务已取消"
  const PLAN_FAILED := "计划生成失败"
  const FINAL: TaskId := "final"

  function FallbackPlan(uuid: string, intent: string): seq<Task> {
    [Task(Prefix(uuid, "t1"), "Direct answer", intent, "researcher", [])]
  }

  function Cancelled(s: BossState): BossState {
    s.(finalResult := Some(CANCELLED), plan := None)
  }

  function PlanStep(cfg: Settings, c: Config, i: Input): Config {
    match i.planning
    case ModelRaised => c.(node := Crashed)
    case Parsed(planId, tasks) =>
      c.(node := ValidateNode, state := c.state.(plan := Some(Prefixed(PlanUuid(planId), tasks))))
    case ParseFailed(action, uuid) =>
      if action == "cancel" then c.(node := ValidateNode, state := Cancelled(c.state))
      else c.(node := ValidateNode, state := c.state.(plan := Some(FallbackPlan(uuid, cfg.intent))))
  }

  /** Below six tasks the preview check measures depth, which on a cyclic plan
      is a recursion without end: the node raises. */
  ghost predicate DepthDiverges(tasks: seq<Task>) {
    |tasks| <= 5 && !Acyclic(DependencyGraph(tasks))
  }

  ghost function ValidateStep(cfg: Settings, c: Config, i: Input): Config {
    if c.state.plan.None? then
      c.(node := ExecuteStage, state := c.state.(finalResult := Some(PLAN_FAILED)))
    else
      var tasks := c.state.plan.value;
      if !ValidPlan(tasks, cfg.personas) && i.decision == "cancel" then
        c.(node := ExecuteStage, state := Cancelled(c.state))
      else if DepthDiverges(tasks) then c.(node := Crashed)
      else if NeedsPreview(tasks) && i.preview != "approve" then
        c.(node := ExecuteStage, state := Cancelled(c.state))
      else c.(node := ExecuteStage)
  }

  function PersonaCalls(tasks: seq<Task>): seq<Effect> {
    seq(|tasks|, i requires 0 <= i < |tasks| => PersonaCalled(tasks[i].id))
  }

  function ExecuteStep(cfg: Settings, c: Config): Config {
    Config(ReviewNode, Execute(cfg.rt, c.state), c.effects + PersonaCalls(Calls(c.state)))
  }

  ghost predicate AnyFailed(outputs: Outputs) {
    exists id :: id in outputs && outputs[id].confidence < 0.6
  }

  ghost function Reviewed(s: BossState, i: Input): BossState {
    if AnyFailed(s.outputs) && i.decision == "cancel" then s.(finalResult := Some(CANCELLED)) else s
  }

  /** `route_after_review` answers "continue". */
  predicate Continue(s: BossState) {
    s.plan.Some? && s.finalResult.None? && Ready(s) != []
  }

  ghost function ReviewStep(c: Config, i: Input): Config {
    var s := Reviewed(c.state, i);
    c.(node := if Continue(s) then ExecuteStage else AggregateNode, state := s)
  }

  function WithFinal(s: BossState, result: string): BossState {
    s.(finalResult := Some(result),
       outputs := s.outputs + (s.outputs[FINAL := TaskOutput(FINAL, "boss", "Final report generated", result, 1.0)]))
  }

  ghost function AggregateStep(c: Config, i: Input): Config {
    var nonFinal := c.state.outputs - {FINAL};
    if c.state.finalResult.Some? then c.(node := End)
    else if |nonFinal| == 1 then
      var id :| id in nonFinal;
      c.(node := End, state := WithFinal(c.state, nonFinal[id].fullResult))
    else if i.aggregate.None? then c.(node := Crashed, effects := c.effects + [AggregationCalled])
    else c.(node := End, state := WithFinal(c.state, i.aggregate.value), effects := c.effects + [AggregationCalled])
  }

  ghost function Step(cfg: Settings, c: Config, i: Input): Config {
    match c.node
    case PlanNode => PlanStep(cfg, c, i)
    case ValidateNode => ValidateStep(cfg, c, i)
    case ExecuteStage => ExecuteStep(cfg, c)
    case ReviewNode => ReviewStep(c, i)
    case AggregateNode => AggregateStep(c, i)
    case End => c
    case Crashed => c
  }

  ghost function Run(cfg: Settings, c: Config, inputs: seq<Input>): Config
    decreases |inputs|
  {
    if inputs == [] then c else Run(cfg, Step(cfg, c, inputs[0]), inputs[1..])
  }

  // ------------------------------------------------------------- the outcome

  /** Every run that reaches END, cancelled or not, ends with a final result. */
  lemma {:induction false} EndHasResult(cfg: Settings, c: Config, inputs: seq<Input>)
    requires c.node == End ==> c.state.finalResult.Some?
    ensures Run(cfg, c, inputs).node == End ==> Run(cfg, c, inputs).state.finalResult.Some?
    decreases |inputs|
  {
    if inputs == [] {
    } else {
      EndHasResult(cfg, Step(cfg, c, inputs[0]), inputs[1..]);
    }
  }

  /** The user's answer at this node cancels the run. */
  ghost predicate Cancels(cfg: Settings, c: Config, i: Input) {
    match c.node
    case PlanNode => i.planning.ParseFailed? && i.planning.action == "cancel"
    case ValidateNode =>
      && c.state.plan.Some?
      && var tasks := c.state.plan.value;
      || (!ValidPlan(tasks, cfg.personas) && i.decision == "cancel")
      || (!DepthDiverges(tasks) && NeedsPreview(tasks) && i.preview != "approve")
    case ReviewNode => AnyFailed(c.state.outputs) && i.decision == "cancel"
    case _ => false
  }

  /** Nothing will be called any more. */
  ghost predicate Halting(c: Config) {
    match c.node
    case ValidateNode => c.state.plan.None?
    case ExecuteStage => c.state.plan.None? && c.state.finalResult.Some?
    case ReviewNode => c.state.plan.None? && c.state.finalResult.Some?
    case AggregateNode => c.state.finalResult.Some?
    case End => c.state.finalResult.Some?
    case _ => false
  }

  function StepsLeft(n: Node): nat {
    match n
    case PlanNode => 5
    case ValidateNode => 4
    case ExecuteStage => 3
    case ReviewNode => 2
    case AggregateNode => 1
    case _ => 0
  }

  lemma HaltingStep(cfg: Settings, c: Config, i: Input)
    requires Halting(c)
    ensures Halting(Step(cfg, c, i)) && Step(cfg, c, i).effects == c.effects
    ensures c.node != End ==> StepsLeft(Step(cfg, c, i).node) < StepsLeft(c.node)
  {
  }

  lemma {:induction false} HaltingRun(cfg: Settings, c: Config, inputs: seq<Input>)
    requires Halting(c)
    ensures Halting(Run(cfg, c, inputs)) && Run(cfg, c, inputs).effects == c.effects
    ensures |inputs| >= StepsLeft(c.node) ==> Run(cfg, c, inputs).node == End
    decreases |inputs|
  {
    if inputs == [] {
    } else {
      HaltingStep(cfg, c, inputs[0]);
      HaltingRun(cfg, Step(cfg, c, inputs[0]), inputs[1..]);
    }
  }

  lemma CancelHalts(cfg: Settings, c: Config, i: Input)
    requires Cancels(cfg, c, i)
    ensures Halting(Step(cfg, c, i)) && Step(cfg, c, i).effects == c.effects
  {
  }

  /** After a cancel no persona and no aggregation is called, the run does not
      crash, and within four nodes it ends with a final result. */
  lemma CancelIsSafe(cfg: Settings, c: Config, i: Input, rest: seq<Input>)
    requires Cancels(cfg, c, i)
    ensures
      var e := Run(cfg, Step(cfg, c, i), rest);
      && e.effects == c.effects
      && e.node != Crashed
      && (|rest| >= 4 ==> e.node == End)
      && (e.node == End ==> e.state.finalResult.Some?)
  {
    CancelHalts(cfg, c, i);
    HaltingRun(cfg, Step(cfg, c, i), rest);
  }

  // ---------------------------------------------------------------- stopping

  /** An upper bound on the nodes still to be visited. */
  function Fuel(n: Node, idle: bool, pending: nat): nat {
    match n
    case ValidateNode => 2 * pending + 4
    case ExecuteStage => if idle then 3 else 2 * pending + 3
    case ReviewNode => if idle then 2 else 2 * pending + 4
    case AggregateNode => 1
    case _ => 0
  }

  function FuelOf(c: Config): nat {
    Fuel(c.node, Ready(c.state) == [], |Pending(c.state)|)
  }

  lemma RoundShrinksCount(rt: Runtime, s: BossState)
    ensures Ready(s) == [] ==> Execute(rt, s) == s
    ensures Ready(s) != [] ==> |Pending(Execute(rt, s))| < |Pending(s)|
  {
    if Ready(s) == [] {
      IdleRound(rt, s);
    } else {
      PendingShrinks(rt, s);
      ProperSubsetIsSmaller(Pending(Execute(rt, s)), Pending(s));
    }
  }

  lemma ExecuteFuel(cfg: Settings, c: Config)
    requires c.node == ExecuteStage
    ensures FuelOf(ExecuteStep(cfg, c)) < FuelOf(c)
  {
    RoundShrinksCount(cfg.rt, c.state);
    var next := Execute(cfg.rt, c.state);
    var idle, pending := Ready(c.state) == [], |Pending(c.state)|;
    var idle', pending' := Ready(next) == [], |Pending(next)|;
    assert idle ==> idle';
    assert !idle ==> pending' < pending;
    RoundFuel(idle, pending, idle', pending');
    assert FuelOf(ExecuteStep(cfg, c)) == Fuel(ReviewNode, idle', pending');
    assert FuelOf(c) == Fuel(ExecuteStage, idle, pending);
  }

  lemma RoundFuel(idle: bool, pending: nat, idle': bool, pending': nat)
    requires if idle then idle' else pending' < pending
    ensures Fuel(ReviewNode, idle', pending') < Fuel(ExecuteStage, idle, pending)
  {
  }

  lemma ReviewFuel(c: Config, i: Input)
    requires c.node == ReviewNode
    ensures FuelOf(ReviewStep(c, i)) < FuelOf(c)
  {
    var s := Reviewed(c.state, i);
    assert Ready(s) == Ready(c.state) && Pending(s) == Pending(c.state);
  }

  lemma ValidateFuel(cfg: Settings, c: Config, i: Input)
    requires c.node == ValidateNode
    ensures FuelOf(ValidateStep(cfg, c, i)) < FuelOf(c)
  {
    var next := ValidateStep(cfg, c, i);
    if next.state.plan.Some? {
      assert Pending(next.state) == Pending(c.state);
    }
  }

  lemma AggregateStops(c: Config, i: Input)
    ensures AggregateStep(c, i).node in {End, Crashed}
  {
  }

  lemma FuelValues(n: Node, idle: bool, pending: nat)
    ensures n in {End, Crashed} ==> Fuel(n, idle, pending) == 0
    ensures n == AggregateNode ==> Fuel(n, idle, pending) == 1
  {
  }

  lemma AggregateFuel(c: Config, next: Config)
    requires c.node == AggregateNode && next.node in {End, Crashed}
    ensures FuelOf(next) < FuelOf(c)
  {
    FuelValues(c.node, Ready(c.state) == [], |Pending(c.state)|);
    FuelValues(next.node, Ready(next.state) == [], |Pending(next.state)|);
  }

  lemma FuelDrops(cfg: Settings, c: Config, i: Input)
    requires c.node != PlanNode && c.node != End && c.node != Crashed
    ensures FuelOf(Step(cfg, c, i)) < FuelOf(c)
  {
    match c.node
    case ValidateNode => ValidateFuel(cfg, c, i);
    case ExecuteStage => ExecuteFuel(cfg, c);
    case ReviewNode => ReviewFuel(c, i);
    case AggregateNode =>
      AggregateStops(c, i);
      AggregateFuel(c, AggregateStep(c, i));
  }

  lemma NeverReplans(cfg: Settings, c: Config, i: Input)
    requires c.node != PlanNode
    ensures Step(cfg, c, i).node != PlanNode
  {
  }

  lemma FirstStep(cfg: Settings, c: Config, inputs: seq<Input>) returns (next: Config)
    requires c.node != PlanNode && c.node != End && c.node != Crashed && inputs != []
    ensures Run(cfg, c, inputs) == Run(cfg, next, inputs[1..])
    ensures next.node != PlanNode && FuelOf(next) < FuelOf(c)
  {
    NeverReplans(cfg, c, inputs[0]);
    FuelDrops(cfg, c, inputs[0]);
    next := Step(cfg, c, inputs[0]);
  }

  /** Once planned, every run reaches END or raises, within two nodes per
      distinct id of the plan and four more. */
  lemma {:induction false} RunsStop(cfg: Settings, c: Config, inputs: seq<Input>)
    requires c.node != PlanNode && |inputs| >= FuelOf(c)
    ensures Run(cfg, c, inputs).node in {End, Crashed}
    decreases |inputs|
  {
    if c.node in {End, Crashed} {
      StaysStopped(cfg, c, inputs);
    } else {
      var next := FirstStep(cfg, c, inputs);
      RunsStop(cfg, next, inputs[1..]);
    }
  }

  lemma {:induction false} StaysStopped(cfg: Settings, c: Config, inputs: seq<Input>)
    requires c.node in {End, Crashed}
    ensures Run(cfg, c, inputs) == c
    decreases |inputs|
  {
    if inputs == [] {
    } else {
      StaysStopped(cfg, c, inputs[1..]);
    }
  }

  // ------------------------------------------------- what an uncancelled run does

  /** `c` is on its way to where the loop from `s` ends, having called part of
      what that loop calls. */
  ghost predicate OnTheWay(cfg: Settings, s: BossState, effects: seq<Effect>, c: Config) {
    && c.node in {ExecuteStage, ReviewNode, AggregateNode}
    && c.state.plan.Some? && c.state.finalResult.None?
    && RunLoop(cfg.rt, c.state) == RunLoop(cfg.rt, s)
    && c.effects + PersonaCalls(AllCalls(cfg.rt, c.state)) == effects + PersonaCalls(AllCalls(cfg.rt, s))
    && (c.node == AggregateNode ==> Ready(c.state) == [])
  }

  lemma PersonaCallsAppend(a: seq<Task>, b: seq<Task>)
    ensures PersonaCalls(a + b) == PersonaCalls(a) + PersonaCalls(b)
  {
  }

  lemma StaysOnTheWay(cfg: Settings, s: BossState, effects: seq<Effect>, c: Config, i: Input)
    requires OnTheWay(cfg, s, effects, c) && c.node != AggregateNode && i.decision != "cancel"
    ensures OnTheWay(cfg, s, effects, Step(cfg, c, i))
  {
    if c.node == ExecuteStage {
      ExecuteEffect(cfg.rt, c.state);
      if Ready(c.state) == [] {
        IdleRound(cfg.rt, c.state);
        assert c.effects + PersonaCalls([]) == c.effects;
      } else {
        var next := Execute(cfg.rt, c.state);
        PersonaCallsAppend(Calls(c.state), AllCalls(cfg.rt, next));
      }
    }
  }

  /** If nobody cancels, the state handed to aggregation is the one the loop of
      rounds leads to, and exactly the loop's personas were called, in order. */
  lemma {:induction false} UncancelledRun(
    cfg: Settings, s: BossState, effects: seq<Effect>, c: Config, inputs: seq<Input>)
    requires OnTheWay(cfg, s, effects, c)
    requires forall i :: i in inputs ==> i.decision != "cancel"
    requires Run(cfg, c, inputs).node == AggregateNode
    ensures Run(cfg, c, inputs).state == RunLoop(cfg.rt, s)
    ensures Run(cfg, c, inputs).effects == effects + PersonaCalls(AllCalls(cfg.rt, s))
    decreases |inputs|
  {
    if c.node == AggregateNode {
      if inputs != [] {
        StaysStopped(cfg, Step(cfg, c, inputs[0]), inputs[1..]);
        assert false;
      }
      assert c.effects + PersonaCalls([]) == c.effects;
    } else {
      StaysOnTheWay(cfg, s, effects, c, inputs[0]);
      UncancelledRun(cfg, s, effects, Step(cfg, c, inputs[0]), inputs[1..]);
    }
  }

  /** A fresh validated plan that nobody cancels is handed to aggregation with
      exactly its meaning added to the outputs, after one persona call per task. */
  lemma UncancelledRunIsDataflow(cfg: Settings, c: Config, inputs: seq<Input>)
    requires c.node == ExecuteStage && c.state.finalResult.None? && Fresh(c.state)
    requires forall i :: i in inputs ==> i.decision != "cancel"
    requires Run(cfg, c, inputs).node == AggregateNode
    ensures Run(cfg, c, inputs).state.outputs == c.state.outputs + Meaning(cfg.rt, c.state.plan.value)
    ensures exists order: seq<Task> ::
      && multiset(order) == multiset(c.state.plan.value)
      && Run(cfg, c, inputs).effects == c.effects + PersonaCalls(order)
  {
    UncancelledRun(cfg, c.state, c.effects, c, inputs);
    ParallelIsDataflow(cfg.rt, c.state);
    LoopCallsEveryTask(cfg.rt, c.state);
  }

  lemma RunFirst(cfg: Settings, c: Config, inputs: seq<Input>, k: nat)
    requires k < |inputs|
    ensures Run(cfg, c, inputs[..k + 1]) == Run(cfg, Step(cfg, c, inputs[0]), inputs[1..][..k])
  {
    assert inputs[..k + 1][1..] == inputs[1..][..k];
  }

  /** Between validation and aggregation, with nothing cancelled. */
  predicate UnderWay(c: Config) {
    c.node in {ExecuteStage, ReviewNode, AggregateNode} && c.state.finalResult.None?
  }

  lemma StaysUnderWay(cfg: Settings, c: Config, i: Input)
    requires UnderWay(c) && c.node != AggregateNode && i.decision != "cancel"
    ensures UnderWay(Step(cfg, c, i))
  {
    if c.node == ExecuteStage {
      ExecuteEffect(cfg.rt, c.state);
    }
  }

  lemma StepUnderWay(cfg: Settings, c: Config, inputs: seq<Input>) returns (next: Config)
    requires UnderWay(c) && c.node != AggregateNode && inputs != [] && inputs[0].decision != "cancel"
    ensures UnderWay(next) && Run(cfg, c, inputs) == Run(cfg, next, inputs[1..])
    ensures forall k :: 0 <= k < |inputs| ==> Run(cfg, c, inputs[..k + 1]) == Run(cfg, next, inputs[1..][..k])
  {
    StaysUnderWay(cfg, c, inputs[0]);
    next := Step(cfg, c, inputs[0]);
    forall k | 0 <= k < |inputs|
      ensures Run(cfg, c, inputs[..k + 1]) == Run(cfg, next, inputs[1..][..k])
    {
      RunFirst(cfg, c, inputs, k);
    }
  }

  /** A run nobody cancels that stops has been at aggregation. */
  lemma {:induction false} PassesAggregation(cfg: Settings, c: Config, inputs: seq<Input>) returns (k: nat)
    requires UnderWay(c) && Run(cfg, c, inputs).node in {End, Crashed}
    requires forall i :: i in inputs ==> i.decision != "cancel"
    ensures k <= |inputs| && Run(cfg, c, inputs[..k]).node == AggregateNode
    decreases |inputs|
  {
    if c.node == AggregateNode {
      k := 0;
    } else {
      var next := StepUnderWay(cfg, c, inputs);
      var rest := PassesAggregation(cfg, next, inputs[1..]);
      k := rest + 1;
    }
  }

  /** Whatever else happens, a fresh validated plan that nobody cancels is carried
      out: within two nodes per task and three more the run stands before
      aggregation with the plan's meaning in the outputs. */
  lemma FreshPlanIsCarriedOut(cfg: Settings, c: Config, inputs: seq<Input>) returns (k: nat)
    requires c.node == ExecuteStage && c.state.finalResult.None? && Fresh(c.state)
    requires forall i :: i in inputs ==> i.decision != "cancel"
    requires |inputs| >= 2 * |c.state.plan.value| + 3
    ensures k <= |inputs|
    ensures
      var e := Run(cfg, c, inputs[..k]);
      && e.node == AggregateNode
      && e.state.outputs == c.state.outputs + Meaning(cfg.rt, c.state.plan.value)
      && exists order: seq<Task> ::
        && multiset(order) == multiset(c.state.plan.value)
        && e.effects == c.effects + PersonaCalls(order)
  {
    FreshFuel(c);
    RunsStop(cfg, c, inputs);
    k := PassesAggregation(cfg, c, inputs);
    UncancelledRunIsDataflow(cfg, c, inputs[..k]);
  }

  lemma FreshFuel(c: Config)
    requires c.node == ExecuteStage && c.state.plan.Some?
    ensures FuelOf(c) <= 2 * |c.state.plan.value| + 3
  {
    var tasks := c.state.plan.value;
    IdCount(tasks);
    SubsetIsNoLarger(Pending(c.state), Ids(tasks));
  }

  // -------------------------------------------------------- turns of one thread

  /** The worker starts a turn from an initial state, but the reducers merge its
      empty dict and list into what the checkpoint holds: nothing is cleared. */
  function NewTurn(s: BossState): BossState {
    BossState(None, s.outputs + map[], s.completed + [], None)
  }

  ghost function Turns(cfg: Settings, s: BossState, turns: seq<seq<Input>>): BossState
    decreases |turns|
  {
    if turns == [] then s
    else Turns(cfg, Run(cfg, Config(PlanNode, NewTurn(s), []), turns[0]).state, turns[1..])
  }

  /** The completed ids are exactly the keys of the outputs, but for "final". */
  ghost predicate KeysMatch(s: BossState) {
    && Done(s) == s.outputs.Keys - {FINAL}
    && (s.plan.Some? ==> FINAL !in Ids(s.plan.value))
  }

  lemma PrefixIsNotFinal(uuid: string, id: TaskId)
    ensures Prefix(uuid, id) != FINAL
  {
    var p := Prefix(uuid, id);
    assert p[|uuid|] == '_';
    assert forall k :: 0 <= k < |FINAL| ==> FINAL[k] != '_';
  }

  lemma PlannedIdsAreNotFinal(cfg: Settings, c: Config, i: Input)
    requires c.node == PlanNode && KeysMatch(c.state)
    ensures KeysMatch(Step(cfg, c, i).state)
  {
    match i.planning
    case Parsed(planId, tasks) =>
      var r := Prefixed(PlanUuid(planId), tasks);
      if FINAL in Ids(r) {
        var x := PrefixedIdHasPrefix(PlanUuid(planId), tasks, FINAL);
        PrefixIsNotFinal(PlanUuid(planId), x);
      }
    case ParseFailed(action, uuid) => PrefixIsNotFinal(uuid, "t1");
    case ModelRaised =>
  }

  lemma RoundKeepsMatch(rt: Runtime, s: BossState)
    requires KeysMatch(s)
    ensures KeysMatch(Execute(rt, s))
  {
    ExecuteEffect(rt, s);
    if s.plan.Some? {
      assert Ids(Ready(s)) <= Ids(s.plan.value);
    }
  }

  lemma StepKeepsMatch(cfg: Settings, c: Config, i: Input)
    requires KeysMatch(c.state)
    ensures KeysMatch(Step(cfg, c, i).state)
  {
    match c.node
    case PlanNode => PlannedIdsAreNotFinal(cfg, c, i);
    case ExecuteStage => RoundKeepsMatch(cfg.rt, c.state);
    case AggregateNode => AggregateKeepsMatch(c, i);
    case _ =>
  }

  lemma FinalKeepsMatch(s: BossState, result: string)
    requires KeysMatch(s)
    ensures KeysMatch(WithFinal(s, result))
  {
  }

  lemma AggregateKeepsMatch(c: Config, i: Input)
    requires c.node == AggregateNode && KeysMatch(c.state)
    ensures KeysMatch(AggregateStep(c, i).state)
  {
    var next := AggregateStep(c, i).state;
    if next != c.state {
      FinalKeepsMatch(c.state, next.finalResult.value);
    }
  }

  lemma {:induction false} RunKeepsMatch(cfg: Settings, c: Config, inputs: seq<Input>)
    requires KeysMatch(c.state)
    ensures KeysMatch(Run(cfg, c, inputs).state)
    decreases |inputs|
  {
    if inputs == [] {
    } else {
      StepKeepsMatch(cfg, c, inputs[0]);
      RunKeepsMatch(cfg, Step(cfg, c, inputs[0]), inputs[1..]);
    }
  }

  /** After any number of turns, however each of them went, and at every node of
      the next one, completed ids and output keys match. */
  lemma {:induction false} TurnsKeepMatch(cfg: Settings, s: BossState, turns: seq<seq<Input>>, inputs: seq<Input>)
    requires KeysMatch(s)
    ensures KeysMatch(Run(cfg, Config(PlanNode, NewTurn(Turns(cfg, s, turns)), []), inputs).state)
    decreases |turns|
  {
    var start := Config(PlanNode, NewTurn(s), []);
    assert Done(NewTurn(s)) == Done(s);
    if turns == [] {
      RunKeepsMatch(cfg, start, inputs);
    } else {
      RunKeepsMatch(cfg, start, turns[0]);
      TurnsKeepMatch(cfg, Run(cfg, start, turns[0]).state, turns[1..], inputs);
    }
  }

  /** The prefix a planning step makes ids with. */
  function PrefixesOf(i: Input): set<string> {
    match i.planning
    case Parsed(planId, _) => {PlanUuid(planId)}
    case ParseFailed(action, uuid) => if action == "cancel" then {} else {uuid}
    case ModelRaised => {}
  }

  /** The prefixes of all turns; only the first node of a turn plans. */
  function Prefixes(turns: seq<seq<Input>>): set<string>
    decreases |turns|
  {
    if turns == [] then {}
    else (if turns[0] == [] then {} else PrefixesOf(turns[0][0])) + Prefixes(turns[1..])
  }

  ghost predicate MintedIds(prefixes: set<string>, ids: set<TaskId>) {
    forall id :: id in ids ==> exists q, x :: q in prefixes && id == Prefix(q, x)
  }

  /** Every id, completed or planned, was made with one of the prefixes. */
  ghost predicate Minted(prefixes: set<string>, s: BossState) {
    && MintedIds(prefixes, Done(s))
    && (s.plan.Some? ==> MintedIds(prefixes, Ids(s.plan.value)))
  }

  lemma MintedMore(a: set<string>, b: set<string>, ids: set<TaskId>)
    requires MintedIds(a, ids) && a <= b
    ensures MintedIds(b, ids)
  {
  }

  lemma PlanIsMinted(cfg: Settings, c: Config, i: Input, prefixes: set<string>)
    requires c.node == PlanNode && Minted(prefixes, c.state)
    ensures Minted(prefixes + PrefixesOf(i), Step(cfg, c, i).state)
  {
    var all := prefixes + PrefixesOf(i);
    MintedMore(prefixes, all, Done(c.state));
    match i.planning
    case Parsed(planId, tasks) =>
      forall id | id in Ids(Prefixed(PlanUuid(planId), tasks))
        ensures exists q, x :: q in all && id == Prefix(q, x)
      {
        var x := PrefixedIdHasPrefix(PlanUuid(planId), tasks, id);
      }
    case ParseFailed(action, uuid) =>
      if action != "cancel" {
        assert Ids(FallbackPlan(uuid, cfg.intent)) == {Prefix(uuid, "t1")};
      }
    case ModelRaised =>
      if c.state.plan.Some? {
        MintedMore(prefixes, all, Ids(c.state.plan.value));
      }
  }

  lemma RoundKeepsMinted(rt: Runtime, s: BossState, prefixes: set<string>)
    requires Minted(prefixes, s)
    ensures Minted(prefixes, Execute(rt, s))
  {
    ExecuteEffect(rt, s);
    if s.plan.Some? {
      assert Ids(Ready(s)) <= Ids(s.plan.value);
    }
  }

  lemma StepKeepsMinted(cfg: Settings, c: Config, i: Input, prefixes: set<string>)
    requires c.node != PlanNode && Minted(prefixes, c.state)
    ensures Minted(prefixes, Step(cfg, c, i).state)
  {
    if c.node == ExecuteStage {
      RoundKeepsMinted(cfg.rt, c.state, prefixes);
    }
  }

  lemma {:induction false} RunKeepsMinted(cfg: Settings, c: Config, inputs: seq<Input>, prefixes: set<string>)
    requires c.node != PlanNode && Minted(prefixes, c.state)
    ensures Minted(prefixes, Run(cfg, c, inputs).state)
    decreases |inputs|
  {
    if inputs == [] {
    } else {
      StepKeepsMinted(cfg, c, inputs[0], prefixes);
      NeverReplans(cfg, c, inputs[0]);
      RunKeepsMinted(cfg, Step(cfg, c, inputs[0]), inputs[1..], prefixes);
    }
  }

  lemma PlanningEnds(cfg: Settings, c: Config, i: Input)
    requires c.node == PlanNode
    ensures Step(cfg, c, i).node != PlanNode
  {
  }

  lemma TurnMints(cfg: Settings, s: BossState, inputs: seq<Input>, prefixes: set<string>)
    requires MintedIds(prefixes, Done(s))
    ensures
      MintedIds(
        prefixes + (if inputs == [] then {} else PrefixesOf(inputs[0])),
        Done(Run(cfg, Config(PlanNode, NewTurn(s), []), inputs).state))
  {
    var start := Config(PlanNode, NewTurn(s), []);
    assert Done(NewTurn(s)) == Done(s);
    if inputs == [] {
      assert prefixes + {} == prefixes;
    } else {
      var next := Step(cfg, start, inputs[0]);
      PlanIsMinted(cfg, start, inputs[0], prefixes);
      PlanningEnds(cfg, start, inputs[0]);
      RunKeepsMinted(cfg, next, inputs[1..], prefixes + PrefixesOf(inputs[0]));
    }
  }

  /** Whatever happened in the turns, every completed id was made with a prefix of
      one of their plans. */
  lemma {:induction false} TurnsMint(cfg: Settings, s: BossState, turns: seq<seq<Input>>, prefixes: set<string>)
    requires MintedIds(prefixes, Done(s))
    ensures MintedIds(prefixes + Prefixes(turns), Done(Turns(cfg, s, turns)))
    decreases |turns|
  {
    if turns == [] {
      assert prefixes + {} == prefixes;
    } else {
      var used := if turns[0] == [] then {} else PrefixesOf(turns[0][0]);
      TurnMints(cfg, s, turns[0], prefixes);
      TurnsMint(cfg, Run(cfg, Config(PlanNode, NewTurn(s), []), turns[0]).state, turns[1..], prefixes + used);
      assert prefixes + used + Prefixes(turns[1..]) == prefixes + Prefixes(turns);
    }
  }

  /** A valid plan whose prefix is apart from the earlier ones meets no id of its
      own. */
  lemma NewPlanMeetsNoOldId(uuid: string, tasks: seq<Task>, s: BossState)
    requires KeysMatch(s) && Dag(tasks) && OtherPlans(uuid, Done(s))
    ensures Fresh(s.(plan := Some(Prefixed(uuid, tasks))))
  {
    var r := Prefixed(uuid, tasks);
    KnownMeansNoAlias(uuid, tasks);
    UniquenessPreserved(uuid, tasks);
    DependenciesPreserved(uuid, tasks);
    PrefixedAcyclic(uuid, tasks);
    forall id | id in Ids(r)
      ensures id !in Done(s) && id != FINAL
    {
      var x := PrefixedIdHasPrefix(uuid, tasks, id);
      PrefixIsNotFinal(uuid, x);
      OtherIdsAreNew(uuid, tasks, Done(s), id);
    }
  }

  const NO_STATE := BossState(None, map[], [], None)

  /** After any turns of a thread, however each of them went, a valid plan whose
      prefix is apart from the prefixes of those turns starts with none of its ids
      completed or in the outputs. */
  lemma NewPlanIsFresh(cfg: Settings, turns: seq<seq<Input>>, uuid: string, tasks: seq<Task>)
    requires Dag(tasks) && forall q :: q in Prefixes(turns) ==> Apart(q, uuid)
    ensures Fresh(NewTurn(Turns(cfg, NO_STATE, turns)).(plan := Some(Prefixed(uuid, tasks))))
  {
    var s := NewTurn(Turns(cfg, NO_STATE, turns));
    TurnsKeepMatch(cfg, NO_STATE, turns, []);
    TurnsMint(cfg, NO_STATE, turns, {});
    assert Done(s) == Done(Turns(cfg, NO_STATE, turns)) && {} + Prefixes(turns) == Prefixes(turns);
    NewPlanMeetsNoOldId(uuid, tasks, s);
  }
}
