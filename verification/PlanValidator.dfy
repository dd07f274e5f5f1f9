/** The deterministic plan validator (`core/plan_validator.py`). */
module PlanValidation {
  import opened Graphs
  import opened GraphSearch
  import opened Plans
  import opened Wrappers

  datatype ValidationError =
    | EmptyPlan
    | DuplicateIds(ids: set<TaskId>)
    | UnknownPersona(task: TaskId, persona: string)
    | UnknownDependency(task: TaskId, dependency: TaskId)
    | DependencyCycle(path: seq<TaskId>)

  /** None exactly when the graph is acyclic; otherwise a genuine simple cycle. */
  method DetectCycle(tasks: seq<Task>) returns (cycle: Option<seq<TaskId>>)
    ensures cycle.None? <==> Acyclic(DependencyGraph(tasks))
    ensures cycle.Some? ==> Cycle(DependencyGraph(tasks), cycle.value) && Distinct(cycle.value[1..])
  {
    var graph, order := BuildGraph(tasks);
    cycle := FindCycle(graph, order);
  }

  /** The dict of dependencies and its keys, in insertion order. */
  method BuildGraph(tasks: seq<Task>) returns (graph: Graph<TaskId>, order: seq<TaskId>)
    ensures graph == DependencyGraph(tasks)
    ensures forall n :: n in graph <==> n in order
  {
    graph, order := map[], [];
    for k := 0 to |tasks|
      invariant graph == DependencyGraph(tasks[..k])
      invariant forall n :: n in graph <==> n in order
    {
      assert tasks[..k + 1][..k] == tasks[..k];
      if tasks[k].id !in graph {
        order := order + [tasks[k].id];
      }
      graph := graph[tasks[k].id := tasks[k].dependencies];
    }
    assert tasks[..|tasks|] == tasks;
  }

  /** The longest dependency chain of the plan, counted in edges. */
  method MaxDependencyDepth(tasks: seq<Task>) returns (d: nat)
    requires Acyclic(DependencyGraph(tasks))
    ensures tasks == [] ==> d == 0
    ensures tasks != [] ==>
      exists w: seq<TaskId> :: Walk(DependencyGraph(tasks), w) && w[0] in Ids(tasks) && |w| == d + 1
    ensures forall w: seq<TaskId> ::
      Walk(DependencyGraph(tasks), w) && w[0] in Ids(tasks) ==> |w| <= d + 1
    ensures forall t :: t in tasks ==> Depth(DependencyGraph(tasks), t.id) <= d
    ensures tasks != [] ==> exists t :: t in tasks && Depth(DependencyGraph(tasks), t.id) == d
  {
    ghost var g := DependencyGraph(tasks);
    var search := new DepthSearch(DependencyGraph(tasks));
    d := 0;
    for i := 0 to |tasks|
      invariant search.Valid() && search.depMap == g
      invariant i == 0 ==> d == 0
      invariant forall j :: 0 <= j < i ==> Depth(g, tasks[j].id) <= d
      invariant i > 0 ==> exists j :: 0 <= j < i && Depth(g, tasks[j].id) == d
    {
      var e := search.DepthOf(tasks[i].id);
      if i == 0 || e > d {
        d := e;
      }
    }
    if tasks != [] {
      ghost var j :| 0 <= j < |tasks| && Depth(g, tasks[j].id) == d;
      ghost var w := LongestWalk(g, tasks[j].id);
      assert tasks[j] in tasks;
    }
    forall w: seq<TaskId> | Walk(g, w) && w[0] in Ids(tasks)
      ensures |w| <= d + 1
    {
      assert WalkFrom(g, w[0], w);
      assert IsDepth(g, w[0], Depth(g, w[0]));
    }
  }

  /** A validated plan is shallower than it is long. */
  lemma DepthBelowTaskCount(tasks: seq<Task>, personas: set<string>, id: TaskId)
    requires ValidPlan(tasks, personas) && id in Ids(tasks)
    ensures Depth(DependencyGraph(tasks), id) < |tasks|
  {
    var g := DependencyGraph(tasks);
    GraphKeys(tasks);
    forall n, s | Edge(g, n, s)
      ensures s in g
    {
      SuccessorsAreIds(tasks, n, s);
    }
    ClosedGraphIsShallow(g, id);
    IdCount(tasks);
    assert g.Keys == Ids(tasks);
  }

  /** `len(set(task_ids)) == len(task_ids)` exactly when the ids are unique. */
  lemma {:induction false} IdCount(tasks: seq<Task>)
    ensures |Ids(tasks)| <= |tasks|
    ensures |Ids(tasks)| == |tasks| <==> UniqueIds(tasks)
  {
    if tasks == [] {
    } else {
      var n := |tasks| - 1;
      var front := tasks[..n];
      assert tasks == front + [tasks[n]];
      assert Ids(tasks) == Ids(front) + {tasks[n].id};
      IdCount(front);
      if tasks[n].id in Ids(front) {
        assert Ids(tasks) == Ids(front);
        var t :| t in front && t.id == tasks[n].id;
        var i :| 0 <= i < n && tasks[i] == t;
      } else if UniqueIds(front) {
        forall i, j | 0 <= i < j < |tasks|
          ensures tasks[i].id != tasks[j].id
        {
          assert front[i] in front;
        }
      }
    }
  }

  ghost predicate Repeated(tasks: seq<Task>, id: TaskId) {
    exists i, j :: 0 <= i < j < |tasks| && tasks[i].id == tasks[j].id == id
  }

  ghost function RepeatedSet(tasks: seq<Task>): set<TaskId> {
    set t | t in tasks && Repeated(tasks, t.id) :: t.id
  }

  /** When a reported error is right. */
  ghost predicate Accurate(tasks: seq<Task>, personas: set<string>, e: ValidationError) {
    match e
    case EmptyPlan => tasks == []
    case DuplicateIds(ids) => ids != {} && ids == RepeatedSet(tasks)
    case UnknownPersona(id, p) => p !in personas && exists t :: t in tasks && t.id == id && t.persona == p
    case UnknownDependency(id, d) => d !in Ids(tasks) && exists t :: t in tasks && t.id == id && d in t.dependencies
    case DependencyCycle(path) => Cycle(DependencyGraph(tasks), path)
  }

  /** More than five tasks, or a chain of at least five. */
  ghost predicate NeedsPreview(tasks: seq<Task>) {
    || |tasks| > 5
    || exists w: seq<TaskId> :: Walk(DependencyGraph(tasks), w) && w[0] in Ids(tasks) && |w| >= 5
  }

  class PlanValidator {
    const availablePersonas: set<string>

    constructor (availablePersonas: seq<string>)
      ensures this.availablePersonas == set p | p in availablePersonas
    {
      this.availablePersonas := set p | p in availablePersonas;
    }

    /** Accepts exactly the valid plans, and every reported error is accurate.
        Nothing but a cycle goes unreported: a cycle is searched for only when
        the other checks found nothing, and then it is found. */
    method Validate(tasks: seq<Task>) returns (isValid: bool, errors: seq<ValidationError>)
      ensures isValid <==> ValidPlan(tasks, availablePersonas)
      ensures isValid <==> errors == []
      ensures forall e :: e in errors ==> Accurate(tasks, availablePersonas, e)
      ensures forall e :: Accurate(tasks, availablePersonas, e) && !e.DependencyCycle? ==> e in errors
    {
      errors := [];
      if tasks == [] {
        return false, [EmptyPlan];
      }
      IdCount(tasks);
      RepetitionIffNotUnique(tasks);
      var idSet := Ids(tasks);
      if |tasks| != |idSet| {
        var duplicates := RepeatedIds(tasks);
        errors := errors + [DuplicateIds(duplicates)];
      }
      var unknownPersonas := UnknownPersonas(tasks, availablePersonas);
      errors := errors + unknownPersonas;
      var unknownDependencies := UnknownDependencies(tasks, idSet, availablePersonas);
      errors := errors + unknownDependencies;
      forall e | e in errors
        ensures Accurate(tasks, availablePersonas, e)
      {
        if e !in unknownPersonas && e !in unknownDependencies {
          assert e.DuplicateIds?;
        }
      }
      if errors == [] {
        NothingUnknown(tasks, availablePersonas);
        var cycle := DetectCycle(tasks);
        if cycle.Some? {
          errors := [DependencyCycle(cycle.value)];
        }
      }
      if errors != [] {
        ErrorInvalidates(tasks, availablePersonas, errors[0]);
      }
      isValid := |errors| == 0;
    }

    /** The depth is asked for only below six tasks, and then the recursion
        needs a plan without a cycle to end. */
    method ShouldRequireHitlPreview(tasks: seq<Task>) returns (preview: bool)
      requires |tasks| > 5 || Acyclic(DependencyGraph(tasks))
      ensures preview <==> NeedsPreview(tasks)
    {
      if |tasks| > 5 {
        return true;
      }
      var maxDepth := MaxDependencyDepth(tasks);
      preview := maxDepth > 3;
    }
  }

  lemma RepetitionIffNotUnique(tasks: seq<Task>)
    ensures UniqueIds(tasks) <==> RepeatedSet(tasks) == {}
  {
    if !UniqueIds(tasks) {
      var i, j :| 0 <= i < j < |tasks| && tasks[i].id == tasks[j].id;
      assert Repeated(tasks, tasks[i].id);
      assert tasks[i].id in RepeatedSet(tasks);
    }
  }

  lemma ErrorInvalidates(tasks: seq<Task>, personas: set<string>, e: ValidationError)
    requires Accurate(tasks, personas, e)
    ensures !ValidPlan(tasks, personas)
  {
  }

  /** When neither loop of checks reports anything, there is nothing to report. */
  lemma NothingUnknown(tasks: seq<Task>, personas: set<string>)
    requires forall id, p :: !Accurate(tasks, personas, UnknownPersona(id, p))
    requires forall id, d :: !Accurate(tasks, personas, UnknownDependency(id, d))
    ensures KnownPersonas(tasks, personas) && KnownDependencies(tasks)
  {
    forall t | t in tasks
      ensures t.persona in personas
    {
      assert !Accurate(tasks, personas, UnknownPersona(t.id, t.persona));
    }
    forall t, d | t in tasks && d in t.dependencies
      ensures d in Ids(tasks)
    {
      assert !Accurate(tasks, personas, UnknownDependency(t.id, d));
    }
  }

  /** `set(tid for tid in task_ids if task_ids.count(tid) > 1)` */
  method RepeatedIds(tasks: seq<Task>) returns (ids: set<TaskId>)
    ensures ids == RepeatedSet(tasks)
  {
    ids := {};
    var seen: set<TaskId> := {};
    for k := 0 to |tasks|
      invariant forall id :: id in seen <==> exists j :: 0 <= j < k && tasks[j].id == id
      invariant forall id :: id in ids <==> exists i, j :: 0 <= i < j < k && tasks[i].id == tasks[j].id == id
    {
      if tasks[k].id in seen {
        ids := ids + {tasks[k].id};
      }
      seen := seen + {tasks[k].id};
    }
    assert forall id :: id in ids <==> Repeated(tasks, id);
  }

  method UnknownPersonas(tasks: seq<Task>, personas: set<string>) returns (errors: seq<ValidationError>)
    ensures forall e :: e in errors <==> e.UnknownPersona? && Accurate(tasks, personas, e)
  {
    errors := [];
    for k := 0 to |tasks|
      invariant forall e :: e in errors <==> e.UnknownPersona? && Accurate(tasks[..k], personas, e)
    {
      assert tasks[..k + 1] == tasks[..k] + [tasks[k]];
      if tasks[k].persona !in personas {
        errors := errors + [UnknownPersona(tasks[k].id, tasks[k].persona)];
      }
    }
    assert tasks[..|tasks|] == tasks;
  }

  method UnknownDependencies(tasks: seq<Task>, known: set<TaskId>, ghost personas: set<string>)
    returns (errors: seq<ValidationError>)
    requires known == Ids(tasks)
    ensures forall e :: e in errors <==> e.UnknownDependency? && Accurate(tasks, personas, e)
  {
    errors := [];
    for k := 0 to |tasks|
      invariant forall e :: e in errors <==> Dangling(tasks[..k], known, e)
    {
      assert tasks[..k + 1] == tasks[..k] + [tasks[k]];
      for i := 0 to |tasks[k].dependencies|
        invariant forall e :: e in errors <==>
          || Dangling(tasks[..k], known, e)
          || Dangling([tasks[k].(dependencies := tasks[k].dependencies[..i])], known, e)
      {
        var deps := tasks[k].dependencies;
        assert deps[..i + 1] == deps[..i] + [deps[i]];
        if deps[i] !in known {
          errors := errors + [UnknownDependency(tasks[k].id, deps[i])];
        }
      }
    }
    assert tasks[..|tasks|] == tasks;
  }

  ghost predicate Dangling(tasks: seq<Task>, known: set<TaskId>, e: ValidationError) {
    && e.UnknownDependency?
    && e.dependency !in known
    && exists t :: t in tasks && t.id == e.task && e.dependency in t.dependencies
  }
}
