/** What the rows of a persisted history say, from their types and payloads alone,
    and that a loaded thread holds exactly that (`thread-store.ts`). */
module HistoryMeaning {
  import opened ThreadStore
  import opened Wrappers

  /** The row types the client knows; any other row is skipped. */
  const KNOWN := {
    "task.created", "phase.change", "task.completed", "task.failed", "task.completed_single", "task.failed_single",
    "node.completed", "interrupt", "task.planning", "task.plan_ready", "task.executing", "task.aggregating",
    "hitl.request"
  }

  /** The type an event is dispatched under. */
  function TypeName(b: Body): string {
    match b
    case Created(_) => "task.created"
    case PhaseChange(_, _, _, _) => "phase.change"
    case Completed(_) => "task.completed"
    case TaskFailed(_) => "task.failed"
    case CompletedSingle(_, _, _) => "task.completed_single"
    case FailedSingle(_, _) => "task.failed_single"
    case NodeCompleted(_) => "node.completed"
    case Interrupt(_) => "interrupt"
    case Token(_, _) => "llm.token"
    case Heartbeat => "task.heartbeat"
    case PlanningStarted => "task.planning"
    case PlanReady(_, _) => "task.plan_ready"
    case ExecutingTask(_, _) => "task.executing"
    case Aggregating => "task.aggregating"
    case ResultChunk(_) => "task.result_chunk"
    case PlanningChunk(_) => "task.planning_chunk"
    case HitlRequested(_) => "hitl.request"
    case Unknown(ty) => ty
  }

  /** A text of the payload, where absent and empty mean the same. */
  predicate Reads(text: string, field: Option<string>) {
    (text == "" && field == None) || field == Some(text)
  }

  predicate Present(field: Option<string>) {
    field.Some? && field.value != ""
  }

  /** The fields of an event are those of its row. */
  predicate Carries(b: Body, d: Data, l: Legacy) {
    match b
    case Created(intent) => Reads(intent, d.intent)
    case PhaseChange(phase, tasks, done, total) =>
      && (if Present(d.phase) then d.phase == Some(phase) else phase == "unknown")
      && tasks == d.tasks && done == d.totalCompleted && total == d.totalTasks
    case Completed(result) => if Present(d.result) then result == d.result else result == None
    case TaskFailed(error) => if Present(d.error) then error == d.error else error == None
    case CompletedSingle(id, persona, summary) => Reads(id, d.taskId) && Reads(persona, d.persona) && summary == d.summary
    case FailedSingle(id, error) => Reads(id, d.taskId) && Reads(error, d.error)
    case NodeCompleted(node) => Reads(node, d.node)
    case Interrupt(value) => if d.value.Some? then d.value == Some(value) else value == UNKNOWN_INTERRUPT
    case PlanReady(id, count) => Reads(id, l.planId) && (l.taskCount == Some(count) || (l.taskCount == None && count == 0))
    case ExecutingTask(id, persona) =>
      && Reads(id, if Present(d.taskId) then d.taskId else l.taskId)
      && Reads(persona, if Present(d.persona) then d.persona else l.persona)
    case HitlRequested(request) => if l.request.Some? then l.request == Some(request) else request == EMPTY_REQUEST
    case _ => true
  }

  /** An event is what a row says. */
  predicate Says(dto: PersistedEvent, e: SseEvent) {
    && e.seqNo == Some(dto.seqNo) && !e.body.Unknown?
    && (dto.eventType in KNOWN ==> TypeName(e.body) == dto.eventType && Carries(e.body, dto.data, dto.legacy))
    && (dto.eventType !in KNOWN ==> e.body == Heartbeat)
  }

  lemma RowSays(dto: PersistedEvent)
    ensures Says(dto, PersistedToSseEvent(dto))
  {
  }

  // ----------------------------------------------- what a history comes to

  /** The result of the last "task.completed" row. */
  function ResultTold(dtos: seq<PersistedEvent>): Option<string> {
    if dtos == [] then None
    else
      var last := dtos[|dtos| - 1];
      if last.eventType != "task.completed" then ResultTold(dtos[..|dtos| - 1])
      else if Present(last.data.result) then last.data.result else None
  }

  /** The error of the last "task.failed" row. */
  function ErrorTold(dtos: seq<PersistedEvent>): Option<string> {
    if dtos == [] then None
    else
      var last := dtos[|dtos| - 1];
      if last.eventType != "task.failed" then ErrorTold(dtos[..|dtos| - 1])
      else if Present(last.data.error) then last.data.error else None
  }

  /** The value of the last "interrupt" row. */
  function InterruptTold(dtos: seq<PersistedEvent>): Option<Json> {
    if dtos == [] then None
    else
      var last := dtos[|dtos| - 1];
      if last.eventType != "interrupt" then InterruptTold(dtos[..|dtos| - 1])
      else if last.data.value.Some? then last.data.value else Some(UNKNOWN_INTERRUPT)
  }

  /** The requests of all "hitl.request" rows. */
  function HitlTold(dtos: seq<PersistedEvent>): seq<Json> {
    if dtos == [] then []
    else
      var last := dtos[|dtos| - 1];
      HitlTold(dtos[..|dtos| - 1]) +
      if last.eventType != "hitl.request" then []
      else [if last.legacy.request.Some? then last.legacy.request.value else EMPTY_REQUEST]
  }

  /** The phase a type stands for. */
  function NamedPhase(ty: string): Option<string> {
    if ty == "task.completed" then Some("completed")
    else if ty == "task.failed" then Some("failed")
    else if ty == "interrupt" || ty == "hitl.request" then Some("hitl_waiting")
    else if ty == "task.planning" then Some("planning")
    else if ty == "task.plan_ready" then Some("planned")
    else if ty == "task.executing" then Some("executing")
    else if ty == "task.aggregating" then Some("aggregating")
    else None
  }

  /** The phase a row puts its thread into, if it does. */
  function PhaseOf(dto: PersistedEvent): Option<string> {
    if dto.eventType !in KNOWN then None
    else if dto.eventType != "phase.change" then NamedPhase(dto.eventType)
    else if Present(dto.data.phase) then dto.data.phase
    else Some("unknown")
  }

  /** The phase of the last row that sets one. */
  function PhaseTold(dtos: seq<PersistedEvent>): string {
    if dtos == [] then "created"
    else
      var last := dtos[|dtos| - 1];
      if PhaseOf(last).Some? then PhaseOf(last).value else PhaseTold(dtos[..|dtos| - 1])
  }

  /** The rows of a known type. */
  function KnownRows(dtos: seq<PersistedEvent>): seq<PersistedEvent> {
    if dtos == [] then []
    else
      var last := dtos[|dtos| - 1];
      KnownRows(dtos[..|dtos| - 1]) + if last.eventType in KNOWN then [last] else []
  }

  /** One event per row, in order, each saying what its row says. */
  predicate OneEach(rows: seq<PersistedEvent>, events: seq<SseEvent>) {
    |rows| == |events| && forall i :: 0 <= i < |rows| ==> Says(rows[i], events[i])
  }

  // ------------------------------------------------------------ one more row

  /** Types of the same length differ too. */
  lemma TypesDiffer()
    ensures "task.created" != "phase.change" && "task.created" != "hitl.request" && "phase.change" != "hitl.request"
    ensures "task.completed" != "node.completed" && "task.completed" != "task.executing"
    ensures "node.completed" != "task.executing" && "interrupt" != "llm.token"
    ensures "task.heartbeat" != "task.completed" && "task.heartbeat" != "node.completed"
    ensures "task.heartbeat" != "task.executing"
  {
    assert "task.created"[0] != "phase.change"[0] && "task.created"[0] != "hitl.request"[0];
    assert "phase.change"[0] != "hitl.request"[0] && "task.completed"[0] != "node.completed"[0];
    assert "task.completed"[5] != "task.executing"[5] && "node.completed"[0] != "task.executing"[0];
    assert "interrupt"[0] != "llm.token"[0] && "task.heartbeat"[5] != "task.completed"[5];
    assert "task.heartbeat"[0] != "node.completed"[0] && "task.heartbeat"[5] != "task.executing"[5];
  }

  lemma TransientNames(b: Body)
    requires IsTransient(b)
    ensures TypeName(b) !in KNOWN
  {
    TypesDiffer();
    match b
    case Token(_, _) =>
    case Heartbeat =>
    case ResultChunk(_) =>
    case PlanningChunk(_) =>
  }

  /** Which events are kept depends on the type alone. */
  lemma KeptIffKnown(dto: PersistedEvent, e: SseEvent)
    requires Says(dto, e)
    ensures IsTransient(e.body) <==> dto.eventType !in KNOWN
  {
    if IsTransient(e.body) {
      TransientNames(e.body);
    }
  }

  lemma RowSetsResult(s: Summary, dto: PersistedEvent, e: SseEvent)
    requires Says(dto, e)
    ensures
      ReplayEvent(s, e).result ==
      if dto.eventType != "task.completed" then s.result
      else if Present(dto.data.result) then dto.data.result else None
  {
    TypesDiffer();
  }

  lemma RowSetsError(s: Summary, dto: PersistedEvent, e: SseEvent)
    requires Says(dto, e)
    ensures
      ReplayEvent(s, e).error ==
      if dto.eventType != "task.failed" then s.error
      else if Present(dto.data.error) then dto.data.error else None
  {
    TypesDiffer();
  }

  lemma RowSetsInterrupt(s: Summary, dto: PersistedEvent, e: SseEvent)
    requires Says(dto, e)
    ensures
      ReplayEvent(s, e).pendingInterrupt ==
      if dto.eventType != "interrupt" then s.pendingInterrupt
      else if dto.data.value.Some? then dto.data.value else Some(UNKNOWN_INTERRUPT)
  {
    TypesDiffer();
  }

  lemma RowSetsHitl(s: Summary, dto: PersistedEvent, e: SseEvent)
    requires Says(dto, e)
    ensures
      ReplayEvent(s, e).pendingHitl ==
      s.pendingHitl +
      if dto.eventType != "hitl.request" then []
      else [if dto.legacy.request.Some? then dto.legacy.request.value else EMPTY_REQUEST]
  {
    TypesDiffer();
  }

  /** The phase an event puts its thread into, if it does. */
  function PhaseSet(b: Body): Option<string> {
    match b
    case PhaseChange(p, _, _, _) => Some(p)
    case Completed(_) => Some("completed")
    case TaskFailed(_) => Some("failed")
    case Interrupt(_) => Some("hitl_waiting")
    case HitlRequested(_) => Some("hitl_waiting")
    case PlanningStarted => Some("planning")
    case PlanReady(_, _) => Some("planned")
    case ExecutingTask(_, _) => Some("executing")
    case Aggregating => Some("aggregating")
    case _ => None
  }

  lemma EventSetsPhase(s: Summary, e: SseEvent)
    ensures ReplayEvent(s, e).phase == if PhaseSet(e.body).Some? then PhaseSet(e.body).value else s.phase
  {
  }

  lemma NamedPhases()
    ensures NamedPhase("task.created") == None && NamedPhase("task.completed_single") == None
    ensures NamedPhase("task.failed_single") == None && NamedPhase("node.completed") == None
    ensures NamedPhase("task.completed") == Some("completed") && NamedPhase("task.failed") == Some("failed")
    ensures NamedPhase("interrupt") == NamedPhase("hitl.request") == Some("hitl_waiting")
    ensures NamedPhase("task.planning") == Some("planning") && NamedPhase("task.plan_ready") == Some("planned")
    ensures NamedPhase("task.executing") == Some("executing")
    ensures NamedPhase("task.aggregating") == Some("aggregating")
  {
    TypesDiffer();
  }

  lemma PhaseNames(b: Body, dto: PersistedEvent)
    requires TypeName(b) == dto.eventType && Carries(b, dto.data, dto.legacy) && !b.Unknown?
    requires dto.eventType in KNOWN
    ensures PhaseOf(dto) == PhaseSet(b)
  {
    TypesDiffer();
    NamedPhases();
    KnownIsNotTransient(b);
  }

  lemma KnownIsNotTransient(b: Body)
    requires TypeName(b) in KNOWN
    ensures !IsTransient(b)
  {
    if IsTransient(b) {
      TransientNames(b);
    }
  }

  lemma RowSetsPhase(s: Summary, dto: PersistedEvent, e: SseEvent)
    requires Says(dto, e)
    ensures ReplayEvent(s, e).phase == if PhaseOf(dto).Some? then PhaseOf(dto).value else s.phase
  {
    EventSetsPhase(s, e);
    if dto.eventType in KNOWN {
      PhaseNames(e.body, dto);
    }
  }

  lemma RowAddsEvent(s: Summary, dto: PersistedEvent, e: SseEvent, rows: seq<PersistedEvent>)
    requires Says(dto, e) && OneEach(rows, s.events)
    ensures OneEach(rows + (if dto.eventType in KNOWN then [dto] else []), ReplayEvent(s, e).events)
  {
    KeptIffKnown(dto, e);
    ReplayEventKeeps(s, e);
  }

  /** A record that tells a history. */
  predicate Tells(s: Summary, dtos: seq<PersistedEvent>) {
    && s.result == ResultTold(dtos)
    && s.error == ErrorTold(dtos)
    && s.pendingInterrupt == InterruptTold(dtos)
    && s.pendingHitl == HitlTold(dtos)
    && s.phase == PhaseTold(dtos)
    && OneEach(KnownRows(dtos), s.events)
  }

  lemma TellsOneMore(s: Summary, dtos: seq<PersistedEvent>, e: SseEvent)
    requires dtos != [] && Tells(s, dtos[..|dtos| - 1]) && Says(dtos[|dtos| - 1], e)
    ensures Tells(ReplayEvent(s, e), dtos)
  {
    var dto := dtos[|dtos| - 1];
    RowSetsResult(s, dto, e);
    RowSetsError(s, dto, e);
    RowSetsInterrupt(s, dto, e);
    RowSetsHitl(s, dto, e);
    RowSetsPhase(s, dto, e);
    RowAddsEvent(s, dto, e, KnownRows(dtos[..|dtos| - 1]));
  }

  lemma {:induction false} ReplayTells(dtos: seq<PersistedEvent>)
    ensures Tells(Replayed(dtos), dtos)
  {
    if dtos == [] {
    } else {
      var n := |dtos| - 1;
      ReplayTells(dtos[..n]);
      RowSays(dtos[n]);
      TellsOneMore(Replayed(dtos[..n]), dtos, PersistedToSseEvent(dtos[n]));
    }
  }

  /** `loadThreadEvents`: the thread it builds has the result of the last
      completion, the error of the last failure, the value of the last interrupt,
      all HiTL requests, the phase of the last row that sets one, and one event
      for every row of a known type.  It agrees with the live fold, starts again
      from number 0, and its plan is the live one exactly under the stated
      condition. */
  method LoadThreadEvents(existingIntent: Option<string>, dtos: seq<PersistedEvent>) returns (thread: Thread)
    ensures Ascending(dtos) ==> forall intent :: Agrees(thread, Fold(EmptyThread(intent), dtos))
    ensures Tells(SummaryOf(thread), dtos)
    ensures SummaryOf(thread) == Replayed(dtos) && thread.lastSeq == 0 && thread.taskPlan == BulkPlan(dtos)
    ensures Ascending(dtos) ==> forall intent ::
      thread.taskPlan == Fold(EmptyThread(intent), dtos).taskPlan <==> PlanIsLast(dtos)
  {
    var s, intent, taskPlan := ReplayHistory(if existingIntent.Some? then existingIntent.value else "", dtos);
    thread := EmptyThread(intent).(
      events := s.events, phase := s.phase, taskPlan := taskPlan, pendingHitl := s.pendingHitl,
      pendingInterrupt := s.pendingInterrupt, result := s.result, error := s.error);
    ReplayTells(dtos);
    if Ascending(dtos) {
      forall any
        ensures Agrees(thread, Fold(EmptyThread(any), dtos))
        ensures thread.taskPlan == Fold(EmptyThread(any), dtos).taskPlan <==> PlanIsLast(dtos)
      {
        BulkAgrees(any, dtos, thread);
        PlansAgreeIff(any, dtos);
      }
    }
  }

  /** The live fold comes to the same, row by row. */
  lemma LiveTells(intent: string, dtos: seq<PersistedEvent>)
    requires Ascending(dtos)
    ensures Tells(SummaryOf(Fold(EmptyThread(intent), dtos)), dtos)
  {
    BulkEqualsLive(intent, dtos);
    ReplayTells(dtos);
  }
}
