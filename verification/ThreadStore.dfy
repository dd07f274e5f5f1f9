/** The client's thread store (`frontend/src/stores/thread-store.ts`): folding
    live events one by one, and replaying a persisted history in one go.

    Plans, HiTL requests and interrupt values are opaque texts.  `createdAt` and
    the heartbeat's clock reading are left out. */
module ThreadStore {
  import opened Wrappers

  type ThreadId = string
  type Json = string

  datatype Body =
    | Created(intent: string)
    | PhaseChange(newPhase: string, tasks: Option<Json>, totalCompleted: Option<int>, totalTasks: Option<int>)
    | Completed(result: Option<string>)
    | TaskFailed(error: Option<string>)
    | CompletedSingle(taskId: string, persona: string, summary: Option<string>)
    | FailedSingle(taskId: string, reason: string)
    | NodeCompleted(node: string)
    | Interrupt(value: Json)
    | Token(node: string, content: string)
    | Heartbeat
    | PlanningStarted
    | PlanReady(planId: string, taskCount: int)
    | ExecutingTask(taskId: string, persona: string)
    | Aggregating
    | ResultChunk(chunk: string)
    | PlanningChunk(chunk: string)
    | HitlRequested(request: Json)
    | Unknown(eventType: string)

  /** Transient events carry no sequence number. */
  datatype SseEvent = SseEvent(seqNo: Option<int>, body: Body)

  datatype Progress = Progress(completed: int, total: int)

  datatype Thread = Thread(
    intent: string,
    events: seq<SseEvent>,
    phase: string,
    taskPlan: Option<Json>,
    pendingHitl: seq<Json>,
    pendingInterrupt: Option<Json>,
    result: Option<string>,
    error: Option<string>,
    streamingPlan: string,
    streamingAggregate: string,
    activeNode: string,
    streamingResult: string,
    streamingPlanning: string,
    pendingIntent: Option<string>,
    progress: Option<Progress>,
    lastSeq: int)

  function EmptyThread(intent: string): Thread {
    Thread(intent, [], "created", None, [], None, None, None, "", "", "", "", "", None, None, 0)
  }

  /** JavaScript's `a || b` on strings. */
  function Or(a: string, b: string): string {
    if a == "" then b else a
  }

  function OrDefault(a: Option<string>, b: string): string {
    if a.None? then b else Or(a.value, b)
  }

  /** `a || null` */
  function NonEmpty(a: Option<string>): Option<string> {
    if a == Some("") then None else a
  }

  function WithPhase(t: Thread, phase: string, tasks: Option<Json>, done: Option<int>, total: Option<int>): Thread {
    var t1 := t.(phase := phase);
    var t2 := if phase == "planned" && tasks.Some? then t1.(taskPlan := tasks) else t1;
    var t3 := if phase == "executing" && total.Some?
      then t2.(progress := Some(Progress(if done.Some? then done.value else 0, total.value))) else t2;
    if phase == "aggregating" then t3.(streamingAggregate := "", streamingResult := "")
    else if phase == "planning" then t3.(streamingPlan := "", streamingPlanning := "")
    else t3
  }

  /** The switch of `appendEvent`, but for `events` and `lastSeq`. */
  function Updated(t: Thread, b: Body): Thread {
    match b
    case Created(intent) => t.(intent := Or(intent, t.intent), pendingIntent := None)
    case PhaseChange(phase, tasks, done, total) => WithPhase(t, phase, tasks, done, total)
    case Completed(result) =>
      t.(phase := "completed", result := NonEmpty(result), streamingResult := "", streamingAggregate := "")
    case TaskFailed(error) => t.(phase := "failed", error := NonEmpty(error))
    case Interrupt(value) => t.(phase := "hitl_waiting", pendingInterrupt := Some(value))
    case Token(node, content) =>
      if node == "plan" then
        t.(activeNode := node, streamingPlan := t.streamingPlan + content, streamingPlanning := t.streamingPlanning + content)
      else if node == "aggregate" then
        t.(activeNode := node, streamingAggregate := t.streamingAggregate + content, streamingResult := t.streamingResult + content)
      else t.(activeNode := node)
    case PlanningStarted => t.(phase := "planning")
    case PlanReady(_, _) => t.(phase := "planned")
    case ExecutingTask(_, _) => t.(phase := "executing")
    case Aggregating => t.(phase := "aggregating", streamingResult := "")
    case ResultChunk(chunk) =>
      t.(streamingResult := t.streamingResult + chunk, streamingAggregate := t.streamingAggregate + chunk)
    case PlanningChunk(chunk) =>
      t.(streamingPlanning := t.streamingPlanning + chunk, streamingPlan := t.streamingPlan + chunk)
    case HitlRequested(request) => t.(phase := "hitl_waiting", pendingHitl := t.pendingHitl + [request])
    case _ => t
  }

  /** Events of these kinds only update streaming state. */
  predicate IsTransient(b: Body) {
    b.Token? || b.Heartbeat? || b.ResultChunk? || b.PlanningChunk?
  }

  predicate IsDuplicate(t: Thread, e: SseEvent) {
    e.seqNo.Some? && 0 < e.seqNo.value <= t.lastSeq
  }

  /** `appendEvent` on one thread: duplicates by sequence number are dropped. */
  function Receive(t: Thread, e: SseEvent): Thread {
    if IsDuplicate(t, e) then t
    else
      Updated(t, e.body).(
        events := if IsTransient(e.body) then t.events else t.events + [e],
        lastSeq := if e.seqNo.Some? && e.seqNo.value > t.lastSeq then e.seqNo.value else t.lastSeq)
  }

  datatype Store = Store(threads: map<ThreadId, Thread>, activeThreadId: Option<ThreadId>, deleted: set<ThreadId>)

  function AppendEvent(s: Store, id: ThreadId, e: SseEvent): Store {
    if id in s.deleted then s
    else
      var t := if id in s.threads then s.threads[id]
        else EmptyThread(if e.body.Created? then e.body.intent else "");
      if IsDuplicate(t, e) then s
      else s.(threads := s.threads[id := Receive(t, e)],
              activeThreadId := if e.body.Created? && (s.activeThreadId == None || s.activeThreadId == Some(""))
                then Some(id) else s.activeThreadId)
  }

  function ReceiveAll(t: Thread, events: seq<SseEvent>): Thread {
    if events == [] then t else Receive(ReceiveAll(t, events[..|events| - 1]), events[|events| - 1])
  }

  function AppendAll(s: Store, id: ThreadId, events: seq<SseEvent>): Store {
    if events == [] then s else AppendEvent(AppendAll(s, id, events[..|events| - 1]), id, events[|events| - 1])
  }

  /** The thread the events of an id start from: a new one takes its intent from
      its first event. */
  function StartOf(s: Store, id: ThreadId, events: seq<SseEvent>): Thread
    requires events != []
  {
    if id in s.threads then s.threads[id]
    else EmptyThread(if events[0].body.Created? then events[0].body.intent else "")
  }

  predicate HasActive(s: Store) {
    s.activeThreadId.Some? && s.activeThreadId.value != ""
  }

  lemma AppendFollowsThread(s: Store, id: ThreadId, e: SseEvent)
    requires id !in s.deleted
    ensures AppendEvent(s, id, e).threads == s.threads[id := Receive(StartOf(s, id, [e]), e)]
    ensures AppendEvent(s, id, e).deleted == s.deleted
    ensures
      AppendEvent(s, id, e).activeThreadId ==
      if e.body.Created? && !HasActive(s) && !IsDuplicate(StartOf(s, id, [e]), e) then Some(id) else s.activeThreadId
  {
    if IsDuplicate(StartOf(s, id, [e]), e) {
      assert id in s.threads;
      assert s.threads[id := s.threads[id]] == s.threads;
    }
  }

  /** A deleted thread takes in nothing. */
  lemma {:induction false} DeletedTakesNothing(s: Store, id: ThreadId, events: seq<SseEvent>)
    requires id in s.deleted
    ensures AppendAll(s, id, events) == s
  {
    if events == [] {
    } else {
      DeletedTakesNothing(s, id, events[..|events| - 1]);
    }
  }

  /** What became of the store `s` after the events. */
  predicate Followed(s: Store, id: ThreadId, events: seq<SseEvent>, e: Store)
    requires events != []
  {
    && e.deleted == s.deleted
    && e.threads == s.threads[id := ReceiveAll(StartOf(s, id, events), events)]
    && (HasActive(s) ==> e.activeThreadId == s.activeThreadId)
    && (e.activeThreadId == s.activeThreadId || e.activeThreadId == Some(id))
    && (id !in s.threads && events[0].body.Created? && !HasActive(s) ==> e.activeThreadId == Some(id))
  }

  lemma FollowedFurther(s: Store, id: ThreadId, events: seq<SseEvent>, m: Store, e: SseEvent)
    requires events != [] && id !in s.deleted && Followed(s, id, events, m)
    ensures Followed(s, id, events + [e], AppendEvent(m, id, e))
  {
    assert (events + [e])[..|events|] == events;
    AppendFollowsThread(m, id, e);
    assert StartOf(s, id, events + [e]) == StartOf(s, id, events);
  }

  /** Events of one thread fold into that thread only, which is created by the
      first of them if need be.  The active thread stays, unless there is none and
      the events bring one about. */
  lemma {:induction false} StoreFollowsThread(s: Store, id: ThreadId, events: seq<SseEvent>)
    requires events != [] && id !in s.deleted
    ensures Followed(s, id, events, AppendAll(s, id, events))
    decreases |events|
  {
    var n := |events| - 1;
    var before := events[..n];
    assert events == before + [events[n]];
    if n == 0 {
      assert before == [] && events == [events[0]];
      AppendFollowsThread(s, id, events[0]);
    } else {
      StoreFollowsThread(s, id, before);
      FollowedFurther(s, id, before, AppendAll(s, id, before), events[n]);
    }
  }

  // ------------------------------------------------------- persisted history

  /** The fields of `payload.data` and the legacy fields of the payload itself. */
  datatype Data = Data(
    intent: Option<string>, phase: Option<string>, tasks: Option<Json>,
    totalCompleted: Option<int>, totalTasks: Option<int>,
    result: Option<string>, error: Option<string>,
    taskId: Option<string>, persona: Option<string>, summary: Option<string>,
    node: Option<string>, value: Option<Json>)

  datatype Legacy = Legacy(
    planId: Option<string>, taskCount: Option<int>,
    taskId: Option<string>, persona: Option<string>, request: Option<Json>)

  datatype PersistedEvent = PersistedEvent(seqNo: int, eventType: string, data: Data, legacy: Legacy)

  const UNKNOWN_INTERRUPT: Json := "{type: unknown, message: , options: []}"
  const EMPTY_REQUEST: Json := "{request_id: , hitl_type: approval, title: , description: }"

  function PersistedBody(ty: string, d: Data, l: Legacy): Body {
    if ty == "task.created" then Created(OrDefault(d.intent, ""))
    else if ty == "phase.change" then PhaseChange(OrDefault(d.phase, "unknown"), d.tasks, d.totalCompleted, d.totalTasks)
    else if ty == "task.completed" then Completed(NonEmpty(d.result))
    else if ty == "task.failed" then TaskFailed(NonEmpty(d.error))
    else if ty == "task.completed_single" then CompletedSingle(OrDefault(d.taskId, ""), OrDefault(d.persona, ""), d.summary)
    else if ty == "task.failed_single" then FailedSingle(OrDefault(d.taskId, ""), OrDefault(d.error, ""))
    else if ty == "node.completed" then NodeCompleted(OrDefault(d.node, ""))
    else if ty == "interrupt" then Interrupt(if d.value.Some? then d.value.value else UNKNOWN_INTERRUPT)
    else if ty == "task.planning" then PlanningStarted
    else if ty == "task.plan_ready" then PlanReady(OrDefault(l.planId, ""), if l.taskCount.Some? then l.taskCount.value else 0)
    else if ty == "task.executing" then
      ExecutingTask(OrDefault(d.taskId, OrDefault(l.taskId, "")), OrDefault(d.persona, OrDefault(l.persona, "")))
    else if ty == "task.aggregating" then Aggregating
    else if ty == "hitl.request" then HitlRequested(if l.request.Some? then l.request.value else EMPTY_REQUEST)
    else Heartbeat
  }

  function PersistedToSseEvent(dto: PersistedEvent): SseEvent {
    SseEvent(Some(dto.seqNo), PersistedBody(dto.eventType, dto.data, dto.legacy))
  }

  /** The live fold of a history. */
  function Fold(t: Thread, dtos: seq<PersistedEvent>): Thread {
    if dtos == [] then t
    else Receive(Fold(t, dtos[..|dtos| - 1]), PersistedToSseEvent(dtos[|dtos| - 1]))
  }

  predicate Ascending(dtos: seq<PersistedEvent>) {
    && (forall i :: 0 <= i < |dtos| ==> 0 < dtos[i].seqNo)
    && (forall i, j :: 0 <= i < j < |dtos| ==> dtos[i].seqNo < dtos[j].seqNo)
  }

  /** Where the two paths must agree. */
  predicate Agrees(a: Thread, b: Thread) {
    && a.events == b.events
    && a.phase == b.phase
    && a.result == b.result
    && a.error == b.error
    && a.pendingInterrupt == b.pendingInterrupt
    && a.pendingHitl == b.pendingHitl
  }

  lemma {:induction false} FoldLastSeq(intent: string, dtos: seq<PersistedEvent>)
    requires Ascending(dtos)
    ensures Fold(EmptyThread(intent), dtos).lastSeq == if dtos == [] then 0 else dtos[|dtos| - 1].seqNo
  {
    if dtos == [] {
    } else {
      FoldLastSeq(intent, dtos[..|dtos| - 1]);
    }
  }

  /** With ascending positive numbers the fold drops nothing. */
  lemma FoldStep(intent: string, dtos: seq<PersistedEvent>, k: nat)
    requires Ascending(dtos) && k < |dtos|
    ensures
      var t, e := Fold(EmptyThread(intent), dtos[..k]), PersistedToSseEvent(dtos[k]);
      && !IsDuplicate(t, e)
      && Fold(EmptyThread(intent), dtos[..k + 1]) == Receive(t, e)
  {
    FoldLastSeq(intent, dtos[..k]);
    assert dtos[..k + 1][..k] == dtos[..k];
  }

  /** The local variables of the replay loop that end up in the thread. */
  datatype Summary = Summary(
    events: seq<SseEvent>, phase: string, result: Option<string>, error: Option<string>,
    pendingInterrupt: Option<Json>, pendingHitl: seq<Json>)

  function SummaryOf(t: Thread): Summary {
    Summary(t.events, t.phase, t.result, t.error, t.pendingInterrupt, t.pendingHitl)
  }

  /** Tokens, chunks and heartbeats leave the record of a thread alone. */
  lemma TransientKeepsRecord(t: Thread, e: SseEvent)
    requires IsTransient(e.body)
    ensures SummaryOf(Receive(t, e)) == SummaryOf(t)
  {
  }

  lemma SameRecordUpdate(a: Thread, b: Thread, body: Body)
    requires SummaryOf(a) == SummaryOf(b)
    ensures SummaryOf(Updated(a, body)) == SummaryOf(Updated(b, body))
  {
  }

  lemma ReceivedRecord(t: Thread, e: SseEvent)
    requires !IsDuplicate(t, e)
    ensures
      SummaryOf(Receive(t, e)) ==
      SummaryOf(Updated(t, e.body)).(events := if IsTransient(e.body) then t.events else t.events + [e])
  {
  }

  /** What an event does to the record depends on the record only. */
  lemma SameRecordStep(a: Thread, b: Thread, e: SseEvent)
    requires SummaryOf(a) == SummaryOf(b) && !IsDuplicate(a, e) && !IsDuplicate(b, e)
    ensures SummaryOf(Receive(a, e)) == SummaryOf(Receive(b, e))
  {
    SameRecordUpdate(a, b, e.body);
    ReceivedRecord(a, e);
    ReceivedRecord(b, e);
  }

  function Concat(xs: seq<string>): string {
    if xs == [] then "" else Concat(xs[..|xs| - 1]) + xs[|xs| - 1]
  }

  function Tokens(node: string, contents: seq<string>): seq<SseEvent> {
    seq(|contents|, i requires 0 <= i < |contents| => SseEvent(None, Token(node, contents[i])))
  }

  lemma TokenStep(t: Thread, node: string, content: string)
    ensures
      var plan := if node == "plan" then content else "";
      var report := if node == "aggregate" then content else "";
      Receive(t, SseEvent(None, Token(node, content))) ==
      t.(activeNode := node,
         streamingPlan := t.streamingPlan + plan, streamingPlanning := t.streamingPlanning + plan,
         streamingAggregate := t.streamingAggregate + report, streamingResult := t.streamingResult + report)
  {
    assert t.streamingPlan + "" == t.streamingPlan && t.streamingPlanning + "" == t.streamingPlanning;
    assert t.streamingAggregate + "" == t.streamingAggregate && t.streamingResult + "" == t.streamingResult;
  }

  lemma Assoc(a: string, b: string, c: string)
    ensures a + b + c == a + (b + c)
  {
  }

  /** Tokens of the planning node add up to the plan's text and touch nothing
      else but the active node. */
  lemma {:induction false} PlanTokensAddUp(t: Thread, contents: seq<string>)
    requires contents != []
    ensures
      var text := Concat(contents);
      ReceiveAll(t, Tokens("plan", contents)) ==
      t.(activeNode := "plan", streamingPlan := t.streamingPlan + text, streamingPlanning := t.streamingPlanning + text)
    decreases |contents|
  {
    var n := |contents| - 1;
    var before := contents[..n];
    var all := Tokens("plan", contents);
    assert all[..n] == Tokens("plan", before);
    if n > 0 {
      PlanTokensAddUp(t, before);
    } else {
      assert t.streamingPlan + "" == t.streamingPlan && t.streamingPlanning + "" == t.streamingPlanning;
    }
    TokenStep(ReceiveAll(t, all[..n]), "plan", contents[n]);
    Assoc(t.streamingPlan, Concat(before), contents[n]);
    Assoc(t.streamingPlanning, Concat(before), contents[n]);
  }

  /** The switch of the replay loop. */
  function ReplayBody(s: Summary, b: Body): Summary {
    match b
    case PhaseChange(p, _, _, _) => s.(phase := p)
    case Completed(r) => s.(phase := "completed", result := r)
    case TaskFailed(e) => s.(phase := "failed", error := e)
    case Interrupt(v) => s.(phase := "hitl_waiting", pendingInterrupt := Some(v))
    case HitlRequested(r) => s.(phase := "hitl_waiting", pendingHitl := s.pendingHitl + [r])
    case PlanningStarted => s.(phase := "planning")
    case PlanReady(_, _) => s.(phase := "planned")
    case ExecutingTask(_, _) => s.(phase := "executing")
    case Aggregating => s.(phase := "aggregating")
    case _ => s
  }

  function ReplayEvent(s: Summary, e: SseEvent): Summary {
    if IsTransient(e.body) then s else ReplayBody(s.(events := s.events + [e]), e.body)
  }

  function Replayed(dtos: seq<PersistedEvent>): Summary {
    if dtos == [] then SummaryOf(EmptyThread(""))
    else ReplayEvent(Replayed(dtos[..|dtos| - 1]), PersistedToSseEvent(dtos[|dtos| - 1]))
  }

  /** Empty results and errors are left out before an event is dispatched. */
  predicate Tidy(b: Body) {
    && (b.Completed? ==> b.result != Some(""))
    && (b.TaskFailed? ==> b.error != Some(""))
  }

  lemma PersistedIsTidy(dto: PersistedEvent)
    ensures Tidy(PersistedToSseEvent(dto).body)
  {
  }

  lemma LiveIsReplay(t: Thread, e: SseEvent)
    requires !IsDuplicate(t, e) && Tidy(e.body)
    ensures SummaryOf(Receive(t, e)) == ReplayEvent(SummaryOf(t), e)
  {
  }

  /** A live update and a replayed event have the same effect on the summary. */
  lemma UpdateIsReplay(t: Thread, dto: PersistedEvent)
    requires !IsDuplicate(t, PersistedToSseEvent(dto))
    ensures SummaryOf(Receive(t, PersistedToSseEvent(dto))) == ReplayEvent(SummaryOf(t), PersistedToSseEvent(dto))
  {
    PersistedIsTidy(dto);
    LiveIsReplay(t, PersistedToSseEvent(dto));
  }

  /** For every history with ascending positive numbers the bulk load and the
      live fold agree. */
  lemma {:induction false} BulkEqualsLive(intent: string, dtos: seq<PersistedEvent>)
    requires Ascending(dtos)
    ensures Replayed(dtos) == SummaryOf(Fold(EmptyThread(intent), dtos))
  {
    if dtos == [] {
    } else {
      var n := |dtos| - 1;
      BulkEqualsLive(intent, dtos[..n]);
      FoldStep(intent, dtos, n);
      assert dtos[..n + 1] == dtos;
      UpdateIsReplay(Fold(EmptyThread(intent), dtos[..n]), dtos[n]);
    }
  }

  lemma BulkAgrees(intent: string, dtos: seq<PersistedEvent>, thread: Thread)
    requires Ascending(dtos) && SummaryOf(thread) == Replayed(dtos)
    ensures Agrees(thread, Fold(EmptyThread(intent), dtos))
  {
    BulkEqualsLive(intent, dtos);
  }

  // ------------------------------------------------ where the two paths part

  /** A phase change that brings tasks, as a plan or as a list of ids. */
  predicate BringsTasks(dto: PersistedEvent) {
    dto.eventType == "phase.change" && dto.data.tasks.Some?
  }

  predicate BringsPlan(dto: PersistedEvent) {
    BringsTasks(dto) && dto.data.phase == Some("planned")
  }

  /** The tasks of the last phase change that brought any. */
  function BulkPlan(dtos: seq<PersistedEvent>): Option<Json> {
    if dtos == [] then None
    else
      var last := dtos[|dtos| - 1];
      if BringsTasks(last) then last.data.tasks else BulkPlan(dtos[..|dtos| - 1])
  }

  /** The tasks of the last change to "planned" that brought any. */
  function LivePlan(dtos: seq<PersistedEvent>): Option<Json> {
    if dtos == [] then None
    else
      var last := dtos[|dtos| - 1];
      if BringsPlan(last) then last.data.tasks else LivePlan(dtos[..|dtos| - 1])
  }

  /** A body changes the plan exactly when it changes the phase to "planned". */
  lemma PlanStep(t: Thread, dto: PersistedEvent)
    requires !IsDuplicate(t, PersistedToSseEvent(dto))
    ensures
      Receive(t, PersistedToSseEvent(dto)).taskPlan == if BringsPlan(dto) then dto.data.tasks else t.taskPlan
  {
  }

  lemma {:induction false} FoldKeepsLivePlan(intent: string, dtos: seq<PersistedEvent>)
    requires Ascending(dtos)
    ensures Fold(EmptyThread(intent), dtos).taskPlan == LivePlan(dtos)
  {
    if dtos == [] {
    } else {
      var n := |dtos| - 1;
      FoldKeepsLivePlan(intent, dtos[..n]);
      FoldStep(intent, dtos, n);
      assert dtos[..n + 1] == dtos;
      PlanStep(Fold(EmptyThread(intent), dtos[..n]), dtos[n]);
    }
  }

  /** Row k is the last to bring tasks. */
  predicate LastTasks(dtos: seq<PersistedEvent>, k: int) {
    0 <= k < |dtos| && BringsTasks(dtos[k]) && forall i :: k < i < |dtos| ==> !BringsTasks(dtos[i])
  }

  /** Row j is the last to bring a plan. */
  predicate LastPlan(dtos: seq<PersistedEvent>, j: int) {
    0 <= j < |dtos| && BringsPlan(dtos[j]) && forall i :: j < i < |dtos| ==> !BringsPlan(dtos[i])
  }

  lemma {:induction false} BulkPlanAt(dtos: seq<PersistedEvent>, k: int)
    requires LastTasks(dtos, k)
    ensures BulkPlan(dtos) == dtos[k].data.tasks
  {
    var n := |dtos| - 1;
    if k == n {
    } else {
      BulkPlanAt(dtos[..n], k);
    }
  }

  lemma {:induction false} LivePlanAt(dtos: seq<PersistedEvent>) returns (j: int)
    ensures LivePlan(dtos).None? <==> j == -1
    ensures j == -1 || (LastPlan(dtos, j) && LivePlan(dtos) == dtos[j].data.tasks)
    ensures j == -1 ==> forall i :: 0 <= i < |dtos| ==> !BringsPlan(dtos[i])
  {
    if dtos == [] {
      j := -1;
    } else {
      var n := |dtos| - 1;
      if BringsPlan(dtos[n]) {
        j := n;
      } else {
        j := LivePlanAt(dtos[..n]);
      }
    }
  }

  lemma {:induction false} NoTasksNoPlan(dtos: seq<PersistedEvent>) returns (k: int)
    ensures k == -1 ==> BulkPlan(dtos) == None && LivePlan(dtos) == None
    ensures k == -1 ==> forall i :: 0 <= i < |dtos| ==> !BringsTasks(dtos[i])
    ensures k == -1 || LastTasks(dtos, k)
  {
    if dtos == [] {
      k := -1;
    } else {
      var n := |dtos| - 1;
      if BringsTasks(dtos[n]) {
        k := n;
      } else {
        k := NoTasksNoPlan(dtos[..n]);
      }
    }
  }

  /** What a round's own phase change must not do: be the last to bring tasks,
      and bring others than the last plan did. */
  ghost predicate PlanIsLast(dtos: seq<PersistedEvent>) {
    forall k :: LastTasks(dtos, k) ==>
      BringsPlan(dtos[k]) || exists j :: LastPlan(dtos, j) && dtos[j].data.tasks == dtos[k].data.tasks
  }

  lemma BulkIsLiveIff(dtos: seq<PersistedEvent>)
    ensures BulkPlan(dtos) == LivePlan(dtos) <==> PlanIsLast(dtos)
  {
    var k := NoTasksNoPlan(dtos);
    var j := LivePlanAt(dtos);
    if k >= 0 {
      BulkPlanAt(dtos, k);
      assert LivePlan(dtos) == BulkPlan(dtos) ==> j >= 0;
    }
  }

  /** The bulk load and the live fold keep the same plan exactly when the last
      phase change that brought tasks is to "planned", or brought the tasks of
      the last one that is. */
  lemma PlansAgreeIff(intent: string, dtos: seq<PersistedEvent>)
    requires Ascending(dtos)
    ensures BulkPlan(dtos) == Fold(EmptyThread(intent), dtos).taskPlan <==> PlanIsLast(dtos)
  {
    FoldKeepsLivePlan(intent, dtos);
    BulkIsLiveIff(dtos);
  }

  /** A history in which a round is announced after its plan, with a list of ids
      that is not the plan, as every round is: the plans differ. */
  lemma PlansMayDiffer(intent: string, dtos: seq<PersistedEvent>, k: nat)
    requires Ascending(dtos) && LastTasks(dtos, k) && dtos[k].data.phase == Some("executing")
    requires forall j :: 0 <= j < k && BringsPlan(dtos[j]) ==> dtos[j].data.tasks != dtos[k].data.tasks
    ensures BulkPlan(dtos) == dtos[k].data.tasks != Fold(EmptyThread(intent), dtos).taskPlan
  {
    BulkPlanAt(dtos, k);
    PlansAgreeIff(intent, dtos);
  }

  /** The SSE events of a history. */
  function EventsOf(dtos: seq<PersistedEvent>): (events: seq<SseEvent>)
    ensures |events| == |dtos| && forall i :: 0 <= i < |dtos| ==> events[i] == PersistedToSseEvent(dtos[i])
  {
    seq(|dtos|, i requires 0 <= i < |dtos| => PersistedToSseEvent(dtos[i]))
  }

  predicate AscendingEvents(events: seq<SseEvent>) {
    && (forall i :: 0 <= i < |events| ==> events[i].seqNo.Some? && 0 < events[i].seqNo.value)
    && (forall i, j :: 0 <= i < j < |events| ==> events[i].seqNo.value < events[j].seqNo.value)
  }

  predicate IsPast(e: SseEvent, cursor: int) {
    e.seqNo.Some? && e.seqNo.value > cursor
  }

  /** The events a server replays to a client with this cursor. */
  function Past(events: seq<SseEvent>, cursor: int): seq<SseEvent> {
    if events == [] then []
    else
      var last := events[|events| - 1];
      Past(events[..|events| - 1], cursor) + if IsPast(last, cursor) then [last] else []
  }

  /** The events that are kept in the thread. */
  function Visible(events: seq<SseEvent>): seq<SseEvent> {
    if events == [] then []
    else
      var last := events[|events| - 1];
      Visible(events[..|events| - 1]) + if IsTransient(last.body) then [] else [last]
  }

  function Larger(a: int, b: int): int {
    if a < b then b else a
  }

  lemma VisibleSnoc(events: seq<SseEvent>, e: SseEvent)
    ensures Visible(events + [e]) == Visible(events) + if IsTransient(e.body) then [] else [e]
  {
    assert (events + [e])[..|events|] == events;
  }

  lemma ReceiveAllSnoc(t: Thread, events: seq<SseEvent>, e: SseEvent)
    ensures ReceiveAll(t, events + [e]) == Receive(ReceiveAll(t, events), e)
  {
    assert (events + [e])[..|events|] == events;
  }

  lemma ReceiveEvents(t: Thread, e: SseEvent)
    ensures Receive(t, e).events == t.events + if IsDuplicate(t, e) || IsTransient(e.body) then [] else [e]
    ensures Receive(t, e).lastSeq == if IsPast(e, t.lastSeq) then e.seqNo.value else t.lastSeq
  {
  }

  lemma PastStep(events: seq<SseEvent>, cursor: int)
    requires events != []
    ensures
      var n := |events| - 1;
      Past(events, cursor) ==
      if IsPast(events[n], cursor) then Past(events[..n], cursor) + [events[n]] else Past(events[..n], cursor)
  {
  }

  /** One more event reaches a thread that has appended `shown` so far. */
  lemma TakeStep(t: Thread, now: Thread, last: SseEvent, shown: seq<SseEvent>)
    requires now.events == t.events + shown
    requires last.seqNo.Some? && last.seqNo.value > 0
    requires now.lastSeq == t.lastSeq || t.lastSeq < now.lastSeq < last.seqNo.value
    ensures
      var e := Receive(now, last);
      && e.events ==
        t.events + (if IsPast(last, t.lastSeq) && !IsTransient(last.body) then shown + [last] else shown)
      && e.lastSeq == if IsPast(last, t.lastSeq) then last.seqNo.value else t.lastSeq
  {
    ReceiveEvents(now, last);
    assert t.events + shown + [last] == t.events + (shown + [last]);
  }

  /** The last number a thread has, after what is past both marks. */
  function LastOf(t: Thread, events: seq<SseEvent>, cursor: nat): int {
    if events != [] && IsPast(events[|events| - 1], Larger(cursor, t.lastSeq))
    then events[|events| - 1].seqNo.value else t.lastSeq
  }

  /** Where redelivery up to some row leaves a thread. */
  predicate Stands(t: Thread, now: Thread, events: seq<SseEvent>, cursor: nat) {
    && now.events == t.events + Visible(Past(events, Larger(cursor, t.lastSeq)))
    && now.lastSeq == LastOf(t, events, cursor)
  }

  lemma StandsOneMore(t: Thread, now: Thread, events: seq<SseEvent>, cursor: nat)
    requires AscendingEvents(events) && events != []
    requires Stands(t, now, events[..|events| - 1], cursor)
    ensures
      var last := events[|events| - 1];
      Stands(t, if IsPast(last, cursor) then Receive(now, last) else now, events, cursor)
  {
    var n := |events| - 1;
    var last, limit := events[n], Larger(cursor, t.lastSeq);
    PastStep(events, limit);
    if IsPast(last, cursor) {
      var shown := Visible(Past(events[..n], limit));
      VisibleSnoc(Past(events[..n], limit), last);
      TakeStep(t, now, last, shown);
      assert shown + [] == shown;
    }
  }

  /** Redelivery to any thread: what is appended are the events past both the
      cursor and the thread's own high-water mark. */
  lemma {:induction false} Redelivered(t: Thread, events: seq<SseEvent>, cursor: nat)
    requires AscendingEvents(events)
    ensures Stands(t, ReceiveAll(t, Past(events, cursor)), events, cursor)
  {
    if events == [] {
    } else {
      var n := |events| - 1;
      var sent := Past(events[..n], cursor);
      Redelivered(t, events[..n], cursor);
      PastStep(events, cursor);
      ReceiveAllSnoc(t, sent, events[n]);
      StandsOneMore(t, ReceiveAll(t, sent), events, cursor);
    }
  }

  /** Nothing past the cursor is kept in a thread. */
  predicate AllHidden(events: seq<SseEvent>, cursor: int) {
    forall i :: 0 <= i < |events| && IsPast(events[i], cursor) ==> IsTransient(events[i].body)
  }

  lemma AllHiddenStep(events: seq<SseEvent>, cursor: int)
    requires events != []
    ensures
      var n := |events| - 1;
      AllHidden(events, cursor) <==>
      AllHidden(events[..n], cursor) && (IsPast(events[n], cursor) ==> IsTransient(events[n].body))
  {
    var n := |events| - 1;
    assert forall i :: 0 <= i < n ==> events[..n][i] == events[i];
  }

  lemma {:induction false} NothingVisibleIff(events: seq<SseEvent>, cursor: int)
    ensures Visible(Past(events, cursor)) == [] <==> AllHidden(events, cursor)
  {
    if events == [] {
    } else {
      var n := |events| - 1;
      NothingVisibleIff(events[..n], cursor);
      AllHiddenStep(events, cursor);
      PastStep(events, cursor);
      VisibleSnoc(Past(events[..n], cursor), events[n]);
    }
  }

  lemma ReplayEventKeeps(s: Summary, e: SseEvent)
    ensures ReplayEvent(s, e).events == s.events + if IsTransient(e.body) then [] else [e]
  {
  }

  lemma {:induction false} ReplayedEvents(dtos: seq<PersistedEvent>)
    ensures Replayed(dtos).events == Visible(EventsOf(dtos))
  {
    if dtos == [] {
    } else {
      var n := |dtos| - 1;
      ReplayedEvents(dtos[..n]);
      assert EventsOf(dtos)[..n] == EventsOf(dtos[..n]);
      ReplayEventKeeps(Replayed(dtos[..n]), EventsOf(dtos)[n]);
    }
  }

  lemma HistoryAscends(dtos: seq<PersistedEvent>)
    requires Ascending(dtos)
    ensures AscendingEvents(EventsOf(dtos))
  {
  }

  /** A thread as the bulk load builds it holds every event and starts from
      number 0: the events past the client's cursor are appended a second time,
      and nothing is repeated exactly when they are all transient. */
  lemma LoadedHistoryIsRepeated(thread: Thread, dtos: seq<PersistedEvent>, cursor: nat)
    requires Ascending(dtos) && SummaryOf(thread) == Replayed(dtos) && thread.lastSeq == 0
    ensures
      var events := EventsOf(dtos);
      var e := ReceiveAll(thread, Past(events, cursor));
      && thread.events == Visible(events)
      && e.events == thread.events + Visible(Past(events, cursor))
      && (e.events == thread.events <==> AllHidden(events, cursor))
  {
    HistoryAscends(dtos);
    Redelivered(thread, EventsOf(dtos), cursor);
    ReplayedEvents(dtos);
    NothingVisibleIff(EventsOf(dtos), cursor);
  }

  /** The switch in the replay loop. */
  method ReplaySwitch(event: SseEvent, before: Summary, intentSoFar: string, planSoFar: Option<Json>)
    returns (summary: Summary, intent: string, taskPlan: Option<Json>)
    ensures summary == ReplayEvent(before, event)
    ensures intentSoFar != "" ==> intent == intentSoFar
    ensures
      taskPlan == if event.body.PhaseChange? && event.body.tasks.Some? then event.body.tasks else planSoFar
  {
    summary, intent, taskPlan := before, intentSoFar, planSoFar;
    if IsTransient(event.body) {
      return;
    }
    summary := summary.(events := summary.events + [event]);
    match event.body
    case Created(i) =>
      if intent == "" {
        intent := i;
      }
    case PhaseChange(p, tasks, _, _) =>
      summary := summary.(phase := p);
      if tasks.Some? {
        taskPlan := tasks;
      }
    case Completed(r) => summary := summary.(phase := "completed", result := r);
    case TaskFailed(e) => summary := summary.(phase := "failed", error := e);
    case Interrupt(v) => summary := summary.(phase := "hitl_waiting", pendingInterrupt := Some(v));
    case HitlRequested(r) => summary := summary.(phase := "hitl_waiting", pendingHitl := summary.pendingHitl + [r]);
    case PlanningStarted => summary := summary.(phase := "planning");
    case PlanReady(_, _) => summary := summary.(phase := "planned");
    case ExecutingTask(_, _) => summary := summary.(phase := "executing");
    case Aggregating => summary := summary.(phase := "aggregating");
    case _ =>
  }

  /** The replay loop of `loadThreadEvents` over its local variables, which are
      kept in one record. */
  method ReplayHistory(existingIntent: string, dtos: seq<PersistedEvent>)
    returns (summary: Summary, intent: string, taskPlan: Option<Json>)
    ensures summary == Replayed(dtos) && taskPlan == BulkPlan(dtos)
    ensures existingIntent != "" ==> intent == existingIntent
  {
    summary := Summary([], "created", None, None, None, []);
    intent, taskPlan := existingIntent, None;
    for k := 0 to |dtos|
      invariant summary == Replayed(dtos[..k]) && taskPlan == BulkPlan(dtos[..k])
      invariant existingIntent != "" ==> intent == existingIntent
    {
      ReplayedStep(dtos, k);
      var event := PersistedToSseEvent(dtos[k]);
      summary, intent, taskPlan := ReplaySwitch(event, summary, intent, taskPlan);
    }
    assert dtos[..|dtos|] == dtos;
  }

  lemma ReplayedStep(dtos: seq<PersistedEvent>, k: nat)
    requires k < |dtos|
    ensures Replayed(dtos[..k + 1]) == ReplayEvent(Replayed(dtos[..k]), PersistedToSseEvent(dtos[k]))
    ensures BulkPlan(dtos[..k + 1]) == if BringsTasks(dtos[k]) then dtos[k].data.tasks else BulkPlan(dtos[..k])
  {
    assert dtos[..k + 1][..k] == dtos[..k];
  }
}
