# Verification of the Usami task engine

A Dafny model of the parts of Usami whose correctness rests on reasoning rather
than on a library, with proofs. `dafny verify dfyconfig.toml` checks everything.

* **Plan engine.** A plan is a DAG of tasks. It is validated (`GraphSearch`,
  `PlanValidator`), its ids are prefixed in place (`Prefixing`), and it is run by
  the execute/review loop (`Execution`, `Schedule`, `Layers`, `Dataflow`) inside
  the five-node graph (`BossGraph`). `PersonaInput` says what each persona is
  told, and `TurnRuns` follows whole turns from planning to the end. A persona is
  an uninterpreted function of the task and the context built from its
  dependencies' outputs, and it may raise. The user's decisions, the planner's
  output and the aggregation text are arbitrary inputs of each node.
* **Events.** Sequence numbers are allocated under races (`EventLog`), sent by
  "LISTEN, then SELECT, then drain with deduplication" (`EventStream`,
  `StreamDelivery`, `TransientDelivery`), printed and parsed (`SseWire`, after
  sections 9.2.5 and 9.2.6 of the WHATWG HTML Standard), and folded by the client
  (`ThreadStore`, `LiveThread`, and `HistoryMeaning` for stored histories).
  `EndToEnd` puts server, connection, client cursor and store together.
* **Worker claims.** Status rows change by compare-and-set from any number of
  workers and API calls (`WorkerClaims`, `TaskTables`). Every SQL statement is
  one step.
* **Bounded objects.** The circuit breaker and its retry loop (`Breaker`) and the
  notification list (`Notifications`). Time is a parameter.

Protocols are step systems: a state, the steps enabled in it and a function that
applies one, so that a statement about `Runs` holds for every interleaving. The
methods of classes that the source changes in place are tied to those functions
by their `ensures`. Fields described as history are never read by the operations.

## Where the code differs from its comments and documents

* `docs/architecture-v2.md:178` calls the sequence number per-user; the code
  allocates and deduplicates it per thread, and so does the model.
* `backend/worker/main.py:320` says each new task resets the state. The reducers
  merge and append, so nothing is cleared; what makes follow-ups work is the id
  prefix (`Prefixing.EarlierTurnsDoNotMatter`, `BossGraph.NewPlanIsFresh`), as long as
  no prefix begins with another one and its separator (`Prefixing.PrefixLengthMatters`).
* After a cancel in planning, validation replaces the final result by its own
  message (`backend/agents/nodes.py:306-312`); the model does too, and
  `TurnRuns.CancelMessage` says when.
* The preview check measures depth on plans the user approved in spite of a cycle
  (`backend/core/plan_validator.py:98-100`). With at most five tasks that recursion
  has no end; in `BossGraph` the node raises there.
* Resume delivery is three statements outside a transaction
  (`backend/worker/main.py:388-413`). At most one delivery holds only if claims are
  prompt, and `WorkerClaims` gives the run in which it fails.
* The breaker can come to refuse for good: exactly when is
  `Breaker.RefusesAlwaysIffStuck`, and `Breaker.EveryBreakerCanStick` and
  `Breaker.OverlapRunSticks` are runs that lead there.
* A bulk load keeps the task ids of the last round as the plan, a live fold the
  plan itself (`ThreadStore.PlansAgreeIff`).

## Model

| member | source | states |
|---|---|---|
| `GraphSearch.CycleSearch.Dfs` | backend/core/plan_validator.py:109-124 | the recursive search ends; if it reports a find, the path is a walk without repetition that closes on itself; if not, the path is as before and everything reachable is finished in an order that every edge descends |
| `GraphSearch.CycleSearch.Push` | backend/core/plan_validator.py:110-112 | entering a node keeps the invariant: the path is a walk without repetition that lists exactly the recursion stack |
| `GraphSearch.CycleSearch.Pop` | backend/core/plan_validator.py:122-124 | leaving a node whose successors are all finished keeps that invariant and finishes it after them |
| `GraphSearch.FindCycle` | backend/core/plan_validator.py:126-133 | started from every key, the search answers none exactly when the graph is acyclic, and a simple cycle otherwise |
| `GraphSearch.ClosingPathHoldsCycle` | backend/core/plan_validator.py:128-131 | cut at the first occurrence of its last node, the path the search leaves is a closed walk whose nodes after the first are distinct |
| `PlanValidation.DetectCycle` | backend/core/plan_validator.py:102-133 | answers none exactly when the dependency graph is acyclic; otherwise a real simple cycle along dependency edges, first node equal to last |
| `GraphSearch.DepthSearch.DepthOf` | backend/core/plan_validator.py:138-149 | on an acyclic graph the memoised recursion ends with the length of a longest dependency chain, and its cache stays right |
| `Graphs.DepthDefinedIffNoCycle` | backend/core/plan_validator.py:140-149 | a longest chain from a node exists exactly when no cycle can be reached from it, so the recursion has an answer on no other node |
| `Graphs.AcyclicIffNoneReached` | backend/core/plan_validator.py:135-151 | no task can reach a cycle, so that the recursion answers for every one, exactly when the dependency graph is acyclic |
| `PlanValidation.MaxDependencyDepth` | backend/core/plan_validator.py:135-151 | some dependency chain starting at a task has this many edges and none has more; 0 for no tasks |
| `PlanValidation.DepthBelowTaskCount` | backend/core/plan_validator.py:135-151 | in a validated plan every depth is below the number of tasks |
| `PlanValidation.IdCount` | backend/core/plan_validator.py:49-50 | comparing the number of ids with the number of distinct ids decides exactly whether the ids are unique |
| `PlanValidation.RepeatedIds` | backend/core/plan_validator.py:51-52 | exactly the ids that two tasks share |
| `PlanValidation.UnknownPersonas` | backend/core/plan_validator.py:54-61 | an error for exactly the tasks assigned to a persona that does not exist, naming it |
| `PlanValidation.UnknownDependencies` | backend/core/plan_validator.py:63-70 | an error for exactly the dependencies that are no task of the plan |
| `PlanValidation.ErrorInvalidates` | backend/core/plan_validator.py:72-85 | a plan of which an accurate error can be reported is not valid |
| `PlanValidation.PlanValidator.Validate` | backend/core/plan_validator.py:34-85 | accepts exactly the plans that have tasks, unique ids, existing personas, known dependencies and no cycle; every error reported is accurate and every accurate one other than a cycle is reported |
| `PlanValidation.PlanValidator.ShouldRequireHitlPreview` | backend/core/plan_validator.py:87-100 | asks for a preview exactly when there are more than five tasks or a dependency chain of four edges |
| `Plans.GetReadyTasks` | backend/core/state.py:52-62 | exactly the tasks not completed whose dependencies all are |
| `Execution.Gather` | backend/agents/nodes.py:485-487 | every ready task is run on the outputs from before the round, whatever the others produce |
| `Execution.CollectResults` | backend/agents/nodes.py:489-495 | the loop over the gathered results fills the dict in which a later result wins and lists the ids in order |
| `Execution.ExecuteNode` | backend/agents/nodes.py:362-503 | the two loops produce an update whose merge by the reducers is the round the lemmas are about |
| `Execution.ExecuteEffect` | backend/agents/nodes.py:386-503 | a round completes exactly the ready ids, gives exactly them an output, and leaves every output there was untouched, although the merging reducer lets the new value win |
| `Execution.RerunIsHarmless` | backend/agents/nodes.py:409-412 | a round restarted after its outputs were merged but before its ids were appended calls no persona and reaches the same state as the uninterrupted round |
| `Schedule.NothingReadyIffClosed` | backend/core/state.py:58-62 | the loop stops exactly when the completed set is closed under "all dependencies completed" |
| `Schedule.LoopIsLeastFixedPoint` | backend/agents/boss.py:129-143 | for any plan, valid or approved anyway, the loop stops within one round per distinct id, and the completed set is the least one that contains what was completed and is closed under "all dependencies completed" |
| `Schedule.LeftOutExactly` | backend/core/state.py:52-62 | with unique ids, the tasks left out are exactly the uncompleted ones from which a cycle or an unknown id can be reached |
| `Fixpoints.LeftOutIffBlocked` | backend/core/state.py:58-62 | outside the least closed set of a graph lie exactly the nodes that reach a cycle or an unknown node |
| `Layers.RunsOnceAtItsDepth` | backend/agents/nodes.py:386-503 | from a fresh validated plan, every task's persona is called exactly once, in the round numbered by its depth, and all its dependencies have outputs then |
| `Layers.RoundsAreDepth` | backend/agents/boss.py:129-143 | the execute node runs tasks in exactly one round more than the longest dependency chain has edges, and then every task is completed with an output |
| `Layers.LoopCallsEveryTask` | backend/agents/nodes.py:362-503 | over the whole loop the multiset of personas called is the multiset of tasks |
| `Dataflow.MeaningSolves` | backend/agents/nodes.py:99-113 | the outputs defined by recursion over the dependencies satisfy, for every task, the equation "persona applied to the context built from the outputs of its dependencies" |
| `Dataflow.SolutionIsUnique` | backend/agents/nodes.py:99-113 | those equations have no other solution |
| `Dataflow.ParallelIsDataflow` | backend/agents/nodes.py:405-503 | for every persona function and every fresh validated plan, the outputs after the parallel loop are the old ones plus exactly the dataflow meaning of the plan |
| `Dataflow.ParallelEqualsSequential` | backend/agents/nodes.py:484-503 | running the tasks one at a time in any topological order gives the same outputs as the parallel loop |
| `Dataflow.ContextIgnoresOthers` | backend/agents/nodes.py:99-113 | the upstream section depends on the outputs of the dependencies only: two dicts that agree on those give the same text |
| `PersonaInput.ContextShows` | backend/agents/nodes.py:99-113 | the section is a fixed header and one block for every dependency that has an output, in dependency order, each showing the persona and the summary of that output, and nothing else; it is empty exactly when there is no such dependency |
| `PersonaInput.EmptyContextIff` | backend/agents/nodes.py:110-113 | a persona gets no section exactly when none of its dependencies has an output |
| `PersonaInput.UpstreamSection` | backend/agents/nodes.py:99-113 | the loop over the dependencies builds that section |
| `PersonaInput.MeaningAnswers` | backend/agents/nodes.py:405-482 | a task's output names the task and its persona and holds the reply to the section built from the meanings it depends on: content and summary with confidence 0.8, or the error with confidence 0 |
| `PersonaInput.PersonaSeesMeanings` | backend/agents/nodes.py:405-482 | in whatever round of the loop a persona is called, the section it receives shows, for every dependency in order, the persona and the summary of the meaning of that dependency, and its output after the round is its answer to that |
| `Prefixing.PrefixInPlace` | backend/agents/nodes.py:208-223 | the two loops that change the tasks in place leave every id prefixed and every dependency renamed by the mapping when it is an id of the plan and kept otherwise |
| `Prefixing.OnlyIdsChange` | backend/agents/nodes.py:208-223 | in the prefixed plan every task keeps its place, title, description and persona, its id is the old one behind the prefix, and so is each dependency that is the id of some task, while any other stays |
| `Prefixing.PrefixIds` | backend/agents/nodes.py:214-219 | the mapping sends exactly the old ids to their prefixed forms, and only the ids of the tasks change |
| `Prefixing.RenameDependencies` | backend/agents/nodes.py:221-223 | the second loop changes only dependencies, and those by the mapping |
| `Prefixing.FirstPlanIsTakenOut` | backend/agents/nodes.py:211 | the replacement leaves a text without "plan_" alone, and otherwise takes out the first one and goes on behind it |
| `Prefixing.PlanUuidOf` | backend/agents/nodes.py:211 | with or without "plan_" in front, the prefix made of an id is its first eight characters, or all of it when it is shorter |
| `Isomorphism.CyclesCorrespond` | backend/agents/nodes.py:208-223 | under any renaming that is an isomorphism the cycles of the new graph are exactly the images of the old ones |
| `Isomorphism.DepthPreserved` | backend/agents/nodes.py:208-223 | under any such renaming every node keeps its depth |
| `Prefixing.PrefixingIsIsomorphism` | backend/agents/nodes.py:208-223 | prefixing is an isomorphism of dependency graphs, given that no dependency outside the plan already has the form of a prefixed id |
| `Prefixing.KnownnessPreservedIffNoAlias` | backend/agents/nodes.py:221-223 | every dependency is known after prefixing exactly if it was before, if and only if no dependency already has that form |
| `Prefixing.AliasChangesVerdict` | backend/agents/nodes.py:221-223 | prefixing changes the validator's verdict exactly when the plan has tasks, unique ids and known personas, some dependency is unknown, every unknown one already has the form of a prefixed id, and the prefixed graph is acyclic; and then it makes an invalid plan valid |
| `Prefixing.AliasedPlan` | backend/agents/nodes.py:221-223 | such a plan exists |
| `Prefixing.VerdictPreserved` | backend/agents/nodes.py:208-223 | when no dependency aliases, prefixing keeps the validator's verdict; the exact condition is that of AliasChangesVerdict |
| `Prefixing.CyclesPreserved` | backend/agents/nodes.py:208-223 | the cycles of the prefixed plan are exactly the images of the cycles of the plan |
| `Prefixing.DepthsPreserved` | backend/agents/nodes.py:208-223 | every task keeps its depth |
| `Prefixing.ReadySetPreserved` | backend/agents/nodes.py:208-223 | with corresponding completed sets the ready tasks of the prefixed plan are the prefixed ready tasks, in order |
| `Prefixing.EarlierTurnsDoNotMatter` | backend/worker/main.py:320-331 | ids accumulated from plans whose prefixes cannot collide with this one never change which tasks of a plan without unknown dependencies are ready |
| `Prefixing.PrefixLengthMatters` | backend/agents/nodes.py:211-216 | two prefixes can produce the same id exactly when one of them, with its separator, begins with the other; for equal lengths, exactly when they are equal |
| `Prefixing.NestedPrefixesCollide` | backend/agents/nodes.py:211-216 | whenever they can, an id completed by the earlier plan can keep a task of the later one from ever being ready |
| `BossGraph.EndHasResult` | backend/agents/nodes.py:581-695 | every run of the graph that reaches END, cancelled or not, ends with a final result |
| `BossGraph.CancelIsSafe` | backend/agents/nodes.py:255-587 | after the user cancels in planning, validation or review, whatever follows, no persona and no aggregation is called, nothing raises, and the run ends within four nodes with a final result |
| `BossGraph.RunsStop` | backend/agents/boss.py:129-143 | once planned, every run ends or raises within two nodes per distinct id and four more, for any plan and any decisions |
| `BossGraph.UncancelledRun` | backend/agents/boss.py:43-76 | a run nobody cancels hands aggregation the state the loop leads to, having called exactly the personas of the loop in order |
| `BossGraph.UncancelledRunIsDataflow` | backend/agents/nodes.py:362-503 | for a fresh validated plan that is exactly its dataflow meaning, after one persona call per task |
| `BossGraph.FreshPlanIsCarriedOut` | backend/agents/boss.py:129-143 | and such a run does get there: within two nodes per task and three more it stands before aggregation with that meaning |
| `BossGraph.TurnsKeepMatch` | backend/agents/nodes.py:489-503 | at every node of every turn, after any earlier turns, the completed ids are exactly the output keys other than "final" |
| `BossGraph.TurnsMint` | backend/agents/nodes.py:208-223 | after any turns, however each went, every completed id is a prefix of one of those turns followed by an id |
| `BossGraph.NewPlanIsFresh` | backend/worker/main.py:320-331 | after any turns of a thread, a valid plan whose prefix cannot collide with the prefixes of those turns starts with none of its ids completed or in the outputs |
| `TurnRuns.PlanIsHandedOn` | backend/agents/nodes.py:208-286 | a parsed plan, and after a parse failure that is not cancelled the one-task fallback plan, reaches validation with all its tasks, prefixed |
| `TurnRuns.ValidationLetsThrough` | backend/agents/nodes.py:319-355 | a plan that is not cancelled gets through as it is, unless it has at most five tasks and a cycle: then the node raises |
| `TurnRuns.PreviewPreserved` | backend/core/plan_validator.py:87-100 | when no dependency aliases, a plan needs a preview exactly if its prefixed form does |
| `TurnRuns.TurnIsCarriedOut` | backend/agents/boss.py:43-76 | a whole turn, after any earlier ones: if planning yields a plan, parsed or fallback, with unique ids, known dependencies and no cycle, whose prefix cannot collide with earlier ones, a preview it needs is approved, and nobody cancels, then within two nodes per task and five more the run stands before aggregation, with the old outputs plus the meaning of the prefixed plan, after one persona call per prefixed task |
| `TurnRuns.AggregationEndsWell` | backend/agents/nodes.py:581-695 | aggregation ends with the full result of the only output, without a call, or else with the text the model writes, and raises exactly when the model does; either way the text is stored as "final" and no other output changes |
| `TurnRuns.TurnEndsWell` | backend/agents/nodes.py:581-695 | the same whole turn one node further: END then holds, as the final result and as the output "final", the full result of the only output the thread has, or else the text the model writes; it raises exactly when the model does, and the meaning of the plan stays in the outputs |
| `TurnRuns.CancelMessage` | backend/agents/nodes.py:306-312 | which message a cancelled run ends with: that of the cancel, except after a cancel in planning, where validation puts its own in place, unless review asks about earlier failures and is answered "cancel" too |
| `TurnRuns.ReviewAsksIffFailed` | backend/agents/nodes.py:527-547 | when the loop is done, review asks the user exactly if some earlier output of the thread has failed or some persona of this plan raises on its upstream section |
| `TurnRuns.OutputsStay` | backend/core/state.py:120-149 | however the turns go and whatever ids their plans have, no turn loses or overwrites the output of an earlier task |
| `EventLog.SequenceNumbersAreContiguous` | backend/core/event_store.py:42-92 | with reading the maximum and inserting as separate steps, any number of writers, collision retries and crashes, every thread's numbers are always exactly 1..n |
| `EventLog.RowsAreSuccesses` | backend/core/task_queue.py:106-128 | successful writers and rows correspond one to one: nothing is lost, overwritten or stored twice |
| `EventLog.FailsIff` | backend/core/event_store.py:42-92 | under every interleaving a writer gives up exactly when it crashes or when all the attempts it has have collided |
| `EventLog.ThreadTable.PersistEvent` | backend/core/event_store.py:42-92 | the retry loop stores its event at the first attempt nobody interferes with and raises exactly if there is none; rows of others stay |
| `EventLog.ThreadTable.InsertAt` | backend/core/memory.py:122-124 | under the unique key an insert is stored exactly when its number is the next one, and otherwise changes nothing |
| `SseWire.RoundTrip` | backend/api/sse.py:42-61 | parsing any concatenation of frames with fields free of line breaks and non-empty types, by the WHATWG HTML Standard, gives back exactly the events in order; keepalives vanish and a transient frame reports the last id already sent |
| `SseWire.IdRoundTrip` | frontend/src/lib/sse.ts:68-70 | an id read back by parseInt is the number that was printed |
| `SseWire.SurvivesIffClean` | backend/api/sse.py:42-56 | a single frame survives the round trip exactly when its fields are free of line breaks and its type is not empty |
| `EventStream.EventGenerator.OnNotify` | backend/api/sse.py:113-117 | a notification is queued, and dropped when the queue is full, as the protocol step says |
| `EventStream.EventGenerator.ReplayAll` | backend/api/sse.py:165-179 | the replay loop leaves the queue, the sent set and the output as all replay steps in a row do |
| `EventStream.EventGenerator.TakeItem` | backend/api/sse.py:182-232 | one turn of the live loop is the protocol step: duplicates, other threads and missing rows are skipped; what it sends is pinned down by TimesSent and TransientsAreOwn |
| `TransientDelivery.TransientsAreOwn` | backend/api/sse.py:109-235 | in every run, overflow or not, the transient frames of a connection are exactly the thread's own transient items it has taken from its queue, in order, with their type and payload; it takes what it accepted, first in first out; and there is one keepalive per timeout |
| `TransientDelivery.ForeignItemAddsNothing` | backend/api/sse.py:188-227 | in every reachable state, taking an item of another thread from the queue adds no frame |
| `StreamDelivery.StepKeeps` | backend/api/sse.py:109-217 | every step of database, notification channel and stream keeps the invariant that pins the persistent frames down exactly |
| `StreamDelivery.NoGapNoRepeat` | backend/api/sse.py:141-217 | under every interleaving, while the queue has not overflowed, a live stream from cursor c has sent exactly c+1, c+2, ... in order, each with the contents of its row, if and only if no notification taken was for a number up to c or for a row that SELECT found and whose payload does not name the thread |
| `StreamDelivery.NamedRowsNoGapNoRepeat` | backend/api/sse.py:141-217 | when every payload names the thread, that is exactly when the cursor's own notification had been sent before the stream listened, or nothing has been taken yet |
| `StreamDelivery.DrainedIsComplete` | backend/api/sse.py:182-217 | when the queue holds no more notifications of the thread, every notified number after the cursor has been sent |
| `StreamDelivery.TimesSent` | backend/api/sse.py:165-217 | how often each number has been sent in any such run: once if SELECT found it, and once more if its notification was taken and SELECT had not found it under this thread |
| `EndToEnd.StreamNeverSkips` | backend/api/sse.py:141-217 | even with outstanding old notifications no connection ever sends a number more than one past the largest it has sent or started from |
| `EndToEnd.ClientHoldsPrefix` | frontend/src/stores/thread-store.ts:244-254 | over any number of disconnects at any moment, the row events the store has taken in are exactly those of rows 1..lastSeq in order, once each, and the thread is the fold of everything taken in |
| `EndToEnd.ThreadIsFoldOfPrefix` | frontend/src/lib/sse.ts:36-73 | if no transient event got through, the thread is the fold of exactly the first lastSeq rows |
| `EndToEnd.RecordIsFoldOfPrefix` | frontend/src/stores/thread-store.ts:244-335 | even when tokens and heartbeats got through, the events, phase, result, error, interrupt and HiTL requests of the thread are those of the fold of rows 1..lastSeq |
| `EndToEnd.CaughtUp` | frontend/src/lib/sse.ts:36-41 | a client that has received everything of a drained live connection holds every notified row it can read |
| `EndToEnd.SentAgainIff` | backend/api/sse.py:141-217 | what a reconnect costs: a row up to the cursor the client comes back with is sent once more exactly if its notification was still to be sent then and has been taken from the queue since, and otherwise not at all |
| `EndToEnd.TransientGetsThroughIff` | frontend/src/lib/sse.ts:82 | in every reachable state a transient event is taken in exactly when no row came before it on the connection, or the last row lies past everything taken in, and then none of the rows in between could be read |
| `EndToEnd.TransientDroppedAfterRow` | frontend/src/lib/sse.ts:82 | after a row that can be read a transient event changes nothing in the thread: it inherits an old number and is dropped as a duplicate |
| `EndToEnd.OverTheWire` | frontend/src/lib/sse.ts:63-86 | printing the frames, parsing the text by the standard and running the listeners on the messages has the effect of delivering the frames |
| `EndToEnd.BackoffIsCapped` | frontend/src/lib/sse.ts:131-137 | after n failures in a row the client waits 1000 times 2^n milliseconds, at most 30000 |
| `EndToEnd.UsamiSse.OnError` | frontend/src/lib/sse.ts:50-59 | schedules the next attempt after the delay for the failures so far and doubles it, or none after a disconnect |
| `EndToEnd.UsamiSse.Connect` | frontend/src/lib/sse.ts:32-43 | connects with the cursor reached so far, the server taking a missing one for 0 |
| `EndToEnd.UsamiSse.OnOpen` | frontend/src/lib/sse.ts:45-48 | an opened connection sets the delay back to that of no failures |
| `EndToEnd.UsamiSse.OnMessageEvent` | frontend/src/lib/sse.ts:63-90 | one message changes the cursor and the thread as the message function does: the cursor only grows, and an unreadable message changes neither |
| `EndToEnd.UsamiSse.OnStream` | frontend/src/lib/sse.ts:61-91 | the listener updates the cursor and the thread as the message fold says, over a whole connection |
| `ThreadStore.StoreFollowsThread` | frontend/src/stores/thread-store.ts:228-388 | appending events of a thread folds them into that thread, which the first of them creates if it is not there; every other thread stays, and so does the active one unless there is none |
| `ThreadStore.DeletedTakesNothing` | frontend/src/stores/thread-store.ts:230-233 | events of a deleted thread change nothing, however many come |
| `LiveThread.TextsAreWritten` | frontend/src/stores/thread-store.ts:275-378 | each of the four streamed texts is what has been written to it since the last event that clears it |
| `LiveThread.LastOnesStand` | frontend/src/stores/thread-store.ts:259-335 | the active node, the intent and the progress are the last ones announced, and a creation event takes a pending intent away |
| `ThreadStore.PlanTokensAddUp` | frontend/src/stores/thread-store.ts:321-330 | the planning node's tokens add up, in order, to its streamed text and change nothing else but the active node |
| `ThreadStore.UpdateIsReplay` | frontend/src/stores/thread-store.ts:259-378 | the live switch and the replay switch have the same effect on events, phase, result, error, interrupt and HiTL requests, for every persisted event |
| `ThreadStore.BulkEqualsLive` | frontend/src/stores/thread-store.ts:440-514 | for every history with ascending positive numbers, replaying it in one go and folding it live give the same events, phase, result, error, pending interrupt and pending HiTL requests |
| `HistoryMeaning.RowSays` | frontend/src/stores/thread-store.ts:89-191 | an event made of a stored row has its number, its type and its fields, absent or empty ones replaced as stated; a row of an unknown type becomes a heartbeat |
| `HistoryMeaning.ReplayTells` | frontend/src/stores/thread-store.ts:440-504 | from the rows' types and payloads alone: the result is that of the last completion, the error that of the last failure, the interrupt the last one, the HiTL requests all of them, the phase that of the last row that sets one, and there is one event per row of a known type |
| `HistoryMeaning.LiveTells` | frontend/src/stores/thread-store.ts:228-388 | and so is the record of a thread that received the same rows live |
| `HistoryMeaning.LoadThreadEvents` | frontend/src/stores/thread-store.ts:433-514 | the loading loop builds a thread with that record; its plan is that of the last phase change with tasks, equal to the live one exactly under the stated condition, and it starts again from number 0 |
| `ThreadStore.ReplayHistory` | frontend/src/stores/thread-store.ts:440-504 | the loop computes the replay that agrees with the live fold and the plan of the last phase change with tasks, and keeps a known intent |
| `ThreadStore.PlansAgreeIff` | frontend/src/stores/thread-store.ts:271-281 | for every ascending history the bulk load and the live fold keep the same plan exactly when the last phase change that brought tasks is to "planned" or brought the tasks of the last one that is |
| `ThreadStore.PlansMayDiffer` | frontend/src/stores/thread-store.ts:464-473 | a history that ends its phase changes with tasks on "executing", with other tasks than any plan before: the bulk load keeps those and the live fold does not |
| `ThreadStore.ReplaySwitch` | frontend/src/stores/thread-store.ts:450-503 | one turn of the replay loop has the effect of the replay step on the record, takes the tasks of any phase change, and keeps a known intent |
| `ThreadStore.Redelivered` | frontend/src/stores/thread-store.ts:244-254 | delivering the events past a cursor to any thread appends exactly those that are past the thread's own high-water mark as well and are not transient |
| `ThreadStore.LoadedHistoryIsRepeated` | frontend/src/stores/thread-store.ts:506-514 | a bulk-loaded thread gets every event past the cursor appended a second time, so nothing is repeated exactly when all of those are transient |
| `WorkerClaims.ClaimedAtMostOnce` | backend/worker/main.py:276-285 | with any number of workers, duplicated notifications, crashes and cancels, each entry into pending and each accepted resume is claimed at most once |
| `WorkerClaims.DeliversNewestIffPrompt` | backend/worker/main.py:387-413 | in every reachable state a successful resume claim delivers the most recently accepted value of its thread exactly when no resume was accepted since its SELECT |
| `WorkerClaims.DeliveredAtMostOnce` | backend/worker/main.py:387-413 | if claims are prompt, every accepted resume value reaches at most one graph run, even when older unconsumed rows remain |
| `WorkerClaims.StalledWorkerDeliversTwice` | backend/worker/main.py:388-413 | as the code stands, with the three statements outside a transaction, from any state with a waiting resume there is a run that delivers it twice and spends the one claim of the next resume on it |
| `WorkerClaims.MarkedIsNotChosenAgain` | backend/worker/main.py:407-413 | once its row is marked consumed, no later SELECT of any worker finds it, whatever happens in between |
| `WorkerClaims.ExclusiveAfterIff` | backend/api/routes.py:121-367 | a step keeps "at most one handler per thread, and its task running" exactly when it is not a create, cancel or recovery write on a thread a handler is working on |
| `WorkerClaims.SecondHandler` | backend/worker/main.py:266-285 | once a thread with a live handler is pending again, a single notification is enough for a second handler |
| `WorkerClaims.MutualExclusion` | backend/worker/main.py:276-407 | without cancel, with follow-ups only on finished threads and recovery writes only where no handler is live, at most one handler works on a thread and its task is running |
| `WorkerClaims.StatusFollows` | backend/worker/main.py:209-254 | while at most one handler works on each thread, a status changes exactly as listed, step by step; a handler's unconditional write only ever meets a running task |
| `WorkerClaims.ResumableIffInterrupted` | backend/api/routes.py:195-206 | after a run has come to its end, a resume of its thread is accepted exactly when the run was interrupted |
| `WorkerClaims.CancelStands` | backend/api/routes.py:343-367 | cancelled with no handler at work on it, a task stays cancelled and is claimed by nobody, whatever happens, until the thread gets a new one |
| `WorkerClaims.CancelIsOverwritten` | backend/worker/main.py:209-254 | with a handler at work, the end of its run overwrites the cancel, unless it neither interrupts nor ends, and so does the failure of a resumed run |
| `TaskTables.Tables.PostTask` | backend/api/routes.py:98-135 | refuses at three unfinished tasks, otherwise puts the thread into pending whatever its status was |
| `TaskTables.Tables.PostResume` | backend/api/routes.py:181-219 | accepts exactly in status interrupted, with one new unconsumed row; otherwise the tables are unchanged and the error says why |
| `TaskTables.Tables.PostCancel` | backend/api/routes.py:343-367 | cancels exactly the unfinished tasks and answers 404 or already done otherwise |
| `TaskTables.Tables.Update` | backend/api/routes.py:195-201 | the conditional update changes the status of at most the one row in an expected status, and reports whether it did |
| `TaskTables.Tables.ClaimTask` | backend/worker/main.py:276-285 | claims exactly a pending task |
| `TaskTables.Tables.SelectNewest` | backend/worker/main.py:389-394 | finds the newest unconsumed row of the thread, or none |
| `TaskTables.Tables.ClaimResume` | backend/worker/main.py:388-413 | run as one transaction, claims exactly when the task is resuming and an unconsumed row exists, and consumes only the row whose value it delivers |
| `TaskTables.TransactionIsPrompt` | backend/worker/main.py:388-413 | that transaction is three protocol steps in a row and, from a reachable state, delivers the most recently accepted value |
| `TaskTables.Tables.FinalizeTask` | backend/worker/main.py:209-254 | overwrites the status by what the run came to, and leaves it when the run neither interrupted nor ended |
| `TaskTables.Tables.RecoverOrphans` | backend/worker/main.py:482-534 | completes exactly the tasks found running with nothing left to do, whatever their status is by then, and requeues the others by their status |
| `TaskTables.RequeuedIff` | backend/worker/main.py:482-534 | exactly the pending orphans and the running ones with work left are requeued as new tasks, and exactly the resuming ones as resumes |
| `TaskTables.RunningOrphanIsNotClaimed` | backend/worker/main.py:505-515 | a running orphan with work left is requeued as a new task, and that claim changes nothing |
| `Breaker.CircuitBreaker.CanExecute` | backend/core/model_router.py:94-104 | grants and counts a permit as the transition function of the lemmas does |
| `Breaker.CircuitBreaker.CurrentState` | backend/core/model_router.py:72-77 | reading the state moves an open breaker to half-open with no probes used exactly when the timeout has passed |
| `Breaker.CircuitBreaker.OnSuccess` | backend/core/model_router.py:79-84 | clears the count in every state, and closes from half-open only |
| `Breaker.CircuitBreaker.OnFailure` | backend/core/model_router.py:86-92 | counts the failure, dates it, and opens at the threshold from any state |
| `Breaker.CountIsTrailing` | backend/core/model_router.py:79-92 | after any history, with overlapping calls or not, the failure count is the number of failures since the last success |
| `Breaker.PermitMeansHealthyOrRested` | backend/core/model_router.py:72-104 | a permit means that the trailing run of failures is zero or below the threshold, or that the recovery timeout has passed since the last failure |
| `Breaker.StayGrantsAtMost` | backend/core/model_router.py:94-104 | one stay in half-open grants at most half_open_max_calls permits, whatever is recorded meanwhile |
| `Breaker.RefusesAlwaysIffStuck` | backend/core/model_router.py:72-104 | a breaker refuses at every time, however late, exactly when it is half-open with its probes used up, or open with none to give |
| `Breaker.UnrecordedProbeBlocksForever` | backend/core/model_router.py:94-104 | from such a state no sequence of requests gets a permit; only a recorded outcome could free it |
| `Breaker.FreedIff` | backend/core/model_router.py:79-92 | what frees a stuck breaker is exactly a success, or the failure that reaches the threshold |
| `Breaker.FailedProbe` | backend/core/model_router.py:86-92 | a failed probe reopens a half-open breaker exactly when it reaches the threshold, and leaves it stuck exactly when it does not and was the last |
| `Breaker.EveryBreakerCanStick` | backend/core/model_router.py:94-104 | every configuration has a run from a new breaker that ends stuck: open it, rest, and never record what became of the probes |
| `Breaker.ClosedIffHealthy` | backend/core/model_router.py:79-104 | when calls do not overlap the breaker is closed exactly while the trailing run is zero or below the threshold, so a failed probe reopens it and a successful one closes it |
| `Breaker.PermittedIff` | backend/core/model_router.py:94-104 | when calls do not overlap, a request is let through exactly when the trailing run is zero or below the threshold, or there are probes and the recovery timeout has passed since the last failure |
| `Breaker.OverlapLeavesHalfOpen` | backend/core/model_router.py:79-92 | after a success recorded while open, when all the probes that follow fail, the breaker is stuck exactly when the probes are fewer than the threshold |
| `Breaker.OverlapRunSticks` | backend/core/model_router.py:79-104 | a run from a new breaker that ends stuck although every granted call has had its outcome recorded |
| `Breaker.TryOnce` | backend/core/model_router.py:124-136 | one attempt asks first, records its outcome, and calls nothing when refused; what that comes to is stated by RetryFollowsEnv |
| `Breaker.RetryWithBackoff` | backend/core/model_router.py:111-148 | the loop makes the calls, sleeps and breaker transitions of the recursion the lemmas are about, with or without a breaker |
| `Breaker.RetryFollowsEnv` | backend/core/model_router.py:111-148 | for every behaviour of the calls, without a breaker or after any calls that did not overlap: the loop ends at the first attempt that succeeds, at the first that the breaker refuses, or when the attempts are used up; which, after how many calls, with which sleeps and what failure count is decided by the calls alone |
| `Breaker.ReturnsIffOneSucceeds` | backend/core/model_router.py:124-148 | without a breaker, or with one closed and below the threshold throughout, the loop returns exactly when some attempt up to max_retries succeeds, after index + 1 calls for the first such index and one sleep for each before it, leaving the breaker closed with count 0; otherwise it raises after max_retries + 1 calls |
| `Breaker.AllFailingChain` | backend/core/model_router.py:124-148 | from closed with f failures, an all-failing chain resuming before the timeout makes exactly min(max_retries+1, threshold-f) calls, and is refused exactly if the breaker opened before its last attempt |
| `Breaker.SleepsSumUp` | backend/core/model_router.py:137-146 | the sleeps add up to the capped geometric sum: base*(2^c-1) for the c sleeps under the cap, plus the cap for each other one |
| `Notifications.AlwaysValid` | frontend/src/stores/notification-store.ts:37-79 | after any sequence of actions both lists have at most 100 entries, the counter equals the number unread, and the event keys listed, oldest first, are a suffix of the duplicate-free seen keys |
| `Notifications.NoKeyTwice` | frontend/src/stores/notification-store.ts:37-60 | no event key is ever listed twice, whatever the two caps have cut off |
| `Notifications.ListedKeyIsIgnored` | frontend/src/stores/notification-store.ts:39-42 | adding a listed key again changes nothing |
| `Notifications.EmptyKeyIsListedTwice` | frontend/src/stores/notification-store.ts:40-54 | added twice in a row, in any store, a key is ignored the second time if it is not empty, and heads the list twice if it is |
| `Notifications.AddedIsFirst` | frontend/src/stores/notification-store.ts:44-60 | what is added heads the list, unread and with its own title and body; the others follow as they were, but for the oldest when there were a hundred |
| `Notifications.MarkReadMarks` | frontend/src/stores/notification-store.ts:62-71 | marking an id read marks exactly the notifications with that id, and the counter drops by those of them that were unread |
| `Notifications.EveryoneRead` | frontend/src/stores/notification-store.ts:73-77 | marking all read marks every one, changes nothing else of them and sets the counter to 0 |
| `Notifications.ClearedKeyIsIgnored` | frontend/src/stores/notification-store.ts:79 | emptying the list forgets no key: one that was listed is ignored afterwards |

## Left out

- LLM calls, prompts, parsing of the plan's JSON, LangGraph's checkpointer, interrupt replay and step limit, Python's recursion limit: a planning result, a decision and an aggregation text are inputs.
- Postgres, Redis and asyncio themselves: each SQL statement is atomic, tables are maps and sequences, a queue is a sequence.
- Truncation of summaries and of oversized payloads: a summary is an uninterpreted function of the result, a payload an opaque text.
- Authentication, administration, push, scheduler, configuration, tools, migrations and all React components: plumbing.
- EventStream.Apply: sends the thread's notifications in number order and loses none; a worker that stops between inserting a row and notifying is not modelled, nor is one whose notification overtakes another's.
- StreamDelivery.NoGapNoRepeat: says nothing once the queue has dropped a notification of the thread.
- EndToEnd.ClientHoldsPrefix: one thread and one store only; with several threads on one connection the client's single cursor is compared with every thread's numbers (`backend/api/sse.py:154-162`). A follow-up that resets the thread in between is not modelled. Every row names its thread, as all writers' events do (`backend/api/routes.py:138-147`, `backend/api/routes.py:373-381`, `backend/worker/main.py:148-151`, `backend/worker/main.py:230-248`, `backend/worker/main.py:365-368`, `backend/worker/main.py:466-469`); the client would put another event into another thread.
- EndToEnd.UsamiSse: status handlers and the identity of the EventSource are not modelled; one handler feeds one thread.
- ThreadStore.BulkEqualsLive: `intent`, `progress` and `lastSeq` are not part of the agreement, because the two paths differ there; on the plan see ThreadStore.PlansAgreeIff, on the live values LiveThread.LastOnesStand; `createdAt` and heartbeats' clock readings are not modelled.
- BossGraph.CancelIsSafe: cancelling through the API, which the worker notices between stream chunks, is not part of the graph run.
- WorkerClaims.MutualExclusion: assumes no cancel; `finalize_task` writes without looking at the status, and `cancelled` is missing from the table's check constraint (`backend/alembic/versions/006_add_tasks_and_resume_requests.py:38-41`).
- TaskTables.Tables.PostTask: the number of unfinished tasks is a parameter; thread ownership is not checked.
- TaskTables.Tables.RecoverOrphans: no liveness is claimed for running orphans.
- Breaker.ClosedIffHealthy: for calls that do not overlap; the general bounds are stated for every history.
- The concatenated output of `astream_with_retry`: a retry after a failure in mid-stream yields chunks again.
- `retry_failed`, which the source does not implement.
- Deleting threads and events.
