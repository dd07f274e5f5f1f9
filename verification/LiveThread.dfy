/** What the events of a live thread come to in the fields that a history does
    not restore (`thread-store.ts`, `appendEvent`). */
module LiveThread {
  import opened ThreadStore
  import opened Wrappers

  /** The four texts that grow while a model is writing. */
  datatype Stream = Plan | Planning | Aggregate | Result

  function TextOf(t: Thread, st: Stream): string {
    match st
    case Plan => t.streamingPlan
    case Planning => t.streamingPlanning
    case Aggregate => t.streamingAggregate
    case Result => t.streamingResult
  }

  /** What an event adds to a text. */
  function Piece(b: Body, st: Stream): string {
    if st in {Plan, Planning} then
      (if b.Token? && b.node == "plan" then b.content else if b.PlanningChunk? then b.chunk else "")
    else
      (if b.Token? && b.node == "aggregate" then b.content else if b.ResultChunk? then b.chunk else "")
  }

  /** Which events clear a text. */
  predicate Clears(b: Body, st: Stream) {
    if st in {Plan, Planning} then b.PhaseChange? && b.newPhase == "planning"
    else
      || (b.PhaseChange? && b.newPhase == "aggregating")
      || b.Completed?
      || (st == Result && b.Aggregating?)
  }

  /** The text since the last event that cleared it. */
  function Written(start: string, events: seq<SseEvent>, st: Stream): string {
    if events == [] then start
    else
      var last := events[|events| - 1];
      if Clears(last.body, st) then "" else Written(start, events[..|events| - 1], st) + Piece(last.body, st)
  }

  /** The node of the last token. */
  function LastNode(start: string, events: seq<SseEvent>): string {
    if events == [] then start
    else
      var last := events[|events| - 1];
      if last.body.Token? then last.body.node else LastNode(start, events[..|events| - 1])
  }

  /** The last intent that is not empty. */
  function LastIntent(start: string, events: seq<SseEvent>): string {
    if events == [] then start
    else
      var last := events[|events| - 1];
      if last.body.Created? && last.body.intent != "" then last.body.intent
      else LastIntent(start, events[..|events| - 1])
  }

  /** The last round announced with a total. */
  function LastProgress(start: Option<Progress>, events: seq<SseEvent>): Option<Progress> {
    if events == [] then start
    else
      var b := events[|events| - 1].body;
      if b.PhaseChange? && b.newPhase == "executing" && b.totalTasks.Some?
      then Some(Progress(if b.totalCompleted.Some? then b.totalCompleted.value else 0, b.totalTasks.value))
      else LastProgress(start, events[..|events| - 1])
  }

  /** None of the events is a duplicate when it comes. */
  predicate NoneRepeated(t: Thread, events: seq<SseEvent>) {
    events == [] ||
      (var before := events[..|events| - 1];
       NoneRepeated(t, before) && !IsDuplicate(ReceiveAll(t, before), events[|events| - 1]))
  }

  lemma OneText(t: Thread, e: SseEvent, st: Stream)
    requires !IsDuplicate(t, e)
    ensures TextOf(Receive(t, e), st) == if Clears(e.body, st) then "" else TextOf(t, st) + Piece(e.body, st)
  {
    assert TextOf(t, st) + "" == TextOf(t, st);
  }

  lemma OneNode(t: Thread, e: SseEvent)
    requires !IsDuplicate(t, e)
    ensures Receive(t, e).activeNode == if e.body.Token? then e.body.node else t.activeNode
  {
  }

  lemma OneIntent(t: Thread, e: SseEvent)
    requires !IsDuplicate(t, e)
    ensures Receive(t, e).intent == if e.body.Created? && e.body.intent != "" then e.body.intent else t.intent
    ensures Receive(t, e).pendingIntent == if e.body.Created? then None else t.pendingIntent
  {
  }

  lemma OneProgress(t: Thread, e: SseEvent)
    requires !IsDuplicate(t, e)
    ensures Receive(t, e).progress == LastProgress(t.progress, [e])
  {
    assert [e][..0] == [];
  }

  /** Every text is what has been written since it was last cleared. */
  lemma {:induction false} TextsAreWritten(t: Thread, events: seq<SseEvent>, st: Stream)
    requires NoneRepeated(t, events)
    ensures TextOf(ReceiveAll(t, events), st) == Written(TextOf(t, st), events, st)
  {
    if events == [] {
    } else {
      var before := events[..|events| - 1];
      TextsAreWritten(t, before, st);
      OneText(ReceiveAll(t, before), events[|events| - 1], st);
    }
  }

  lemma {:induction false} NodeStands(t: Thread, events: seq<SseEvent>)
    requires NoneRepeated(t, events)
    ensures ReceiveAll(t, events).activeNode == LastNode(t.activeNode, events)
  {
    if events == [] {
    } else {
      var before, last := events[..|events| - 1], events[|events| - 1];
      NodeStands(t, before);
      OneNode(ReceiveAll(t, before), last);
    }
  }

  lemma {:induction false} IntentStands(t: Thread, events: seq<SseEvent>)
    requires NoneRepeated(t, events)
    ensures ReceiveAll(t, events).intent == LastIntent(t.intent, events)
  {
    if events == [] {
    } else {
      var before, last := events[..|events| - 1], events[|events| - 1];
      IntentStands(t, before);
      OneIntent(ReceiveAll(t, before), last);
    }
  }

  lemma {:induction false} ProgressStands(t: Thread, events: seq<SseEvent>)
    requires NoneRepeated(t, events)
    ensures ReceiveAll(t, events).progress == LastProgress(t.progress, events)
  {
    if events == [] {
    } else {
      var before, last := events[..|events| - 1], events[|events| - 1];
      ProgressStands(t, before);
      OneProgress(ReceiveAll(t, before), last);
      assert [last][..0] == [];
    }
  }

  predicate AnyCreated(events: seq<SseEvent>) {
    exists i :: 0 <= i < |events| && events[i].body.Created?
  }

  lemma CreatedSnoc(events: seq<SseEvent>)
    requires events != []
    ensures AnyCreated(events) <==> AnyCreated(events[..|events| - 1]) || events[|events| - 1].body.Created?
  {
    var before := events[..|events| - 1];
    assert forall i :: 0 <= i < |before| ==> before[i] == events[i];
  }

  lemma {:induction false} PendingStands(t: Thread, events: seq<SseEvent>)
    requires NoneRepeated(t, events)
    ensures ReceiveAll(t, events).pendingIntent == if AnyCreated(events) then None else t.pendingIntent
  {
    if events == [] {
    } else {
      var before, last := events[..|events| - 1], events[|events| - 1];
      PendingStands(t, before);
      OneIntent(ReceiveAll(t, before), last);
      CreatedSnoc(events);
    }
  }

  /** The active node, the intent and the progress are the last ones announced;
      a creation event takes a pending intent away. */
  lemma LastOnesStand(t: Thread, events: seq<SseEvent>)
    requires NoneRepeated(t, events)
    ensures
      var e := ReceiveAll(t, events);
      && e.activeNode == LastNode(t.activeNode, events)
      && e.intent == LastIntent(t.intent, events)
      && e.progress == LastProgress(t.progress, events)
      && e.pendingIntent == if AnyCreated(events) then None else t.pendingIntent
  {
    NodeStands(t, events);
    IntentStands(t, events);
    ProgressStands(t, events);
    PendingStands(t, events);
  }
}
