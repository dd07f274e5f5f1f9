/** Allocating per-thread sequence numbers under races (`core/event_store.py`,
    `core/task_queue.py`, `core/memory.py`).

    Every insert is two steps, reading the largest number and inserting its
    successor under the unique key, and any number of writers interleave. */
module EventLog {

  type ThreadId = string
  type WriterId = int
  type Key = (ThreadId, nat)

  /** The events table: the unique key (thread, seq) and who stored the row. */
  type Rows = map<Key, WriterId>

  datatype Writer =
    | Reading(thread: ThreadId, attempt: nat)
    | HasMax(thread: ThreadId, max: nat, attempt: nat)
    | Stored(thread: ThreadId, seqNo: nat)
    | Failed

  datatype Log = Log(rows: Rows, writers: map<WriterId, Writer>)

  /** `COALESCE(MAX(seq), 0)` over the rows of a thread. */
  ghost predicate IsMax(rows: Rows, t: ThreadId, m: nat) {
    && (m == 0 || (t, m) in rows)
    && forall k: nat :: (t, k) in rows ==> k <= m
  }

  datatype Event =
    | Begin(w: WriterId, thread: ThreadId)
    | ReadMax(w: WriterId, max: nat)
    | Insert(w: WriterId)
    | Crash(w: WriterId)

  ghost predicate Enabled(s: Log, e: Event) {
    match e
    case Begin(w, t) => w !in s.writers
    case ReadMax(w, m) => w in s.writers && s.writers[w].Reading? && IsMax(s.rows, s.writers[w].thread, m)
    case Insert(w) => w in s.writers && s.writers[w].HasMax?
    case Crash(w) => w in s.writers && !s.writers[w].Stored?
  }

  /** `limit` attempts are made: two by the event store, one by the task queue. */
  ghost function Apply(limit: nat, s: Log, e: Event): Log
    requires Enabled(s, e)
  {
    match e
    case Begin(w, t) => s.(writers := s.writers[w := Reading(t, 0)])
    case ReadMax(w, m) =>
      var r := s.writers[w];
      s.(writers := s.writers[w := HasMax(r.thread, m, r.attempt)])
    case Insert(w) =>
      var r := s.writers[w];
      var key := (r.thread, r.max + 1);
      if key !in s.rows then Log(s.rows[key := w], s.writers[w := Stored(r.thread, r.max + 1)])
      else if r.attempt + 1 < limit then s.(writers := s.writers[w := Reading(r.thread, r.attempt + 1)])
      else s.(writers := s.writers[w := Failed])
    case Crash(w) => s.(writers := s.writers[w := Failed])
  }

  ghost predicate Runs(limit: nat, s: Log, events: seq<Event>, e: Log)
    decreases |events|
  {
    if events == [] then s == e
    else Enabled(s, events[0]) && Runs(limit, Apply(limit, s, events[0]), events[1..], e)
  }

  /** The numbers of a thread are exactly 1..n. */
  ghost predicate Contiguous(rows: Rows, t: ThreadId, n: nat) {
    forall k: nat :: (t, k) in rows <==> 1 <= k <= n
  }

  ghost predicate InOneRange(rows: Rows, t: ThreadId) {
    exists n: nat :: Contiguous(rows, t, n)
  }

  ghost predicate WriterFits(s: Log, w: WriterId) {
    w in s.writers ==>
      match s.writers[w]
      case HasMax(t, m, _) => m == 0 || (t, m) in s.rows
      case Stored(t, k) => (t, k) in s.rows && s.rows[(t, k)] == w
      case _ => true
  }

  ghost predicate Consistent(s: Log) {
    && (forall t :: InOneRange(s.rows, t))
    && (forall w :: WriterFits(s, w))
    && (forall key :: key in s.rows ==>
      s.rows[key] in s.writers && s.writers[s.rows[key]] == Stored(key.0, key.1))
  }

  lemma InsertExtends(rows: Rows, t: ThreadId, m: nat, w: WriterId, u: ThreadId)
    requires InOneRange(rows, u)
    requires m == 0 || (t, m) in rows
    requires (t, m + 1) !in rows
    ensures InOneRange(rows[(t, m + 1) := w], u)
  {
    var n: nat :| Contiguous(rows, u, n);
    assert Contiguous(rows[(t, m + 1) := w], u, if u == t then m + 1 else n);
  }

  lemma StepKeepsRanges(limit: nat, s: Log, e: Event, t: ThreadId)
    requires Consistent(s) && Enabled(s, e)
    ensures InOneRange(Apply(limit, s, e).rows, t)
  {
    assert WriterFits(s, e.w);
    if e.Insert? {
      var r := s.writers[e.w];
      if (r.thread, r.max + 1) !in s.rows {
        InsertExtends(s.rows, r.thread, r.max, e.w, t);
      }
    }
  }

  lemma StepKeepsWriters(limit: nat, s: Log, e: Event, w: WriterId)
    requires Consistent(s) && Enabled(s, e)
    ensures WriterFits(Apply(limit, s, e), w)
  {
    assert WriterFits(s, w) && WriterFits(s, e.w);
  }

  lemma StepKeepsOwners(limit: nat, s: Log, e: Event, key: Key)
    requires Consistent(s) && Enabled(s, e) && key in Apply(limit, s, e).rows
    ensures
      var s' := Apply(limit, s, e);
      s'.rows[key] in s'.writers && s'.writers[s'.rows[key]] == Stored(key.0, key.1)
  {
  }

  lemma StepKeepsConsistent(limit: nat, s: Log, e: Event)
    requires Consistent(s) && Enabled(s, e)
    ensures Consistent(Apply(limit, s, e))
  {
    forall t {:trigger InOneRange(Apply(limit, s, e).rows, t)} {
      StepKeepsRanges(limit, s, e, t);
    }
    forall w {
      StepKeepsWriters(limit, s, e, w);
    }
    forall key | key in Apply(limit, s, e).rows {
      StepKeepsOwners(limit, s, e, key);
    }
  }

  /** In every reachable state each thread's numbers are exactly 1..n. */
  lemma {:induction false} SequenceNumbersAreContiguous(limit: nat, s: Log, events: seq<Event>, e: Log, t: ThreadId)
    requires Consistent(s) && Runs(limit, s, events, e)
    ensures Consistent(e) && InOneRange(e.rows, t)
    decreases |events|
  {
    if events == [] {
    } else {
      StepKeepsConsistent(limit, s, events[0]);
      SequenceNumbersAreContiguous(limit, Apply(limit, s, events[0]), events[1..], e, t);
    }
  }

  lemma EmptyLogIsConsistent()
    ensures Consistent(Log(map[], map[]))
  {
    forall t: ThreadId
      ensures InOneRange(map[], t)
    {
      assert Contiguous(map[], t, 0);
    }
  }

  /** Every successful writer owns one row of its own, and every row has its
      successful writer: no event is lost, overwritten or stored twice. */
  lemma {:induction false} RowsAreSuccesses(limit: nat, events: seq<Event>, e: Log)
    requires Runs(limit, Log(map[], map[]), events, e)
    ensures forall w, t, k: nat ::
      (w in e.writers && e.writers[w] == Stored(t, k)) <==> ((t, k) in e.rows && e.rows[(t, k)] == w)
  {
    EmptyLogIsConsistent();
    SequenceNumbersAreContiguous(limit, Log(map[], map[]), events, e, "");
    forall w, t, k: nat
      ensures (w in e.writers && e.writers[w] == Stored(t, k)) <==> ((t, k) in e.rows && e.rows[(t, k)] == w)
    {
      assert WriterFits(e, w);
      if (t, k) in e.rows {
        assert e.writers[e.rows[(t, k)]] == Stored((t, k).0, (t, k).1);
      }
    }
  }

  /** How often a writer tries to insert. */
  function Inserts(events: seq<Event>, w: WriterId): nat {
    if events == [] then 0 else (if events[0] == Insert(w) then 1 else 0) + Inserts(events[1..], w)
  }

  predicate Crashes(events: seq<Event>, w: WriterId) {
    exists i :: 0 <= i < |events| && events[i] == Crash(w)
  }

  /** Where a writer that has not crashed stands after `n` inserts: it goes on
      until it has stored its row or `limit` of them have collided. */
  predicate AttemptsFit(limit: nat, s: Log, w: WriterId, n: nat) {
    if w !in s.writers then n == 0
    else
      match s.writers[w]
      case Reading(_, a) => n == a && (n > 0 ==> n < limit)
      case HasMax(_, _, a) => n == a && (n > 0 ==> n < limit)
      case Stored(_, _) => 1 <= n && (n > 1 ==> n <= limit)
      case Failed => n == if limit == 0 then 1 else limit
  }

  lemma StepFitsAttempts(limit: nat, s: Log, e: Event, w: WriterId, n: nat)
    requires Enabled(s, e) && AttemptsFit(limit, s, w, n) && e != Crash(w)
    ensures AttemptsFit(limit, Apply(limit, s, e), w, n + if e == Insert(w) then 1 else 0)
  {
  }

  lemma {:induction false} WriterGoesOn(limit: nat, s: Log, events: seq<Event>, e: Log, w: WriterId, n: nat)
    requires Runs(limit, s, events, e) && AttemptsFit(limit, s, w, n) && !Crashes(events, w)
    ensures AttemptsFit(limit, e, w, n + Inserts(events, w))
    decreases |events|
  {
    if events == [] {
    } else {
      assert events[0] != Crash(w);
      assert forall i :: 0 <= i < |events| - 1 ==> events[1..][i] == events[i + 1];
      var m := n + if events[0] == Insert(w) then 1 else 0;
      StepFitsAttempts(limit, s, events[0], w, n);
      WriterGoesOn(limit, Apply(limit, s, events[0]), events[1..], e, w, m);
    }
  }

  lemma {:induction false} FailedStays(limit: nat, s: Log, events: seq<Event>, e: Log, w: WriterId)
    requires Runs(limit, s, events, e)
    requires (w in s.writers && s.writers[w].Failed?) || Crashes(events, w)
    ensures w in e.writers && e.writers[w].Failed?
    decreases |events|
  {
    if events == [] {
    } else {
      var next := Apply(limit, s, events[0]);
      if events[0] != Crash(w) && Crashes(events, w) {
        var i :| 0 <= i < |events| && events[i] == Crash(w);
        assert events[1..][i - 1] == Crash(w);
      }
      FailedStays(limit, next, events[1..], e, w);
    }
  }

  /** A writer gives up exactly when it crashes or when all the attempts it has
      have collided. */
  lemma FailsIff(limit: nat, events: seq<Event>, e: Log, w: WriterId)
    requires limit > 0 && Runs(limit, Log(map[], map[]), events, e) && w in e.writers
    ensures
      e.writers[w].Failed? <==>
      Crashes(events, w) || (Inserts(events, w) == limit && !e.writers[w].Stored?)
  {
    var start := Log(map[], map[]);
    if Crashes(events, w) {
      FailedStays(limit, start, events, e, w);
    } else {
      WriterGoesOn(limit, start, events, e, w, 0);
    }
  }

  // ----------------------------------------------------------- one writer's loop

  /** One thread's part of the table, and `persist_event` working on it while
      `rivals[i]` other events are stored between its i-th read and insert. */
  class ThreadTable {
    var ids: seq<string>

    constructor ()
      ensures ids == []
    {
      ids := [];
    }

    /** The unique key admits number `n` only as the next one. */
    method InsertAt(n: nat, id: string) returns (stored: bool)
      requires 1 <= n <= |ids| + 1
      modifies this
      ensures stored <==> n == |old(ids)| + 1
      ensures ids == if stored then old(ids) + [id] else old(ids)
    {
      stored := n == |ids| + 1;
      if stored {
        ids := ids + [id];
      }
    }

    /** Succeeds at the first attempt nobody interferes with, if there is one
        among `maxRetries`; otherwise the collision is raised.  Either way the
        events stored by others stay where they are. */
    method PersistEvent(newIds: seq<string>, maxRetries: nat, rivals: seq<seq<string>>) returns (seqNo: nat)
      requires |newIds| == |rivals| == maxRetries
      modifies this
      ensures
        var k := FirstUndisturbed(rivals);
        if k < maxRetries
        then ids == old(ids) + Flatten(rivals[..k]) + [newIds[k]] && seqNo == |ids|
        else ids == old(ids) + Flatten(rivals) && seqNo == 0
    {
      for attempt := 0 to maxRetries
        invariant ids == old(ids) + Flatten(rivals[..attempt])
        invariant attempt <= FirstUndisturbed(rivals)
      {
        var max := |ids|;
        ids := ids + rivals[attempt];
        FlattenSnoc(rivals, attempt);
        var stored := InsertAt(max + 1, newIds[attempt]);
        if stored {
          assert Flatten(rivals[..attempt]) + [] == Flatten(rivals[..attempt]);
          return max + 1;
        }
      }
      assert rivals[..maxRetries] == rivals;
      return 0;
    }
  }

  /** The first attempt between whose read and insert nobody else stores. */
  function FirstUndisturbed(rivals: seq<seq<string>>): (k: nat)
    ensures k <= |rivals| && (k < |rivals| ==> rivals[k] == [])
    ensures forall i :: 0 <= i < k ==> rivals[i] != []
  {
    if rivals == [] || rivals[0] == [] then 0 else 1 + FirstUndisturbed(rivals[1..])
  }

  function Flatten(xs: seq<seq<string>>): seq<string> {
    if xs == [] then [] else Flatten(xs[..|xs| - 1]) + xs[|xs| - 1]
  }

  lemma FlattenSnoc(xs: seq<seq<string>>, i: nat)
    requires i < |xs|
    ensures Flatten(xs[..i + 1]) == Flatten(xs[..i]) + xs[i]
  {
    assert xs[..i + 1][..i] == xs[..i];
  }
}
