/** Under every interleaving it is known exactly what the stream of one thread
    has sent. */
module StreamDelivery {
  import opened EventStream
  import opened SseWire
  import opened Wrappers

  lemma ListenEstablishes(thread: ThreadId, log: seq<Row>, notified: nat, cursor: nat)
    requires notified <= |log|
    ensures Inv(thread, log, notified, Listen(cursor, notified))
  {
  }

  lemma {:induction false} TakenStays(
    thread: ThreadId, log: seq<Row>, row: Row, low: nat, high: nat, mark: nat, popped: nat)
    requires low < high ==> high <= |log|
    ensures Taken(thread, log + [row], low, high, mark, popped) == Taken(thread, log, low, high, mark, popped)
    decreases popped
  {
    if popped <= mark {
    } else {
      TakenStays(thread, log, row, low, high, mark, popped - 1);
    }
  }

  lemma CommitKeepsSent(thread: ThreadId, log: seq<Row>, notified: nat, c: Connection, row: Row)
    requires Inv(thread, log, notified, c)
    ensures SentFits(thread, log + [row], c)
  {
    assert Replayed(c) <= c.high;
    forall n: nat
      ensures CountsAsSent(thread, log + [row], c, n) == CountsAsSent(thread, log, c, n)
    {
    }
  }

  lemma CommitKeeps(thread: ThreadId, log: seq<Row>, notified: nat, c: Connection, row: Row)
    requires Inv(thread, log, notified, c)
    ensures Inv(thread, log + [row], notified, c)
  {
    TakenStays(thread, log, row, c.cursor, c.high, c.mark, c.popped);
    CommitKeepsSent(thread, log, notified, c, row);
  }

  lemma EnqueueKeeps(thread: ThreadId, log: seq<Row>, notified: nat, c: Connection, item: Item)
    requires Inv(thread, log, notified, c) && !Enqueue(thread, c, item).overflowed
    requires Own(thread, item) ==> notified < |log| && item == Pg(thread, notified + 1)
    ensures Inv(thread, log, if Own(thread, item) then notified + 1 else notified, Enqueue(thread, c, item))
  {
    var d := Enqueue(thread, c, item);
    OwnSeqsSnoc(thread, c.queue, item);
    if Own(thread, item) {
      RangeSnoc(c.popped, notified);
    }
    assert d == c.(queue := d.queue);
  }

  lemma SelectKeeps(thread: ThreadId, log: seq<Row>, notified: nat, c: Connection)
    requires Inv(thread, log, notified, c) && c.phase.Listening?
    ensures Inv(thread, log, notified, Select(c, log))
  {
    assert Reached(Select(c, log)) == c.cursor;
  }

  /** Appending a persistent frame for row `n`. */
  lemma EmitFrame(log: seq<Row>, out: seq<Frame>, n: nat)
    requires FramesAreRows(out, log) && 1 <= n <= |log|
    ensures
      var f := Persistent(n, log[n - 1].eventType, log[n - 1].payload);
      FramesAreRows(out + [f], log) && Persisted(out + [f]) == Persisted(out) + [n]
  {
    PersistedSnoc(out, Persistent(n, log[n - 1].eventType, log[n - 1].payload));
  }

  lemma ReplayRow(thread: ThreadId, log: seq<Row>, notified: nat, c: Connection, d: Connection)
    requires Inv(thread, log, notified, c) && c.phase.Replaying? && c.phase.missed != []
    requires d == ReplayOne(c)
    ensures
      var n := Reached(c) + 1;
      && n <= |log| && n <= c.high && Reached(d) == n
      && d == c.(phase := Replaying(c.phase.missed[1..]), sent := c.sent + {(log[n - 1].thread, n)}, out := d.out)
      && Persisted(d.out) == Persisted(c.out) + [n] && FramesAreRows(d.out, log)
  {
    var n := c.phase.missed[0].0;
    assert n == Reached(c) + 1 && c.phase.missed[0].1 == log[n - 1];
    EmitFrame(log, c.out, n);
  }

  lemma ReplayRowKeeps(thread: ThreadId, log: seq<Row>, notified: nat, c: Connection, d: Connection, n: nat)
    requires Inv(thread, log, notified, c) && c.phase.Replaying? && c.phase.missed != []
    requires n == Reached(c) + 1 == Reached(d) && n <= c.high && n <= |log|
    requires
      d == c.(phase := Replaying(c.phase.missed[1..]), sent := c.sent + {(log[n - 1].thread, n)}, out := d.out)
    requires Persisted(d.out) == Persisted(c.out) + [n] && FramesAreRows(d.out, log)
    ensures Inv(thread, log, notified, d)
  {
    RangeSnoc(c.cursor, Reached(c));
    forall m: nat
      ensures (thread, m) in d.sent <==> CountsAsSent(thread, log, d, m)
    {
      assert (thread, m) in c.sent <==> CountsAsSent(thread, log, c, m);
    }
  }

  lemma GoingLiveKeeps(thread: ThreadId, log: seq<Row>, notified: nat, c: Connection)
    requires Inv(thread, log, notified, c) && c.phase == Replaying([])
    ensures Inv(thread, log, notified, c.(phase := Live))
  {
    var d := c.(phase := Live);
    assert Reached(c) == c.high;
    assert Range(c.cursor, c.high) + [] == Range(c.cursor, c.high);
    assert forall n: nat :: CountsAsSent(thread, log, d, n) == CountsAsSent(thread, log, c, n);
  }

  lemma ReplayKeeps(thread: ThreadId, log: seq<Row>, notified: nat, c: Connection)
    requires Inv(thread, log, notified, c) && c.phase.Replaying?
    ensures Inv(thread, log, notified, ReplayOne(c))
  {
    var d := ReplayOne(c);
    if c.phase.missed != [] {
      ReplayRow(thread, log, notified, c, d);
      ReplayRowKeeps(thread, log, notified, c, d, Reached(d));
    } else {
      GoingLiveKeeps(thread, log, notified, c);
    }
  }

  lemma TransientFrame(log: seq<Row>, out: seq<Frame>, f: Frame)
    requires FramesAreRows(out, log) && !f.Persistent?
    ensures FramesAreRows(out + [f], log) && Persisted(out + [f]) == Persisted(out)
  {
    PersistedSnoc(out, f);
    assert Persisted(out) + [] == Persisted(out);
  }

  /** What does not concern the thread's rows changes the queue and the output. */
  lemma SilentKeeps(thread: ThreadId, log: seq<Row>, notified: nat, c: Connection, d: Connection)
    requires Inv(thread, log, notified, c) && d == c.(queue := d.queue, out := d.out)
    requires OwnSeqs(thread, d.queue) == OwnSeqs(thread, c.queue)
    requires Persisted(d.out) == Persisted(c.out) && FramesAreRows(d.out, log)
    ensures Inv(thread, log, notified, d)
  {
    assert forall n: nat :: CountsAsSent(thread, log, d, n) == CountsAsSent(thread, log, c, n);
  }

  lemma TakeOtherKeeps(thread: ThreadId, log: seq<Row>, notified: nat, c: Connection)
    requires Inv(thread, log, notified, c) && c.phase.Live? && c.queue != [] && !Own(thread, c.queue[0])
    ensures Inv(thread, log, notified, TakeOne(thread, log, c))
  {
    var item, d := c.queue[0], TakeOne(thread, log, c);
    assert OwnSeqs(thread, c.queue) == [] + OwnSeqs(thread, c.queue[1..]);
    if item.Redis? && item.thread == thread {
      TransientFrame(log, c.out, Transient(item.eventType, item.payload));
    }
    SilentKeeps(thread, log, notified, c, d);
  }

  /** The next own notification is for the number after the last one taken. */
  lemma NextOwn(thread: ThreadId, queue: seq<Item>, popped: nat, notified: nat)
    requires queue != [] && Own(thread, queue[0]) && popped <= notified
    requires OwnSeqs(thread, queue) == Range(popped, notified)
    ensures popped < notified && queue[0].seqNo == popped + 1
    ensures OwnSeqs(thread, queue[1..]) == Range(popped + 1, notified)
  {
    var r := Range(popped, notified);
    assert OwnSeqs(thread, queue)[0] == queue[0].seqNo;
    assert OwnSeqs(thread, queue)[1..] == OwnSeqs(thread, queue[1..]);
    assert r != [] && r[1..] == Range(popped + 1, notified);
  }

  lemma TakeOwnOutput(thread: ThreadId, log: seq<Row>, c: Connection, d: Connection, n: nat)
    requires c.phase.Live? && c.queue != [] && c.queue[0] == Pg(thread, n) && 1 <= n <= |log|
    requires FramesAreRows(c.out, log) && d == TakeOne(thread, log, c)
    ensures
      && d == c.(popped := c.popped + 1, sent := d.sent, queue := c.queue[1..], out := d.out)
      && d.sent == (if (thread, n) in c.sent then c.sent else c.sent + {(thread, n)})
      && Persisted(d.out) == Persisted(c.out) + (if (thread, n) in c.sent then [] else [n])
      && FramesAreRows(d.out, log)
  {
    EmitFrame(log, c.out, n);
    assert Persisted(c.out) + [] == Persisted(c.out);
  }

  lemma SentGrows(thread: ThreadId, log: seq<Row>, c: Connection, n: nat, d: Connection)
    requires c.phase.Live? && d == c.(popped := n, sent := d.sent, queue := d.queue, out := d.out)
    requires n == c.popped + 1 && c.mark <= c.popped && SentFits(thread, log, c)
    requires d.sent == if (thread, n) in c.sent then c.sent else c.sent + {(thread, n)}
    ensures SentFits(thread, log, d)
    ensures (thread, n) in c.sent <==> Found(thread, log, c.cursor, c.high, n)
  {
    assert (thread, n) in c.sent <==> CountsAsSent(thread, log, c, n);
    forall m: nat
      ensures (thread, m) in d.sent <==> CountsAsSent(thread, log, d, m)
    {
      assert (thread, m) in c.sent <==> CountsAsSent(thread, log, c, m);
    }
  }

  /** How the expected frames grow when number `popped + 1` is taken. */
  lemma ExpectedGrows(thread: ThreadId, log: seq<Row>, c: Connection, d: Connection)
    requires c.phase.Live? && c.mark <= c.popped
    requires d == c.(popped := c.popped + 1, sent := d.sent, queue := d.queue, out := d.out)
    ensures
      Expected(thread, log, d) ==
      Expected(thread, log, c) + if Found(thread, log, c.cursor, c.high, d.popped) then [] else [d.popped]
  {
    var found, taken := Range(c.cursor, c.high), Taken(thread, log, c.cursor, c.high, c.mark, c.popped);
    var more := if Found(thread, log, c.cursor, c.high, d.popped) then [] else [d.popped];
    assert Taken(thread, log, c.cursor, c.high, c.mark, d.popped) == taken + more;
    assert found + taken + more == found + (taken + more);
  }

  lemma Assemble(thread: ThreadId, log: seq<Row>, notified: nat, c: Connection, d: Connection)
    requires Inv(thread, log, notified, c) && c.phase.Live? && c.popped < notified
    requires d == c.(popped := c.popped + 1, sent := d.sent, queue := d.queue, out := d.out)
    requires OwnSeqs(thread, d.queue) == Range(d.popped, notified) && SentFits(thread, log, d)
    requires Persisted(d.out) == Expected(thread, log, d) && FramesAreRows(d.out, log)
    ensures Inv(thread, log, notified, d)
  {
  }

  lemma TakeOwnKeeps(thread: ThreadId, log: seq<Row>, notified: nat, c: Connection)
    requires Inv(thread, log, notified, c) && c.phase.Live? && c.queue != [] && Own(thread, c.queue[0])
    ensures Inv(thread, log, notified, TakeOne(thread, log, c))
  {
    NextOwn(thread, c.queue, c.popped, notified);
    var n, d := c.popped + 1, TakeOne(thread, log, c);
    TakeOwnOutput(thread, log, c, d, n);
    SentGrows(thread, log, c, n, d);
    ExpectedGrows(thread, log, c, d);
    Assemble(thread, log, notified, c, d);
  }

  lemma IdleKeeps(thread: ThreadId, log: seq<Row>, notified: nat, c: Connection)
    requires Inv(thread, log, notified, c)
    ensures Inv(thread, log, notified, Idle(c))
  {
    TransientFrame(log, c.out, Keepalive);
    SilentKeeps(thread, log, notified, c, Idle(c));
  }

  lemma StepKeeps(thread: ThreadId, s: System, e: Step)
    requires SystemInv(thread, s) && Enabled(thread, s, e)
    ensures SystemInv(thread, Apply(thread, s, e))
  {
    var s' := Apply(thread, s, e);
    if e.Connect? {
      ListenEstablishes(thread, s.log, s.notified, e.cursor);
    } else if s'.conn.Some? && !s'.conn.value.overflowed {
      var c := s.conn.value;
      match e
      case Commit(row) => CommitKeeps(thread, s.log, s.notified, c, row);
      case NotifyNext => EnqueueKeeps(thread, s.log, s.notified, c, Pg(thread, s.notified + 1));
      case Publish(item) => EnqueueKeeps(thread, s.log, s.notified, c, item);
      case SelectMissed => SelectKeeps(thread, s.log, s.notified, c);
      case Replay => ReplayKeeps(thread, s.log, s.notified, c);
      case Take =>
        if Own(thread, c.queue[0]) {
          TakeOwnKeeps(thread, s.log, s.notified, c);
        } else {
          TakeOtherKeeps(thread, s.log, s.notified, c);
        }
      case KeepaliveTick => IdleKeeps(thread, s.log, s.notified, c);
    }
  }

  lemma {:induction false} RunKeeps(thread: ThreadId, s: System, steps: seq<Step>, e: System)
    requires SystemInv(thread, s) && Runs(thread, s, steps, e)
    ensures SystemInv(thread, e)
    decreases |steps|
  {
    if steps == [] {
    } else {
      StepKeeps(thread, s, steps[0]);
      RunKeeps(thread, Apply(thread, s, steps[0]), steps[1..], e);
    }
  }

  const START := System([], 0, None)

  // ------------------------------------------------------- how often each number

  function Count(xs: seq<nat>, n: nat): nat {
    if xs == [] then 0 else Count(xs[..|xs| - 1], n) + if xs[|xs| - 1] == n then 1 else 0
  }

  lemma {:induction false} CountedIsMember(xs: seq<nat>, n: nat)
    ensures Count(xs, n) >= 1 <==> n in xs
  {
    if xs == [] {
    } else {
      var k := |xs| - 1;
      CountedIsMember(xs[..k], n);
      assert xs == xs[..k] + [xs[k]];
    }
  }

  lemma CountSnoc(xs: seq<nat>, x: nat, n: nat)
    ensures Count(xs + [x], n) == Count(xs, n) + if x == n then 1 else 0
  {
    assert (xs + [x])[..|xs|] == xs;
  }

  lemma {:induction false} CountJoin(xs: seq<nat>, ys: seq<nat>, n: nat)
    ensures Count(xs + ys, n) == Count(xs, n) + Count(ys, n)
    decreases |ys|
  {
    if ys == [] {
      assert xs + ys == xs;
    } else {
      var k := |ys| - 1;
      CountJoin(xs, ys[..k], n);
      assert xs + ys == (xs + ys[..k]) + [ys[k]];
      CountSnoc(xs + ys[..k], ys[k], n);
    }
  }

  lemma {:induction false} CountRange(a: nat, b: nat, n: nat)
    ensures Count(Range(a, b), n) == if a < n <= b then 1 else 0
    decreases b
  {
    if b <= a {
    } else {
      CountRange(a, b - 1, n);
      RangeSnoc(a, b - 1);
      CountSnoc(Range(a, b - 1), b, n);
    }
  }

  lemma {:induction false} CountTaken(
    thread: ThreadId, log: seq<Row>, low: nat, high: nat, mark: nat, popped: nat, n: nat)
    ensures
      Count(Taken(thread, log, low, high, mark, popped), n) ==
      if mark < n <= popped && !Found(thread, log, low, high, n) then 1 else 0
    decreases popped
  {
    if popped <= mark {
    } else {
      var before := Taken(thread, log, low, high, mark, popped - 1);
      CountTaken(thread, log, low, high, mark, popped - 1, n);
      if Found(thread, log, low, high, popped) {
        assert before + [] == before;
      } else {
        CountSnoc(before, popped, n);
      }
    }
  }

  /** How often a live stream has sent each number, in every run whose queue has
      not overflowed: once if SELECT found it, and once more if its notification
      was taken from the queue and it was not recognised as sent, because SELECT
      did not find it or because its payload does not name the thread. */
  lemma TimesSent(thread: ThreadId, steps: seq<Step>, e: System, n: nat)
    requires Runs(thread, START, steps, e)
    requires e.conn.Some? && e.conn.value.phase.Live? && !e.conn.value.overflowed
    ensures
      var c := e.conn.value;
      Count(Persisted(c.out), n) ==
        (if c.cursor < n <= c.high then 1 else 0) +
        (if c.mark < n <= c.popped && !Found(thread, e.log, c.cursor, c.high, n) then 1 else 0)
  {
    RunKeeps(thread, START, steps, e);
    var c := e.conn.value;
    CountJoin(Range(c.cursor, c.high), Taken(thread, e.log, c.cursor, c.high, c.mark, c.popped), n);
    CountRange(c.cursor, c.high, n);
    CountTaken(thread, e.log, c.cursor, c.high, c.mark, c.popped, n);
  }

  /** No notification was taken for a number up to the cursor, nor for a row that
      SELECT found and whose payload does not name the thread. */
  ghost predicate NothingUnrecognised(thread: ThreadId, log: seq<Row>, c: Connection) {
    forall n: nat :: c.mark < n <= Min(c.popped, c.high) ==> Found(thread, log, c.cursor, c.high, n)
  }

  lemma {:induction false} RecognisedIsRange(
    thread: ThreadId, log: seq<Row>, low: nat, high: nat, mark: nat, popped: nat)
    requires mark <= high
    requires forall n: nat :: mark < n <= Min(popped, high) ==> Found(thread, log, low, high, n)
    ensures Taken(thread, log, low, high, mark, popped) == Range(high, popped)
    decreases popped
  {
    if popped <= mark {
    } else {
      RecognisedIsRange(thread, log, low, high, mark, popped - 1);
      if popped <= high {
        assert Found(thread, log, low, high, popped);
        assert Range(high, popped - 1) + [] == Range(high, popped);
      } else {
        RangeSnoc(high, popped - 1);
      }
    }
  }

  lemma RangeJoin(a: nat, b: nat, c: nat)
    requires a <= b
    ensures Range(a, b) + Range(b, c) == Range(a, Max(b, c))
  {
  }

  /** On a live connection whose queue never overflowed, the persistent frames
      are c+1, c+2, ... in order, each with the contents of its row, exactly when
      nothing unrecognised was taken. */
  lemma NoGapNoRepeat(thread: ThreadId, steps: seq<Step>, e: System)
    requires Runs(thread, START, steps, e)
    requires e.conn.Some? && e.conn.value.phase.Live? && !e.conn.value.overflowed
    ensures
      var c := e.conn.value;
      && (Persisted(c.out) == Range(c.cursor, Reached(c)) <==> NothingUnrecognised(thread, e.log, c))
      && FramesAreRows(c.out, e.log)
  {
    RunKeeps(thread, START, steps, e);
    var c, log := e.conn.value, e.log;
    if NothingUnrecognised(thread, log, c) {
      RecognisedIsRange(thread, log, c.cursor, c.high, c.mark, c.popped);
      RangeJoin(c.cursor, c.high, c.popped);
    } else {
      var n: nat :| c.mark < n <= Min(c.popped, c.high) && !Found(thread, log, c.cursor, c.high, n);
      TimesSent(thread, steps, e, n);
      CountRange(c.cursor, Reached(c), n);
    }
  }

  /** When every payload names the thread, as the writers' do: exactly when the
      cursor's own notification had been sent before the connection listened, or
      nothing was taken yet. */
  lemma NamedRowsNoGapNoRepeat(thread: ThreadId, steps: seq<Step>, e: System)
    requires Runs(thread, START, steps, e) && forall i :: 0 <= i < |e.log| ==> e.log[i].thread == thread
    requires e.conn.Some? && e.conn.value.phase.Live? && !e.conn.value.overflowed
    ensures
      var c := e.conn.value;
      Persisted(c.out) == Range(c.cursor, Reached(c)) <==> c.mark >= c.cursor || c.popped == c.mark
  {
    RunKeeps(thread, START, steps, e);
    NoGapNoRepeat(thread, steps, e);
    var c := e.conn.value;
    if c.mark < c.cursor && c.mark < c.popped {
      assert !Found(thread, e.log, c.cursor, c.high, c.mark + 1);
    }
  }

  /** Nothing is held back: once the queue holds no notification of the thread,
      everything notified has been sent. */
  lemma DrainedIsComplete(thread: ThreadId, steps: seq<Step>, e: System, n: nat)
    requires Runs(thread, START, steps, e)
    requires e.conn.Some? && e.conn.value.phase.Live? && !e.conn.value.overflowed
    requires OwnSeqs(thread, e.conn.value.queue) == []
    requires e.conn.value.cursor < n <= e.notified
    ensures n in Persisted(e.conn.value.out)
  {
    RunKeeps(thread, START, steps, e);
    TimesSent(thread, steps, e, n);
    assert |Range(e.conn.value.popped, e.notified)| == 0;
    CountedIsMember(Persisted(e.conn.value.out), n);
  }
}
