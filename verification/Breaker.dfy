/** The circuit breaker and the retry loop of `core/model_router.py`.  The clock
    is a parameter of every operation that reads it. */
module Breaker {
  import opened Wrappers

  datatype Config = Config(failureThreshold: int, recoveryTimeout: real, halfOpenMaxCalls: int)

  datatype State = Closed | Open | HalfOpen

  datatype Breaker = Breaker(config: Config, state: State, failures: nat, lastFailure: real, probes: nat)

  function New(config: Config): Breaker {
    Breaker(config, Closed, 0, 0.0, 0)
  }

  /** Reading the `state` property, which may move to half-open. */
  function Observe(b: Breaker, now: real): Breaker {
    if b.state == Open && now - b.lastFailure >= b.config.recoveryTimeout then b.(state := HalfOpen, probes := 0) else b
  }

  function RecordSuccess(b: Breaker): Breaker {
    b.(state := if b.state == HalfOpen then Closed else b.state, failures := 0)
  }

  function RecordFailure(b: Breaker, now: real): Breaker {
    var n := b.failures + 1;
    b.(failures := n, lastFailure := now, state := if n >= b.config.failureThreshold then Open else b.state)
  }

  predicate Permits(b: Breaker, now: real) {
    var o := Observe(b, now);
    o.state == Closed || (o.state == HalfOpen && o.probes < o.config.halfOpenMaxCalls)
  }

  function Ask(b: Breaker, now: real): Breaker {
    var o := Observe(b, now);
    if o.state == HalfOpen && o.probes < o.config.halfOpenMaxCalls then o.(probes := o.probes + 1) else o
  }

  class CircuitBreaker {
    const config: Config
    var state: State
    var failureCount: nat
    var lastFailureTime: real
    var halfOpenCalls: nat

    function Value(): Breaker
      reads this
    {
      Breaker(config, state, failureCount, lastFailureTime, halfOpenCalls)
    }

    constructor (config: Config)
      ensures Value() == New(config)
    {
      this.config := config;
      state, failureCount, lastFailureTime, halfOpenCalls := Closed, 0, 0.0, 0;
    }

    method CurrentState(now: real) returns (s: State)
      modifies this
      ensures Value() == Observe(old(Value()), now) && s == state
    {
      if state == Open {
        if now - lastFailureTime >= config.recoveryTimeout {
          state := HalfOpen;
          halfOpenCalls := 0;
        }
      }
      s := state;
    }

    method OnSuccess()
      modifies this
      ensures Value() == RecordSuccess(old(Value()))
    {
      if state == HalfOpen {
        state := Closed;
      }
      failureCount := 0;
    }

    method OnFailure(now: real)
      modifies this
      ensures Value() == RecordFailure(old(Value()), now)
    {
      failureCount := failureCount + 1;
      lastFailureTime := now;
      if failureCount >= config.failureThreshold {
        state := Open;
      }
    }

    method CanExecute(now: real) returns (ok: bool)
      modifies this
      ensures Value() == Ask(old(Value()), now) && ok == Permits(old(Value()), now)
    {
      var s := CurrentState(now);
      if s == Closed {
        return true;
      }
      if s == HalfOpen {
        if halfOpenCalls < config.halfOpenMaxCalls {
          halfOpenCalls := halfOpenCalls + 1;
          return true;
        }
        return false;
      }
      return false;
    }
  }

  // --------------------------------------------------------- every history

  datatype Op =
    | Asked(at: real)
    | Observed(at: real)
    | Succeeded(at: real)
    | Failed(at: real)

  function Do(b: Breaker, op: Op): Breaker {
    match op
    case Asked(t) => Ask(b, t)
    case Observed(t) => Observe(b, t)
    case Succeeded(_) => RecordSuccess(b)
    case Failed(t) => RecordFailure(b, t)
  }

  function DoAll(b: Breaker, ops: seq<Op>): Breaker {
    if ops == [] then b else Do(DoAll(b, ops[..|ops| - 1]), ops[|ops| - 1])
  }

  /** The failures since the last success, whatever was asked in between. */
  function TrailingFailures(ops: seq<Op>): nat {
    if ops == [] then 0
    else
      var before := ops[..|ops| - 1];
      match ops[|ops| - 1]
      case Succeeded(_) => 0
      case Failed(_) => TrailingFailures(before) + 1
      case _ => TrailingFailures(before)
  }

  function LastFailure(ops: seq<Op>): Option<real> {
    if ops == [] then None
    else
      match ops[|ops| - 1]
      case Failed(t) => Some(t)
      case _ => LastFailure(ops[..|ops| - 1])
  }

  predicate TimesAscend(ops: seq<Op>) {
    forall i, j :: 0 <= i < j < |ops| ==> ops[i].at <= ops[j].at
  }

  /** In any history, with calls overlapping or not, the count is the trailing
      run of failures. */
  lemma {:induction false} CountIsTrailing(config: Config, ops: seq<Op>)
    ensures DoAll(New(config), ops).failures == TrailingFailures(ops)
    ensures DoAll(New(config), ops).config == config
    ensures LastFailure(ops).Some? ==> DoAll(New(config), ops).lastFailure == LastFailure(ops).value
    ensures LastFailure(ops).None? ==> DoAll(New(config), ops).state == Closed && TrailingFailures(ops) == 0
  {
    if ops == [] {
    } else {
      CountIsTrailing(config, ops[..|ops| - 1]);
    }
  }

  /** Below the threshold, or never failed. */
  predicate Healthy(b: Breaker) {
    b.failures == 0 || b.failures < b.config.failureThreshold
  }

  predicate StateFits(b: Breaker, now: real) {
    match b.state
    case Closed => Healthy(b)
    case HalfOpen => Healthy(b) || now - b.lastFailure >= b.config.recoveryTimeout
    case Open => true
  }

  lemma {:induction false} StateAlwaysFits(config: Config, ops: seq<Op>)
    requires TimesAscend(ops)
    ensures ops != [] ==> StateFits(DoAll(New(config), ops), ops[|ops| - 1].at)
  {
    if ops == [] {
    } else {
      StateAlwaysFits(config, ops[..|ops| - 1]);
    }
  }

  /** A permit means that the trailing run of failures is below the threshold, or
      that the recovery timeout has passed since the last failure. */
  lemma PermitMeansHealthyOrRested(config: Config, ops: seq<Op>, now: real)
    requires TimesAscend(ops) && (ops != [] ==> ops[|ops| - 1].at <= now)
    requires Permits(DoAll(New(config), ops), now)
    ensures
      || TrailingFailures(ops) == 0
      || TrailingFailures(ops) < config.failureThreshold
      || (LastFailure(ops).Some? && now - LastFailure(ops).value >= config.recoveryTimeout)
  {
    CountIsTrailing(config, ops);
    StateAlwaysFits(config, ops);
  }

  // --------------------------------------------------------- half-open stays

  /** How many permits a sequence of operations grants. */
  function Grants(b: Breaker, ops: seq<Op>): nat {
    if ops == [] then 0
    else
      var before, op := ops[..|ops| - 1], ops[|ops| - 1];
      Grants(b, before) + if op.Asked? && Permits(DoAll(b, before), op.at) then 1 else 0
  }

  /** Half-open after each of the operations. */
  predicate StaysHalfOpen(b: Breaker, ops: seq<Op>) {
    if ops == [] then true
    else DoAll(b, ops).state == HalfOpen && StaysHalfOpen(b, ops[..|ops| - 1])
  }

  function Most(config: Config): nat {
    if config.halfOpenMaxCalls < 0 then 0 else config.halfOpenMaxCalls
  }

  /** From an open breaker, one stay in half-open grants at most
      `half_open_max_calls` permits, whatever happens during the stay. */
  lemma {:induction false} StayGrantsAtMost(b: Breaker, ops: seq<Op>)
    requires b.state == Open && StaysHalfOpen(b, ops)
    ensures ops != [] ==> Grants(b, ops) == DoAll(b, ops).probes <= Most(b.config)
    ensures DoAll(b, ops).config == b.config
  {
    if ops == [] {
    } else {
      var before := ops[..|ops| - 1];
      StayGrantsAtMost(b, before);
      if before == [] {
        assert DoAll(b, before) == b && Grants(b, before) == 0;
      }
    }
  }

  // ------------------------------------------------------- being stuck for good

  /** Refuses at any time, however late. */
  ghost predicate RefusesAlways(b: Breaker) {
    forall now :: !Permits(b, now)
  }

  /** Half-open with no probe left, or with none to give. */
  predicate Stuck(b: Breaker) {
    || (b.state == HalfOpen && b.probes >= b.config.halfOpenMaxCalls)
    || (b.state == Open && b.config.halfOpenMaxCalls <= 0)
  }

  /** Exactly when a breaker refuses for good. */
  lemma RefusesAlwaysIffStuck(b: Breaker)
    ensures RefusesAlways(b) <==> Stuck(b)
  {
    if !Stuck(b) {
      assert Permits(b, b.lastFailure + b.config.recoveryTimeout);
    }
  }

  /** Once it is stuck, asking does not help: when the outcome of a probe is
      never recorded (a cancelled call is no `Exception`), nothing else will come. */
  lemma {:induction false} UnrecordedProbeBlocksForever(b: Breaker, ops: seq<Op>)
    requires Stuck(b) && forall i :: 0 <= i < |ops| ==> ops[i].Asked? || ops[i].Observed?
    ensures Stuck(DoAll(b, ops)) && RefusesAlways(DoAll(b, ops)) && Grants(b, ops) == 0
    ensures DoAll(b, ops).config == b.config
  {
    if ops == [] {
    } else {
      UnrecordedProbeBlocksForever(b, ops[..|ops| - 1]);
    }
    RefusesAlwaysIffStuck(DoAll(b, ops));
  }

  /** What frees a stuck breaker that has probes to give: a success while it is
      half-open, or the failure that reaches the threshold. */
  lemma FreedIff(b: Breaker, op: Op)
    requires Stuck(b) && b.config.halfOpenMaxCalls > 0
    ensures
      !Stuck(Do(b, op)) <==>
      op.Succeeded? || (op.Failed? && b.failures + 1 >= b.config.failureThreshold)
  {
  }

  /** A failed probe of a half-open breaker reopens it exactly when it reaches
      the threshold; otherwise it stays half-open, and is stuck exactly when that
      was the last probe. */
  lemma FailedProbe(b: Breaker, t: real)
    requires b.state == HalfOpen && b.config.halfOpenMaxCalls > 0
    ensures RecordFailure(b, t).state == Open <==> b.failures + 1 >= b.config.failureThreshold
    ensures
      Stuck(RecordFailure(b, t)) <==>
      b.failures + 1 < b.config.failureThreshold && b.probes >= b.config.halfOpenMaxCalls
  {
  }

  function Repeat(op: Op, n: nat): seq<Op> {
    seq(n, _ => op)
  }

  lemma RepeatSnoc(op: Op, n: nat)
    ensures Repeat(op, n + 1) == Repeat(op, n) + [op]
  {
  }

  lemma DoSnoc(b: Breaker, ops: seq<Op>, op: Op)
    ensures DoAll(b, ops + [op]) == Do(DoAll(b, ops), op)
    ensures Grants(b, ops + [op]) == Grants(b, ops) + if op.Asked? && Permits(DoAll(b, ops), op.at) then 1 else 0
  {
    assert (ops + [op])[..|ops|] == ops;
  }

  lemma {:induction false} DoJoin(b: Breaker, ops: seq<Op>, more: seq<Op>)
    ensures DoAll(b, ops + more) == DoAll(DoAll(b, ops), more)
    ensures Grants(b, ops + more) == Grants(b, ops) + Grants(DoAll(b, ops), more)
    decreases |more|
  {
    if more == [] {
      assert ops + more == ops;
    } else {
      var n := |more| - 1;
      DoJoin(b, ops, more[..n]);
      assert ops + more == (ops + more[..n]) + [more[n]];
      assert more == more[..n] + [more[n]];
      DoSnoc(b, ops + more[..n], more[n]);
      DoSnoc(DoAll(b, ops), more[..n], more[n]);
    }
  }

  /** While closed, every request is granted and changes nothing. */
  lemma {:induction false} AsksWhileClosed(b: Breaker, t: real, n: nat)
    requires b.state == Closed
    ensures DoAll(b, Repeat(Asked(t), n)) == b && Grants(b, Repeat(Asked(t), n)) == n
  {
    if n == 0 {
    } else {
      AsksWhileClosed(b, t, n - 1);
      RepeatSnoc(Asked(t), n - 1);
      DoSnoc(b, Repeat(Asked(t), n - 1), Asked(t));
    }
  }

  /** Failures in a row, from any breaker, open it when the last one reaches the
      threshold. */
  lemma {:induction false} FailuresInARow(b: Breaker, t: real, n: nat)
    requires n > 0
    ensures
      DoAll(b, Repeat(Failed(t), n)) ==
      b.(failures := b.failures + n, lastFailure := t,
         state := if b.failures + n >= b.config.failureThreshold then Open else b.state)
    ensures Grants(b, Repeat(Failed(t), n)) == 0
  {
    if n == 1 {
      assert Repeat(Failed(t), 1)[..0] == [];
    } else {
      FailuresInARow(b, t, n - 1);
      RepeatSnoc(Failed(t), n - 1);
      DoSnoc(b, Repeat(Failed(t), n - 1), Failed(t));
    }
  }

  /** Requests to a rested open breaker use up its probes and no more. */
  lemma {:induction false} AsksWhenRested(b: Breaker, t: real, n: nat)
    requires b.state == Open && t - b.lastFailure >= b.config.recoveryTimeout && 0 < n <= b.config.halfOpenMaxCalls
    ensures DoAll(b, Repeat(Asked(t), n)) == b.(state := HalfOpen, probes := n)
    ensures Grants(b, Repeat(Asked(t), n)) == n
  {
    if n == 1 {
      assert Repeat(Asked(t), 1)[..0] == [];
    } else {
      AsksWhenRested(b, t, n - 1);
      RepeatSnoc(Asked(t), n - 1);
      DoSnoc(b, Repeat(Asked(t), n - 1), Asked(t));
    }
  }

  /** Every configuration can get stuck: let calls fail until the breaker opens,
      rest, and never record what became of the probes. */
  lemma EveryBreakerCanStick(config: Config, t0: real, t: real) returns (ops: seq<Op>)
    requires t - t0 >= config.recoveryTimeout
    ensures Stuck(DoAll(New(config), ops)) && RefusesAlways(DoAll(New(config), ops))
    ensures forall i :: 0 <= i < |ops| ==> !ops[i].Succeeded?
  {
    var b, n := New(config), if config.failureThreshold <= 0 then 1 else config.failureThreshold;
    var calls, fails := Repeat(Asked(t0), n), Repeat(Failed(t0), n);
    ops := calls + fails;
    AsksWhileClosed(b, t0, n);
    FailuresInARow(b, t0, n);
    DoJoin(b, calls, fails);
    if config.halfOpenMaxCalls > 0 {
      var probes := Repeat(Asked(t), config.halfOpenMaxCalls);
      AsksWhenRested(DoAll(b, fails), t, config.halfOpenMaxCalls);
      DoJoin(b, calls + fails, probes);
      ops := ops + probes;
    }
    RefusesAlwaysIffStuck(DoAll(b, ops));
  }

  /** The outcomes in a history. */
  function Outcomes(ops: seq<Op>): nat {
    if ops == [] then 0
    else
      var last := ops[|ops| - 1];
      Outcomes(ops[..|ops| - 1]) + if last.Succeeded? || last.Failed? then 1 else 0
  }

  /** A success recorded while open clears the count.  When the probes that follow
      all fail, the breaker is stuck exactly when they are fewer than the
      threshold. */
  lemma OverlapLeavesHalfOpen(b: Breaker, t: real)
    requires b.state == Open && t - b.lastFailure >= b.config.recoveryTimeout && b.config.halfOpenMaxCalls > 0
    ensures
      var n := b.config.halfOpenMaxCalls;
      var e := DoAll(RecordSuccess(b), Repeat(Asked(t), n) + Repeat(Failed(t), n));
      && Grants(RecordSuccess(b), Repeat(Asked(t), n)) == n
      && (Stuck(e) <==> n < b.config.failureThreshold)
      && (RefusesAlways(e) <==> n < b.config.failureThreshold)
  {
    var n, c := b.config.halfOpenMaxCalls, RecordSuccess(b);
    AsksWhenRested(c, t, n);
    FailuresInARow(DoAll(c, Repeat(Asked(t), n)), t, n);
    DoJoin(c, Repeat(Asked(t), n), Repeat(Failed(t), n));
    RefusesAlwaysIffStuck(DoAll(c, Repeat(Asked(t), n) + Repeat(Failed(t), n)));
  }

  lemma {:induction false} OutcomesJoin(ops: seq<Op>, more: seq<Op>)
    ensures Outcomes(ops + more) == Outcomes(ops) + Outcomes(more)
    decreases |more|
  {
    if more == [] {
      assert ops + more == ops;
    } else {
      var n := |more| - 1;
      OutcomesJoin(ops, more[..n]);
      assert (ops + more)[..|ops + more| - 1] == ops + more[..n];
    }
  }

  lemma {:induction false} OutcomesRepeat(op: Op, n: nat)
    ensures Outcomes(Repeat(op, n)) == if op.Succeeded? || op.Failed? then n else 0
  {
    if n == 0 {
    } else {
      OutcomesRepeat(op, n - 1);
      assert Repeat(op, n)[..n - 1] == Repeat(op, n - 1);
    }
  }

  /** A run from a new breaker in which every granted call has its outcome
      recorded, and which ends stuck: one call too many overlaps the failures
      that open the breaker, and succeeds. */
  lemma OverlapRunSticks(config: Config, t0: real, t: real) returns (ops: seq<Op>)
    requires 0 < config.halfOpenMaxCalls < config.failureThreshold && t - t0 >= config.recoveryTimeout
    ensures Stuck(DoAll(New(config), ops)) && RefusesAlways(DoAll(New(config), ops))
    ensures Grants(New(config), ops) == Outcomes(ops)
  {
    var b, n, m := New(config), config.failureThreshold, config.halfOpenMaxCalls;
    var calls, fails := Repeat(Asked(t0), n + 1), Repeat(Failed(t0), n);
    var probes, failed := Repeat(Asked(t), m), Repeat(Failed(t), m);
    AsksWhileClosed(b, t0, n + 1);
    FailuresInARow(b, t0, n);
    DoJoin(b, calls, fails);
    var atRest := DoAll(b, calls + fails);
    DoSnoc(b, calls + fails, Succeeded(t0));
    OverlapLeavesHalfOpen(atRest, t);
    var before := calls + fails + [Succeeded(t0)];
    DoJoin(b, before, probes + failed);
    ops := before + (probes + failed);
    CountRun(b, t0, t, n, m);
  }

  /** As many outcomes as grants in that run. */
  lemma CountRun(b: Breaker, t0: real, t: real, n: nat, m: nat)
    requires b == New(b.config) && n == b.config.failureThreshold && 0 < m == b.config.halfOpenMaxCalls
    requires t - t0 >= b.config.recoveryTimeout && n > 0
    ensures
      var ops := Repeat(Asked(t0), n + 1) + Repeat(Failed(t0), n) + [Succeeded(t0)] +
        (Repeat(Asked(t), m) + Repeat(Failed(t), m));
      Grants(b, ops) == Outcomes(ops) == n + 1 + m
  {
    var calls, fails := Repeat(Asked(t0), n + 1), Repeat(Failed(t0), n);
    var probes, failed := Repeat(Asked(t), m), Repeat(Failed(t), m);
    AsksWhileClosed(b, t0, n + 1);
    FailuresInARow(b, t0, n);
    DoJoin(b, calls, fails);
    DoSnoc(b, calls + fails, Succeeded(t0));
    var c := DoAll(b, calls + fails + [Succeeded(t0)]);
    AsksWhenRested(c, t, m);
    FailuresInARow(DoAll(c, probes), t, m);
    DoJoin(c, probes, failed);
    DoJoin(b, calls + fails + [Succeeded(t0)], probes + failed);
    OutcomesRepeat(Asked(t0), n + 1);
    OutcomesRepeat(Failed(t0), n);
    OutcomesRepeat(Asked(t), m);
    OutcomesRepeat(Failed(t), m);
    OutcomesJoin(calls, fails);
    assert Outcomes([Succeeded(t0)]) == 1;
    OutcomesJoin(calls + fails, [Succeeded(t0)]);
    OutcomesJoin(probes, failed);
    OutcomesJoin(calls + fails + [Succeeded(t0)], probes + failed);
  }

  // --------------------------------------------------------- sequential calls

  /** One call: when it asks, when it ends, and how. */
  datatype Call = Call(asked: real, ended: real, ok: bool)

  function Perform(b: Breaker, c: Call): Breaker {
    if !Permits(b, c.asked) then Ask(b, c.asked)
    else if c.ok then RecordSuccess(Ask(b, c.asked))
    else RecordFailure(Ask(b, c.asked), c.ended)
  }

  function PerformAll(b: Breaker, calls: seq<Call>): Breaker {
    if calls == [] then b else Perform(PerformAll(b, calls[..|calls| - 1]), calls[|calls| - 1])
  }

  /** When calls do not overlap, the breaker is closed exactly while it is
      healthy, and is never left half-open by a call that was let through, so a
      failed probe always reopens it and a successful one always closes it. */
  lemma {:induction false} ClosedIffHealthy(config: Config, calls: seq<Call>)
    ensures
      var b := PerformAll(New(config), calls);
      && b.config == config
      && (b.state == Closed <==> Healthy(b))
      && (b.state == HalfOpen ==> config.halfOpenMaxCalls <= 0)
  {
    if calls == [] {
    } else {
      ClosedIffHealthy(config, calls[..|calls| - 1]);
    }
  }

  /** When calls do not overlap, a request is let through exactly when the run of
      failures is below the threshold or the timeout has passed since the last. */
  lemma PermittedIff(config: Config, calls: seq<Call>, now: real)
    ensures
      var b := PerformAll(New(config), calls);
      Permits(b, now) <==>
      Healthy(b) || (config.halfOpenMaxCalls > 0 && now - b.lastFailure >= config.recoveryTimeout)
  {
    ClosedIffHealthy(config, calls);
  }

  // ------------------------------------------------------------------ retry

  datatype Outcome = Returned | Refused | Raised

  datatype Report = Report(breaker: Option<Breaker>, outcome: Outcome, made: nat, sleeps: seq<real>)

  function Pow2(n: nat): nat {
    if n == 0 then 1 else 2 * Pow2(n - 1)
  }

  function RealMin(a: real, b: real): real {
    if a < b then a else b
  }

  /** `base * 2 ** n` */
  function Scaled(base: real, n: nat): real {
    if n == 0 then base else 2.0 * Scaled(base, n - 1)
  }

  function Delay(base: real, max: real, attempt: nat): real {
    RealMin(Scaled(base, attempt), max)
  }

  /** How one attempt ends. */
  function Verdict(b: Option<Breaker>, call: Call): Outcome {
    if b.Some? && !Permits(b.value, call.asked) then Refused else if call.ok then Returned else Raised
  }

  /** The breaker, if there is one, after one attempt. */
  function Attempted(b: Option<Breaker>, call: Call): Option<Breaker> {
    if b.None? then None else Some(Perform(b.value, call))
  }

  /** Attempt number `i` failed before the rest. */
  function OneMore(rest: Report, maxRetries: int, base: real, max: real, i: nat): Report {
    rest.(made := rest.made + 1, sleeps := (if i < maxRetries then [Delay(base, max, i)] else []) + rest.sleeps)
  }

  /** Attempt number `i` and those after it; `env` is what the world does. */
  function Retry(b: Option<Breaker>, env: nat -> Call, maxRetries: int, base: real, max: real, i: nat): Report
    decreases maxRetries + 1 - i
  {
    if i > maxRetries then Report(b, Raised, 0, [])
    else
      var after := Attempted(b, env(i));
      match Verdict(b, env(i))
      case Refused => Report(after, Refused, 0, [])
      case Returned => Report(after, Returned, 1, [])
      case Raised =>
        OneMore(Retry(after, env, maxRetries, base, max, i + 1), maxRetries, base, max, i)
  }

  function ValueOf(cb: CircuitBreaker?): Option<Breaker>
    reads cb
  {
    if cb == null then None else Some(cb.Value())
  }

  /** The body of the retry loop, up to the sleep. */
  method TryOnce(cb: CircuitBreaker?, call: Call) returns (verdict: Outcome)
    modifies cb
    ensures verdict == Verdict(old(ValueOf(cb)), call) && ValueOf(cb) == Attempted(old(ValueOf(cb)), call)
  {
    if cb != null {
      var ok := cb.CanExecute(call.asked);
      if !ok {
        return Refused;
      }
    }
    if call.ok {
      if cb != null {
        cb.OnSuccess();
      }
      return Returned;
    }
    if cb != null {
      cb.OnFailure(call.ended);
    }
    return Raised;
  }

  function Joined(made: nat, sleeps: seq<real>, rest: Report): Report {
    rest.(made := made + rest.made, sleeps := sleeps + rest.sleeps)
  }

  lemma JoinStep(made: nat, sleeps: seq<real>, b: Option<Breaker>, env: nat -> Call, maxRetries: int, base: real, max: real, i: nat)
    requires i <= maxRetries && Verdict(b, env(i)) == Raised
    ensures
      var slept := sleeps + if i < maxRetries then [Delay(base, max, i)] else [];
      Joined(made, sleeps, Retry(b, env, maxRetries, base, max, i)) ==
      Joined(made + 1, slept, Retry(Attempted(b, env(i)), env, maxRetries, base, max, i + 1))
  {
  }

  /** `_retry_with_backoff`.  With a negative `max_retries` nothing is attempted. */
  method RetryWithBackoff(cb: CircuitBreaker?, env: nat -> Call, maxRetries: int, base: real, max: real)
    returns (outcome: Outcome, made: nat, sleeps: seq<real>)
    modifies cb
    ensures Report(ValueOf(cb), outcome, made, sleeps) == Retry(old(ValueOf(cb)), env, maxRetries, base, max, 0)
  {
    made, sleeps := 0, [];
    var attempt := 0;
    ghost var whole := Retry(ValueOf(cb), env, maxRetries, base, max, 0);
    assert Joined(0, [], whole) == whole;
    while attempt < maxRetries + 1
      invariant 0 <= attempt
      invariant Joined(made, sleeps, Retry(ValueOf(cb), env, maxRetries, base, max, attempt)) == whole
    {
      ghost var before := ValueOf(cb);
      var verdict := TryOnce(cb, env(attempt));
      if verdict == Refused {
        return Refused, made, sleeps;
      } else if verdict == Returned {
        return Returned, made + 1, sleeps;
      }
      JoinStep(made, sleeps, before, env, maxRetries, base, max, attempt);
      made := made + 1;
      if attempt < maxRetries {
        sleeps := sleeps + [Delay(base, max, attempt)];
      }
      attempt := attempt + 1;
    }
    outcome := Raised;
  }

  // -------------------------------------------------- what the loop comes to

  function Min(a: int, b: int): int {
    if a < b then a else b
  }

  function Tries(maxRetries: int): nat {
    if maxRetries < 0 then 0 else maxRetries + 1
  }

  /** Attempts `i` to `n - 1` sleep. */
  function Delays(base: real, max: real, i: nat, n: int): seq<real>
    decreases n - i
  {
    if i >= n then [] else [Delay(base, max, i)] + Delays(base, max, i + 1, n)
  }

  /** What calls that do not overlap leave. */
  predicate Settled(b: Breaker) {
    && (b.state == Closed <==> Healthy(b))
    && (b.state == HalfOpen ==> b.config.halfOpenMaxCalls <= 0)
  }

  /** Whether attempt `i` may call, the earlier ones having failed: the run of
      failures is below the threshold, or the timeout has passed since the last. */
  predicate Admitted(b: Option<Breaker>, env: nat -> Call, i: nat) {
    match b
    case None => true
    case Some(b) =>
      || b.failures + i == 0
      || b.failures + i < b.config.failureThreshold
      || (&& b.config.halfOpenMaxCalls > 0
          && env(i).asked - (if i == 0 then b.lastFailure else env(i - 1).ended) >= b.config.recoveryTimeout)
  }

  predicate FailsIn(b: Option<Breaker>, env: nat -> Call, i: nat) {
    Admitted(b, env, i) && !env(i).ok
  }

  /** The attempt that ends the loop: the last call made, when that returns, or
      the one after the last call made. */
  function Stop(r: Report): int {
    if r.outcome == Returned then r.made - 1 else r.made
  }

  /** The report of a loop that runs attempts `i` and up: calls from there on are
      admitted and fail until one succeeds, one is refused, or none is left; there
      is a sleep after each of them but a last one. */
  predicate EndsAt(
    b: Option<Breaker>, env: nat -> Call, maxRetries: int, base: real, max: real, i: nat, stop: int, r: Report)
  {
    && (forall k: nat :: i <= k < stop ==> FailsIn(b, env, k))
    && (stop <= maxRetries ==>
        && 0 <= stop && r.sleeps == Delays(base, max, i, stop)
        && r.outcome == (if Admitted(b, env, stop) then Returned else Refused)
        && (r.outcome == Returned ==> env(stop).ok))
    && (stop > maxRetries ==> r.outcome == Raised && r.sleeps == Delays(base, max, i, maxRetries))
    && (r.breaker.None? <==> b.None?)
    && (b.Some? && r.outcome == Returned ==> r.breaker.value.state == Closed && r.breaker.value.failures == 0)
    && (b.Some? && r.outcome != Returned ==> r.breaker.value.failures == b.value.failures + stop)
  }

  /** The breaker when `i` attempts have failed. */
  predicate AfterFailures(b: Option<Breaker>, env: nat -> Call, i: nat, now: Option<Breaker>) {
    match b
    case None => now.None?
    case Some(b) =>
      && now.Some? && Settled(now.value) && now.value.config == b.config
      && now.value.failures == b.failures + i
      && now.value.lastFailure == (if i == 0 then b.lastFailure else env(i - 1).ended)
  }

  lemma AttemptFollowsEnv(b: Option<Breaker>, env: nat -> Call, i: nat, now: Option<Breaker>)
    requires AfterFailures(b, env, i, now)
    ensures Verdict(now, env(i)) == Refused <==> !Admitted(b, env, i)
    ensures Verdict(now, env(i)) == Returned <==> Admitted(b, env, i) && env(i).ok
    ensures Verdict(now, env(i)) == Raised ==> AfterFailures(b, env, i + 1, Attempted(now, env(i)))
    ensures Verdict(now, env(i)) == Refused ==> b.Some? && Attempted(now, env(i)).value.failures == b.value.failures + i
    ensures
      Verdict(now, env(i)) == Returned && b.Some? ==>
      Attempted(now, env(i)).value.state == Closed && Attempted(now, env(i)).value.failures == 0
  {
  }

  /** One more failed attempt in front. */
  lemma FailedBefore(
    b: Option<Breaker>, env: nat -> Call, maxRetries: int, base: real, max: real, i: nat, stop: int, rest: Report)
    requires i <= maxRetries && i < stop && FailsIn(b, env, i)
    requires EndsAt(b, env, maxRetries, base, max, i + 1, stop, rest)
    ensures EndsAt(b, env, maxRetries, base, max, i, stop, OneMore(rest, maxRetries, base, max, i))
  {
  }

  /** No attempt follows. */
  lemma EndsHere(
    b: Option<Breaker>, env: nat -> Call, maxRetries: int, base: real, max: real, i: nat, now: Option<Breaker>)
    requires AfterFailures(b, env, i, now) && i <= Tries(maxRetries)
    requires i > maxRetries || Verdict(now, env(i)) != Raised
    ensures
      var r := Retry(now, env, maxRetries, base, max, i);
      Stop(r) == 0 && EndsAt(b, env, maxRetries, base, max, i, i, r)
  {
    if i <= maxRetries {
      AttemptFollowsEnv(b, env, i, now);
    }
  }

  lemma GoesOn(
    env: nat -> Call, maxRetries: int, base: real, max: real, i: nat, now: Option<Breaker>)
    requires i <= maxRetries && Verdict(now, env(i)) == Raised
    ensures
      Retry(now, env, maxRetries, base, max, i) ==
      OneMore(Retry(Attempted(now, env(i)), env, maxRetries, base, max, i + 1), maxRetries, base, max, i)
  {
  }

  lemma {:induction false} RetryEndsFrom(
    b: Option<Breaker>, env: nat -> Call, maxRetries: int, base: real, max: real, i: nat, now: Option<Breaker>,
    r: Report)
    requires AfterFailures(b, env, i, now) && i <= Tries(maxRetries)
    requires r == Retry(now, env, maxRetries, base, max, i)
    ensures i <= i + Stop(r) <= Tries(maxRetries) && EndsAt(b, env, maxRetries, base, max, i, i + Stop(r), r)
    decreases maxRetries + 1 - i
  {
    if i > maxRetries || Verdict(now, env(i)) != Raised {
      EndsHere(b, env, maxRetries, base, max, i, now);
    } else {
      AttemptFollowsEnv(b, env, i, now);
      var next := Attempted(now, env(i));
      var rest := Retry(next, env, maxRetries, base, max, i + 1);
      RetryEndsFrom(b, env, maxRetries, base, max, i + 1, next, rest);
      GoesOn(env, maxRetries, base, max, i, now);
      FailedBefore(b, env, maxRetries, base, max, i, i + 1 + Stop(rest), rest);
    }
  }

  /** What the loop comes to, for every behaviour of the calls and whatever calls
      came before: it ends at the first attempt that succeeds, at the first that
      is refused, or when the attempts are used up. */
  lemma RetryFollowsEnv(b: Option<Breaker>, env: nat -> Call, maxRetries: int, base: real, max: real)
    requires b.Some? ==> Settled(b.value)
    ensures
      var r := Retry(b, env, maxRetries, base, max, 0);
      0 <= Stop(r) <= Tries(maxRetries) && EndsAt(b, env, maxRetries, base, max, 0, Stop(r), r)
  {
    RetryEndsFrom(b, env, maxRetries, base, max, 0, b, Retry(b, env, maxRetries, base, max, 0));
  }

  /** The first attempt to succeed. */
  predicate FirstSuccess(env: nat -> Call, k: nat) {
    env(k).ok && forall i: nat :: i < k ==> !env(i).ok
  }

  /** Without a breaker, or with one that is closed and stays below the threshold:
      the loop returns exactly when some attempt up to `max_retries` succeeds,
      after calling up to the first of them and sleeping after each of the others,
      and leaves the breaker closed and its count cleared. */
  lemma ReturnsIffOneSucceeds(b: Option<Breaker>, env: nat -> Call, maxRetries: int, base: real, max: real)
    requires
      b.Some? ==> b.value.state == Closed && b.value.failures + Tries(maxRetries) <= b.value.config.failureThreshold
    ensures
      var r := Retry(b, env, maxRetries, base, max, 0);
      && (r.outcome == Returned <==> exists k: nat :: k <= maxRetries && env(k).ok)
      && (r.outcome == Returned ==>
          && r.made > 0 && FirstSuccess(env, r.made - 1) && r.sleeps == Delays(base, max, 0, r.made - 1)
          && (b.Some? ==> r.breaker.Some? && r.breaker.value.state == Closed && r.breaker.value.failures == 0))
      && (r.outcome != Returned ==>
          r.outcome == Raised && r.made == Tries(maxRetries) && r.sleeps == Delays(base, max, 0, maxRetries))
  {
    if maxRetries >= 0 {
      var r := Retry(b, env, maxRetries, base, max, 0);
      RetryFollowsEnv(b, env, maxRetries, base, max);
      var stop := Stop(r);
      forall k: nat | k < stop
        ensures !env(k).ok
      {
        assert FailsIn(b, env, k);
      }
    }
  }

  /** Every attempt fails, and the next one asks before the timeout has passed. */
  predicate FailsQuickly(env: nat -> Call, maxRetries: int, timeout: real) {
    forall i: nat :: i <= maxRetries ==> !env(i).ok && (i > 0 ==> env(i).asked - env(i - 1).ended < timeout)
  }

  function Sum(xs: seq<real>): real {
    if xs == [] then 0.0 else xs[0] + Sum(xs[1..])
  }

  /** From closed with f failures, an all-failing chain that resumes before the
      timeout makes exactly min(max_retries + 1, threshold - f) calls and sleeps
      after all of them but a last one. */
  lemma AllFailingChain(b: Breaker, env: nat -> Call, maxRetries: nat, base: real, max: real)
    requires b.state == Closed && b.failures < b.config.failureThreshold
    requires FailsQuickly(env, maxRetries, b.config.recoveryTimeout)
    ensures
      var left := b.config.failureThreshold - b.failures;
      var r := Retry(Some(b), env, maxRetries, base, max, 0);
      && r.made == Min(maxRetries + 1, left)
      && r.sleeps == Delays(base, max, 0, Min(maxRetries, left))
      && r.outcome == (if left <= maxRetries then Refused else Raised)
  {
    var left := b.config.failureThreshold - b.failures;
    var r := Retry(Some(b), env, maxRetries, base, max, 0);
    RetryFollowsEnv(Some(b), env, maxRetries, base, max);
    if left <= maxRetries {
      assert !FailsIn(Some(b), env, left);
    }
  }

  lemma {:induction false} ScaledIsPower(base: real, n: nat)
    ensures Scaled(base, n) == base * Pow2(n) as real
  {
    if n == 0 {
    } else {
      ScaledIsPower(base, n - 1);
    }
  }

  lemma {:induction false} ScaledGrows(base: real, i: nat, j: nat)
    requires base >= 0.0 && i <= j
    ensures 0.0 <= Scaled(base, i) <= Scaled(base, j)
    decreases j
  {
    if i < j {
      ScaledGrows(base, i, j - 1);
    } else if i > 0 {
      ScaledGrows(base, i - 1, j - 1);
    }
  }

  function Times(n: nat, x: real): real {
    if n == 0 then 0.0 else x + Times(n - 1, x)
  }

  lemma {:induction false} TimesIsProduct(n: nat, x: real)
    ensures Times(n, x) == n as real * x
  {
    if n == 0 {
    } else {
      TimesIsProduct(n - 1, x);
    }
  }

  lemma {:induction false} AllCapped(base: real, max: real, c: nat, i: nat, n: nat)
    requires base >= 0.0 && c <= i <= n && Scaled(base, c) >= max
    ensures Sum(Delays(base, max, i, n)) == Times(n - i, max)
    decreases n - i
  {
    if i < n {
      ScaledGrows(base, c, i);
      AllCapped(base, max, c, i + 1, n);
    }
  }

  /** Doubling up to attempt `c`, the cap from there. */
  lemma {:induction false} SumFrom(base: real, max: real, i: nat, c: nat, n: nat)
    requires base >= 0.0 && i <= c <= n
    requires forall k: nat :: k < c ==> Scaled(base, k) < max
    requires c < n ==> Scaled(base, c) >= max
    ensures Sum(Delays(base, max, i, n)) == Scaled(base, c) - Scaled(base, i) + Times(n - c, max)
    decreases n - i
  {
    if i < c {
      SumFrom(base, max, i + 1, c, n);
    } else if i < n {
      AllCapped(base, max, c, i, n);
    }
  }

  /** The capped geometric sum of n sleeps, `c` of which stay under the cap. */
  lemma SleepsSumUp(base: real, max: real, c: nat, n: nat)
    requires base >= 0.0 && c <= n
    requires forall k: nat :: k < c ==> Scaled(base, k) < max
    requires c < n ==> Scaled(base, c) >= max
    ensures Sum(Delays(base, max, 0, n)) == base * Pow2(c) as real - base + (n - c) as real * max
  {
    SumFrom(base, max, 0, c, n);
    ScaledIsPower(base, c);
    TimesIsProduct(n - c, max);
  }
}
