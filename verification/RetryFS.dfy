/** The RetryFS object: its loops, their dispatch to a breaker, and the result wrappers. The wrapped
    function is an oracle; `notices`, `sleeps` and `calls` record what the outside sees. */
module RetryFileSystem {
  import opened Types
  import opened Errors
  import opened RetryLoop
  import opened WholeOperation
  import opened MetricsObjects
  import opened CircuitBreakers
  import opened PerOperationCircuitBreakers
  import P = Backoff
  import B = Breaker
  import R = Registry
  import C = ContextLoop

  class RetryFS {
    const config: Config
    const metrics: Metrics
    const circuitBreaker: CircuitBreaker?
    const perOperation: PerOperationCircuitBreaker?
    var notices: seq<Notice>
    var sleeps: seq<int>
    var calls: nat

    ghost function Breakers(): set<object>
      reads if perOperation == null then {} else {perOperation}
    {
      (if circuitBreaker == null then {} else {circuitBreaker})
      + (if perOperation == null then {} else {perOperation} + perOperation.Repr)
    }

    /** The metrics, the breakers and this object do not share state. */
    ghost predicate Separate()
      reads this, metrics, metrics.Repr, if perOperation == null then {} else {perOperation}
    {
      metrics.Valid() && this !in metrics.Repr && this !in Breakers() && metrics.Repr !! Breakers()
    }

    ghost predicate Valid()
      reads this, metrics, metrics.Repr, (if perOperation == null then {} else {perOperation} + perOperation.Repr)
    {
      Separate() && (perOperation != null ==> perOperation.Valid() && circuitBreaker !in perOperation.Repr)
    }

    ghost function World(): RetryLoop.World
      reads this, metrics
    {
      RetryLoop.World(metrics.ledger, notices, sleeps, calls)
    }

    /** The breaker in front of the plain path: the operation's own, else the global one, else none. */
    ghost function GuardOf(op: Operation): Guard
      reads if perOperation == null then {} else {perOperation}
      reads if circuitBreaker == null then {} else {circuitBreaker}
    {
      if perOperation != null then Guarded(perOperation.settings, R.Get(perOperation.states, op)) else GlobalGuard()
    }

    /** The breaker in front of the context path, which never asks the per-operation registry. */
    ghost function GlobalGuard(): Guard
      reads if circuitBreaker == null then {} else {circuitBreaker}
    {
      if circuitBreaker != null then Guarded(circuitBreaker.settings, circuitBreaker.Value()) else Unguarded
    }

    constructor (config: Config, circuitBreaker: CircuitBreaker?, perOperation: PerOperationCircuitBreaker?)
      requires perOperation != null ==> perOperation.Valid() && circuitBreaker !in perOperation.Repr
      ensures Valid() && fresh(metrics.Repr)
      ensures this.config == config && this.circuitBreaker == circuitBreaker && this.perOperation == perOperation
      ensures World() == RetryLoop.World(L.EMPTY, [], [], 0)
    {
      this.config, this.circuitBreaker, this.perOperation := config, circuitBreaker, perOperation;
      notices, sleeps, calls := [], [], 0;
      metrics := new Metrics();
    }

    /** The wrapped function's errors, and the delays the policy computes from these draws. */
    function BackendOf(op: Operation, outcome: nat -> Option<Error>, draw: nat -> real): Backend {
      Backend(outcome, Backoffs(GetPolicy(config, op), draw))
    }

    method CalculateBackoff(policy: P.Policy, attempt: int, draw: real) returns (delay: int)
      ensures delay == P.Delay(policy, attempt, draw)
    {
      if attempt <= 0 {
        return 0;
      }
      var multiplier := policy.multiplier;
      if multiplier <= 0.0 {
        multiplier := 2.0;
      }
      var d := P.Scale(policy.baseDelay as real, P.Pow(multiplier, attempt - 1));
      var maxDelay := policy.maxDelay as real;
      if d > maxDelay {
        d := maxDelay;
      }
      if policy.jitter > 0.0 {
        var jitterRange := P.Scale(d, policy.jitter);
        d := d + P.Scale(draw, jitterRange);
      }
      if d < 0.0 {
        d := 0.0;
      }
      delay := d.Floor;
    }

    /** The top of iteration `attempt` of a run that started in world `w`. */
    method BeginAttempt(op: Operation, attempt: nat, lastErr: Option<Error>,
                        ghost be: Backend, ghost w: RetryLoop.World)
      requires Separate() && World() == After(config, op, be, w, attempt) && lastErr == LastErr(be, attempt)
      modifies this`notices, metrics.Repr
      ensures Separate() && forall o :: o in metrics.Repr ==> o in old(metrics.Repr) || fresh(o)
      ensures World() == Announced(config, op, be, w, attempt)
    {
      metrics.RecordAttempt(op, attempt > 0);
      OneMoreAttempt(w.ledger, op, attempt);
      OneMoreNotice(config, op, be, attempt);
      if attempt > 0 && config.hasOnRetry {
        notices := notices + [Notice(op, attempt, lastErr)];
      }
    }

    /** Sleeps the backoff before a retry to its end and calls the wrapped function. */
    method SleepAndCall(op: Operation, policy: P.Policy, outcome: nat -> Option<Error>, draw: nat -> real,
                        attempt: nat, ghost w: RetryLoop.World)
      returns (err: Option<Error>)
      requires Separate() && policy == GetPolicy(config, op)
      requires World() == Announced(config, op, BackendOf(op, outcome, draw), w, attempt)
      modifies this`sleeps, this`calls
      ensures Separate() && err == outcome(attempt)
      ensures World() == After(config, op, BackendOf(op, outcome, draw), w, attempt + 1)
    {
      OneMoreSleep(BackendOf(op, outcome, draw), attempt);
      if attempt > 0 {
        var backoff := CalculateBackoff(policy, attempt, draw(attempt));
        sleeps := sleeps + [backoff];
      }
      err := outcome(attempt);
      calls := calls + 1;
    }

    method RecordSuccess(op: Operation)
      requires Separate()
      modifies metrics.Repr
      ensures Separate() && metrics.Repr == old(metrics.Repr) && World() == Succeed(op, old(World()))
    {
      metrics.RecordSuccess(op);
    }

    method RecordFailure(op: Operation, err: Option<Error>)
      requires Separate()
      modifies metrics.Repr
      ensures Separate() && metrics.Repr == old(metrics.Repr) && World() == GiveUp(config, op, old(World()), err)
    {
      metrics.RecordFailure(op, config.classifier(err));
    }

    method RetryWithoutCircuitBreaker(op: Operation, outcome: nat -> Option<Error>, draw: nat -> real)
      returns (err: Option<Error>)
      requires Separate()
      modifies this`notices, this`sleeps, this`calls, metrics.Repr
      ensures Separate() && forall o :: o in metrics.Repr ==> o in old(metrics.Repr) || fresh(o)
      ensures (World(), err) == Loop(config, op, BackendOf(op, outcome, draw), old(World()))
    {
      var policy := GetPolicy(config, op);
      var lastErr: Option<Error> := None;
      var attempt := 0;
      ghost var w, be := World(), BackendOf(op, outcome, draw);
      while attempt < policy.maxAttempts
        invariant 0 <= attempt && (attempt == 0 || attempt < policy.maxAttempts)
        invariant Separate() && forall o :: o in metrics.Repr ==> o in old(metrics.Repr) || fresh(o)
        invariant World() == After(config, op, be, w, attempt) && lastErr == LastErr(be, attempt)
        invariant Undecided(config, be, attempt)
      {
        BeginAttempt(op, attempt, lastErr, be, w);
        err := SleepAndCall(op, policy, outcome, draw, attempt, w);
        if err.None? {
          assert Loop(config, op, be, w) == (Succeed(op, World()), None) by {
            EndsHere(config, op, be, w, attempt);
          }
          RecordSuccess(op);
          return;
        }
        lastErr := err;
        if !ShouldRetry(config, err, attempt + 1, policy) {
          assert Loop(config, op, be, w) == (GiveUp(config, op, World(), err), err) by {
            EndsHere(config, op, be, w, attempt);
          }
          break;
        }
        StillUndecided(config, op, be, attempt);
        attempt := attempt + 1;
      }
      RecordFailure(op, lastErr);
      err := lastErr;
    }

    method RetryWithoutCircuitBreakerContext(op: Operation, outcome: nat -> Option<Error>, draw: nat -> real,
                                             ctx: C.Context)
      returns (err: Option<Error>, ending: C.Ending)
      requires Separate()
      modifies this`notices, this`sleeps, this`calls, metrics.Repr
      ensures Separate() && forall o :: o in metrics.Repr ==> o in old(metrics.Repr) || fresh(o)
      ensures C.Result(World(), err, ending)
              == C.CancellableLoop(config, op, BackendOf(op, outcome, draw), ctx, old(World()))
    {
      var policy := GetPolicy(config, op);
      var lastErr: Option<Error> := None;
      var attempt := 0;
      ghost var w, be := World(), BackendOf(op, outcome, draw);
      while attempt < policy.maxAttempts
        invariant 0 <= attempt && (attempt == 0 || attempt < policy.maxAttempts)
        invariant Separate() && forall o :: o in metrics.Repr ==> o in old(metrics.Repr) || fresh(o)
        invariant World() == After(config, op, be, w, attempt) && lastErr == LastErr(be, attempt)
        invariant Undecided(config, be, attempt) && C.Uninterrupted(ctx, attempt)
      {
        if C.StopsAtCheck(ctx, attempt) {
          C.StopsHere(config, op, be, ctx, w, attempt);
          return Some(ctx.err), C.StoppedAtCheck;
        }
        BeginAttempt(op, attempt, lastErr, be, w);
        if C.StopsInBackoff(ctx, attempt) {
          C.StopsHere(config, op, be, ctx, w, attempt);
          return Some(ctx.err), C.StoppedInBackoff;
        }
        err := SleepAndCall(op, policy, outcome, draw, attempt, w);
        C.StillUninterrupted(ctx, attempt);
        if err.None? {
          assert C.CancellableLoop(config, op, be, ctx, w) == C.Result(Succeed(op, World()), None, C.Finished) by {
            EndsHere(config, op, be, w, attempt);
            C.FinishesHere(config, op, be, ctx, w, attempt);
          }
          RecordSuccess(op);
          return None, C.Finished;
        }
        lastErr := err;
        if !ShouldRetry(config, err, attempt + 1, policy) {
          assert C.CancellableLoop(config, op, be, ctx, w)
              == C.Result(GiveUp(config, op, World(), err), err, C.Finished) by {
            EndsHere(config, op, be, w, attempt);
            C.FinishesHere(config, op, be, ctx, w, attempt);
          }
          break;
        }
        StillUndecided(config, op, be, attempt);
        attempt := attempt + 1;
      }
      assert C.CancellableLoop(config, op, be, ctx, w)
          == C.Result(GiveUp(config, op, World(), lastErr), lastErr, C.Finished) by {
        NothingYet(config, op, be, w);
      }
      RecordFailure(op, lastErr);
      err, ending := lastErr, C.Finished;
    }

    /** `retry` behind the operation's own breaker. */
    method RetryPerOperation(op: Operation, outcome: nat -> Option<Error>, draw: nat -> real, start: int, end: int)
      returns (err: Option<Error>)
      requires Valid() && perOperation != null
      modifies this, metrics.Repr, perOperation.Repr
      ensures Valid() && forall o :: o in metrics.Repr ==> o in old(metrics.Repr) || fresh(o)
      ensures var (entered, allowed) := B.AllowCall(perOperation.settings, R.Get(old(perOperation.states), op), start);
              if allowed then
                && (World(), err) == Loop(config, op, BackendOf(op, outcome, draw), old(World()))
                && perOperation.states ==
                     old(perOperation.states)[op := B.RecordResult(perOperation.settings, entered, err.None?, end)]
              else
                && World() == old(World()) && err == Some(CIRCUIT_OPEN)
                && perOperation.states == old(perOperation.states)[op := entered]
      ensures circuitBreaker != null ==> circuitBreaker.Value() == old(circuitBreaker.Value())
    {
      var allowed := perOperation.Admit(op, start);
      ghost var entered, w := perOperation.states, World();
      assert w == old(World());
      if !allowed {
        return Some(CIRCUIT_OPEN);
      }
      err := RetryWithoutCircuitBreaker(op, outcome, draw);
      ghost var w' := World();
      assert (w', err) == Loop(config, op, BackendOf(op, outcome, draw), w);
      assert perOperation.states == entered;
      perOperation.Record(op, err, end);
      assert World() == w';
      R.AdmitThenRecord(perOperation.settings, old(perOperation.states), op, start, err.None?, end);
    }

    /** `retry` behind the global breaker, or behind none. */
    method RetryGlobal(op: Operation, outcome: nat -> Option<Error>, draw: nat -> real, start: int, end: int)
      returns (err: Option<Error>)
      requires Valid() && perOperation == null
      modifies this, metrics.Repr, if circuitBreaker == null then {} else {circuitBreaker}
      ensures Valid() && forall o :: o in metrics.Repr ==> o in old(metrics.Repr) || fresh(o)
      ensures Report(World(), err, GlobalGuard())
              == WholeOperation.Retry(config, op, BackendOf(op, outcome, draw),
                                      old(World()), old(GlobalGuard()), start, end)
      ensures circuitBreaker == null ==> (World(), err) == Loop(config, op, BackendOf(op, outcome, draw), old(World()))
      ensures circuitBreaker != null ==>
                if old(circuitBreaker.state) == B.Open
                   && start - old(circuitBreaker.lastFailureTime) < circuitBreaker.settings.timeout then
                  && err == Some(CIRCUIT_OPEN) && World() == old(World())
                  && circuitBreaker.Value() == old(circuitBreaker.Value())
                else
                  && (World(), err) == Loop(config, op, BackendOf(op, outcome, draw), old(World()))
                  && circuitBreaker.Value() == B.Run(circuitBreaker.settings, old(circuitBreaker.Value()),
                                                     [B.Admit(start), B.Record(err.None?, end)])
    {
      if circuitBreaker != null {
        var allowed := circuitBreaker.AllowCall(start);
        if !allowed {
          return Some(CIRCUIT_OPEN);
        }
        err := RetryWithoutCircuitBreaker(op, outcome, draw);
        circuitBreaker.RecordResult(err, end);
        B.RunTwo(circuitBreaker.settings, old(circuitBreaker.Value()), B.Admit(start), B.Record(err.None?, end));
        return;
      }
      err := RetryWithoutCircuitBreaker(op, outcome, draw);
    }

    /** The plain path: admitted at `start`, reported to the breaker at `end`. With per-operation
        breakers the other operations' breakers are left alone. */
    method Retry(op: Operation, outcome: nat -> Option<Error>, draw: nat -> real, start: int, end: int)
      returns (err: Option<Error>)
      requires Valid()
      modifies this, metrics.Repr, Breakers()
      ensures Valid() && forall o :: o in metrics.Repr ==> o in old(metrics.Repr) || fresh(o)
      ensures Report(World(), err, GuardOf(op))
              == WholeOperation.Retry(config, op, BackendOf(op, outcome, draw),
                                      old(World()), old(GuardOf(op)), start, end)
      ensures perOperation != null ==> perOperation.states == old(perOperation.states)[op := GuardOf(op).breaker]
      ensures perOperation == null && circuitBreaker == null ==>
                (World(), err) == Loop(config, op, BackendOf(op, outcome, draw), old(World()))
      ensures perOperation == null && circuitBreaker != null ==>
                if old(circuitBreaker.state) == B.Open
                   && start - old(circuitBreaker.lastFailureTime) < circuitBreaker.settings.timeout then
                  && err == Some(CIRCUIT_OPEN) && World() == old(World())
                  && circuitBreaker.Value() == old(circuitBreaker.Value())
                else
                  && (World(), err) == Loop(config, op, BackendOf(op, outcome, draw), old(World()))
                  && circuitBreaker.Value() == B.Run(circuitBreaker.settings, old(circuitBreaker.Value()),
                                                     [B.Admit(start), B.Record(err.None?, end)])
      ensures perOperation != null ==>
                var q, b := perOperation.settings, R.Get(old(perOperation.states), op);
                && (circuitBreaker != null ==> circuitBreaker.Value() == old(circuitBreaker.Value()))
                && if b.state == B.Open && start - b.lastFailure < q.timeout then
                     && err == Some(CIRCUIT_OPEN) && World() == old(World())
                     && perOperation.states == old(perOperation.states)[op := b]
                   else
                     && (World(), err) == Loop(config, op, BackendOf(op, outcome, draw), old(World()))
                     && perOperation.states
                        == old(perOperation.states)[op := B.Run(q, b, [B.Admit(start), B.Record(err.None?, end)])]
    {
      if perOperation != null {
        err := RetryPerOperation(op, outcome, draw, start, end);
        B.RunTwo(perOperation.settings, R.Get(old(perOperation.states), op), B.Admit(start), B.Record(err.None?, end));
      } else {
        err := RetryGlobal(op, outcome, draw, start, end);
      }
    }

    /** The context path. */
    method RetryWithContext(op: Operation, outcome: nat -> Option<Error>, draw: nat -> real, ctx: C.Context,
                            start: int, end: int)
      returns (err: Option<Error>)
      requires Valid()
      modifies this, metrics.Repr, if circuitBreaker == null then {} else {circuitBreaker}
      ensures Valid() && forall o :: o in metrics.Repr ==> o in old(metrics.Repr) || fresh(o)
      ensures Report(World(), err, GlobalGuard())
              == WholeOperation.RetryContext(config, op, BackendOf(op, outcome, draw), ctx,
                                             old(World()), old(GlobalGuard()), start, end)
      ensures circuitBreaker == null ==>
                var r := C.CancellableLoop(config, op, BackendOf(op, outcome, draw), ctx, old(World()));
                World() == r.world && err == r.err
      ensures circuitBreaker != null ==>
                if old(circuitBreaker.state) == B.Open
                   && start - old(circuitBreaker.lastFailureTime) < circuitBreaker.settings.timeout then
                  && err == Some(CIRCUIT_OPEN) && World() == old(World())
                  && circuitBreaker.Value() == old(circuitBreaker.Value())
                else
                  var r := C.CancellableLoop(config, op, BackendOf(op, outcome, draw), ctx, old(World()));
                  && World() == r.world && err == r.err
                  && circuitBreaker.Value() == B.Run(circuitBreaker.settings, old(circuitBreaker.Value()),
                                                     [B.Admit(start), B.Record(err.None?, end)])
    {
      var ending;
      if circuitBreaker != null {
        var allowed := circuitBreaker.AllowCall(start);
        if !allowed {
          return Some(CIRCUIT_OPEN);
        }
        err, ending := RetryWithoutCircuitBreakerContext(op, outcome, draw, ctx);
        circuitBreaker.RecordResult(err, end);
        B.RunTwo(circuitBreaker.settings, old(circuitBreaker.Value()), B.Admit(start), B.Record(err.None?, end));
        return;
      }
      err, ending := RetryWithoutCircuitBreakerContext(op, outcome, draw, ctx);
    }

    /** The variables captured by the closure hold the last answer of the wrapped function. */
    method RetryWithResult<T>(op: Operation, answers: nat -> Answer<T>, draw: nat -> real, zero: T,
                              start: int, end: int)
      returns (answer: Answer<T>)
      requires Valid()
      modifies this, metrics.Repr, Breakers()
      ensures Valid() && forall o :: o in metrics.Repr ==> o in old(metrics.Repr) || fresh(o)
      ensures var be := BackendOf(op, ErrorsOf(answers), draw);
              var r := WholeOperation.Retry(config, op, be, old(World()), old(GuardOf(op)), start, end);
              && World() == r.world && GuardOf(op) == r.guard && calls >= old(calls)
              && answer == Wrap(Captured(answers, calls - old(calls), zero), r.err)
      ensures answer == if calls == old(calls) then Answer(zero, None) else answers(calls - old(calls) - 1)
    {
      var before := calls;
      ghost var guard, world := GuardOf(op), World();
      var err := Retry(op, ErrorsOf(answers), draw, start, end);
      ReturnsLastOutcome(config, op, BackendOf(op, ErrorsOf(answers), draw), world);
      var captured := if calls == before then Answer(zero, None) else answers(calls - before - 1);
      if err.None? {
        return Answer(captured.value, None);
      }
      answer := captured;
    }

    method RetryWithResultContext<T>(op: Operation, answers: nat -> Answer<T>, draw: nat -> real, zero: T,
                                     ctx: C.Context, start: int, end: int)
      returns (answer: Answer<T>)
      requires Valid()
      modifies this, metrics.Repr, if circuitBreaker == null then {} else {circuitBreaker}
      ensures Valid() && forall o :: o in metrics.Repr ==> o in old(metrics.Repr) || fresh(o)
      ensures var be := BackendOf(op, ErrorsOf(answers), draw);
              var r := WholeOperation.RetryContext(config, op, be, ctx, old(World()), old(GlobalGuard()), start, end);
              && World() == r.world && GlobalGuard() == r.guard && calls >= old(calls)
              && answer == Wrap(Captured(answers, calls - old(calls), zero), r.err)
      ensures answer == if calls == old(calls) then Answer(zero, None) else answers(calls - old(calls) - 1)
    {
      var before := calls;
      ghost var guard, world := GlobalGuard(), World();
      var err := RetryWithContext(op, ErrorsOf(answers), draw, ctx, start, end);
      C.ReturnsLastOutcomeOrStop(config, op, BackendOf(op, ErrorsOf(answers), draw), ctx, world);
      var captured := if calls == before then Answer(zero, None) else answers(calls - before - 1);
      if err.None? {
        return Answer(captured.value, None);
      }
      answer := captured;
    }
  }
}
