/** One whole operation: the breaker that guards it, its retry loop, and the wrapper that hands the
    result to the caller. */
module WholeOperation {
  import opened Types
  import opened Errors
  import opened RetryLoop
  import B = Breaker
  import C = ContextLoop
  import P = Backoff

  /** A breaker with its settings, or none. */
  datatype Guard = Unguarded | Guarded(settings: B.Settings, breaker: B.Breaker)

  /** What an operation leaves behind and the error it reports to its wrapper. */
  datatype Report = Report(world: World, err: Option<Error>, guard: Guard)

  predicate Admits(g: Guard, now: int) {
    g.Unguarded? || B.AllowCall(g.settings, g.breaker, now).1
  }

  function Enter(g: Guard, now: int): Guard {
    if g.Unguarded? then g else g.(breaker := B.AllowCall(g.settings, g.breaker, now).0)
  }

  function Leave(g: Guard, err: Option<Error>, now: int): Guard {
    if g.Unguarded? then g else g.(breaker := B.RecordResult(g.settings, g.breaker, err.None?, now))
  }

  /** `retry`, admitted at `start` and reporting at `end`. */
  function Retry(c: Config, op: Operation, be: Backend, w: World, g: Guard, start: int, end: int): Report {
    if !Admits(g, start) then Report(w, Some(CIRCUIT_OPEN), Enter(g, start))
    else
      var (w', err) := Loop(c, op, be, w);
      Report(w', err, Leave(Enter(g, start), err, end))
  }

  /** `retryWithContext`. */
  function RetryContext(c: Config, op: Operation, be: Backend, ctx: C.Context, w: World,
                        g: Guard, start: int, end: int): Report {
    if !Admits(g, start) then Report(w, Some(CIRCUIT_OPEN), Enter(g, start))
    else
      var r := C.CancellableLoop(c, op, be, ctx, w);
      Report(r.world, r.err, Leave(Enter(g, start), r.err, end))
  }

  /** A refused operation touches neither the backend, nor the ledger, nor the callbacks, nor the
      breaker; an operation is refused exactly by an open breaker inside its timeout. */
  lemma RejectionIsInvisible(c: Config, op: Operation, be: Backend, w: World, g: Guard, start: int, end: int)
    ensures !Admits(g, start) <==>
            g.Guarded? && g.breaker.state == B.Open && start - g.breaker.lastFailure < g.settings.timeout
    ensures !Admits(g, start) ==> Retry(c, op, be, w, g, start, end) == Report(w, Some(CIRCUIT_OPEN), g)
  {
  }

  /** Every error the loop returns counts as one breaker failure, permanent ones and the context's own
      included: it opens a closed breaker that it brings to the threshold, and any breaker that is
      half-open when the operation enters. */
  lemma EveryErrorTrips(c: Config, op: Operation, be: Backend, ctx: C.Context, w: World, g: Guard, start: int, end: int)
    requires g.Guarded? && Admits(g, start)
    ensures var r := RetryContext(c, op, be, ctx, w, g, start, end);
            var b := r.guard.breaker;
            && (r.err.Some? ==> b.errors == g.breaker.errors + 1 && b.successes == 0 && b.lastFailure == end)
            && (r.err.None? ==> b.errors == 0 && b.lastFailure == g.breaker.lastFailure)
            && (b.state == B.Open <==>
                r.err.Some? && (g.breaker.state != B.Closed || g.breaker.errors + 1 >= g.settings.failureThreshold))
  {
  }

  /** A permanent error ends the operation after one call, whatever its policy, and that one call counts
      as a breaker failure. */
  lemma PermanentErrorTrips(c: Config, op: Operation, be: Backend, w: World, g: Guard, start: int, end: int)
    requires g.Guarded? && Admits(g, start) && GetPolicy(c, op).maxAttempts >= 1
    requires be.outcome(0).Some? && c.classifier(be.outcome(0)) == Permanent
    ensures var r := Retry(c, op, be, w, g, start, end);
            var b := r.guard.breaker;
            && r.err == be.outcome(0) && r.world.calls == w.calls + 1
            && b.errors == g.breaker.errors + 1 && b.lastFailure == end
            && (b.state == B.Open <==>
                g.breaker.state != B.Closed || g.breaker.errors + 1 >= g.settings.failureThreshold)
  {
    assert IsCallCount(c, GetPolicy(c, op), be, 1);
    LoopMeetsSpecification(c, op, be, w, 1);
  }

  /** Under a context that is never done the context path is the plain path behind the same guard:
      same report, calls, OnRetry calls, ledger and breaker. */
  lemma ContextPathEqualsPlainPath(c: Config, op: Operation, be: Backend, ctx: C.Context, w: World,
                                   g: Guard, start: int, end: int)
    requires forall i: nat :: !ctx.done(i)
    ensures RetryContext(c, op, be, ctx, w, g, start, end) == Retry(c, op, be, w, g, start, end)
  {
    C.NeverDoneIsPlain(c, op, be, ctx, w);
  }

  // ----- The result wrappers -----

  /** What the wrapped function answers in its i-th call: a value and an error. */
  datatype Answer<T> = Answer(value: T, err: Option<Error>)

  function ErrorsOf<T>(answers: nat -> Answer<T>): nat -> Option<Error> { (i: nat) => answers(i).err }

  /** The captured variables after `calls` calls; before the first they hold zero values. */
  function Captured<T>(answers: nat -> Answer<T>, calls: nat, zero: T): Answer<T> {
    if calls == 0 then Answer(zero, None) else answers(calls - 1)
  }

  /** The wrapper returns the captured error, not the one `retry` returned. */
  function Wrap<T>(captured: Answer<T>, err: Option<Error>): Answer<T> {
    if err.None? then Answer(captured.value, None) else captured
  }

  /** What the caller gets, with `zero` for the zero value: the whole last answer of the k calls of an
      admitted operation, value and error; otherwise, refused or without attempts, the zero value and no
      error. */
  lemma WrapperReturnsLastAnswer<T>(c: Config, op: Operation, answers: nat -> Answer<T>, backoff: nat -> int, zero: T,
                                    w: World, g: Guard, start: int, end: int, k: nat)
    ensures var be := Backend(ErrorsOf(answers), backoff);
            var r := Retry(c, op, be, w, g, start, end);
            && r.world.calls >= w.calls
            && var answer := Wrap(Captured(answers, r.world.calls - w.calls, zero), r.err);
               && (Admits(g, start) && IsCallCount(c, GetPolicy(c, op), be, k) ==> answer == answers(k - 1))
               && (!Admits(g, start) || GetPolicy(c, op).maxAttempts <= 0 ==> answer == Answer(zero, None))
  {
    var be := Backend(ErrorsOf(answers), backoff);
    ReturnsLastOutcome(c, op, be, w);
    if IsCallCount(c, GetPolicy(c, op), be, k) {
      LoopMeetsSpecification(c, op, be, w, k);
    }
  }

  /** The same under a context: the answer of the last call made, if one was made. A run that is not
      interrupted returns the last of the k answers, one that is stopped in its iteration m > 0 the answer
      of the call before, and one stopped in its first iteration the zero value and no error. */
  lemma ContextWrapperReturnsLastAnswer<T>(c: Config, op: Operation, answers: nat -> Answer<T>, backoff: nat -> int,
                                           zero: T, ctx: C.Context, w: World, g: Guard, start: int, end: int, k: nat)
    requires IsCallCount(c, GetPolicy(c, op), Backend(ErrorsOf(answers), backoff), k)
    ensures var r := RetryContext(c, op, Backend(ErrorsOf(answers), backoff), ctx, w, g, start, end);
            && r.world.calls >= w.calls
            && var answer := Wrap(Captured(answers, r.world.calls - w.calls, zero), r.err);
               && (Admits(g, start) && C.Uninterrupted(ctx, k) ==> answer == answers(k - 1))
               && (forall m: nat :: Admits(g, start) && m < k && C.Interrupted(ctx, m) && C.Uninterrupted(ctx, m) ==>
                     answer == if m > 0 then answers(m - 1) else Answer(zero, None))
               && (!Admits(g, start) ==> answer == Answer(zero, None))
  {
    var be := Backend(ErrorsOf(answers), backoff);
    C.ReturnsLastOutcomeOrStop(c, op, be, ctx, w);
    C.FinishesIff(c, op, be, ctx, w, k);
    forall m: nat | C.Uninterrupted(ctx, m) && (m == k || (m < k && C.Interrupted(ctx, m)))
      ensures C.CancellableLoop(c, op, be, ctx, w).world.calls == w.calls + m
    {
      C.CallsUntilStop(c, op, be, ctx, w, k, m);
    }
  }

  /** The wrapper reports the error of `retry` exactly when the breaker admits the operation; a
      refused one yields the zero value and no error at all. */
  lemma WrapperReportsIff<T>(c: Config, op: Operation, answers: nat -> Answer<T>, backoff: nat -> int, zero: T,
                             w: World, g: Guard, start: int, end: int)
    ensures var r := Retry(c, op, Backend(ErrorsOf(answers), backoff), w, g, start, end);
            && r.world.calls >= w.calls
            && var answer := Wrap(Captured(answers, r.world.calls - w.calls, zero), r.err);
               && (answer.err == r.err <==> Admits(g, start))
               && (!Admits(g, start) ==> answer == Answer(zero, None))
  {
    ReturnsLastOutcome(c, op, Backend(ErrorsOf(answers), backoff), w);
  }

  /** A losing input: right after a failure has opened the breaker, the next operation is refused, yet its
      wrapper reports the zero value and no error. */
  lemma RefusalIsLost(c: Config, op: Operation, w: World, timeout: int)
    requires timeout > 0
    ensures var q := B.Settings(1, 1, timeout);
            var b := B.Run(q, B.FRESH, [B.Admit(0), B.Record(false, 0)]);
            var r := Retry(c, op, Backend(i => None, i => 0), w, Guarded(q, b), 0, 0);
            && r.err == Some(CIRCUIT_OPEN)
            && Wrap(Captured(i => Answer(1, None), r.world.calls - w.calls, 0), r.err) == Answer(0, None)
  {
    var q := B.Settings(1, 1, timeout);
    B.RunSnoc(q, B.FRESH, [], B.Admit(0));
    B.RunSnoc(q, B.FRESH, [B.Admit(0)], B.Record(false, 0));
    assert [] + [B.Admit(0)] == [B.Admit(0)];
    assert [B.Admit(0)] + [B.Record(false, 0)] == [B.Admit(0), B.Record(false, 0)];
  }

  /** With a context the wrapper can lose ctx.Err() as well. Among the k iterations of the uncancelled run
      consider the one in which the context first takes a stop, if there is one: the wrapper reports the
      error of `retryWithContext` exactly when the operation is admitted and that iteration, if any, comes
      right after a call that answered ctx.Err() itself. */
  lemma ContextWrapperReportsIff<T>(c: Config, op: Operation, answers: nat -> Answer<T>, backoff: nat -> int, zero: T,
                                    ctx: C.Context, w: World, g: Guard, start: int, end: int, k: nat)
    requires IsCallCount(c, GetPolicy(c, op), Backend(ErrorsOf(answers), backoff), k)
    ensures var r := RetryContext(c, op, Backend(ErrorsOf(answers), backoff), ctx, w, g, start, end);
            && r.world.calls >= w.calls
            && var answer := Wrap(Captured(answers, r.world.calls - w.calls, zero), r.err);
               && (answer.err == r.err <==> Admits(g, start) && StopsOnlyAfterItsError(answers, ctx, k))
               && (!Admits(g, start) ==> answer == Answer(zero, None))
  {
    var be, p := Backend(ErrorsOf(answers), backoff), GetPolicy(c, op);
    CallCountIsLeast(c, p, be, 0);
    CallCountIsUnique(c, p, be, k, CallCount(c, p, be, 0));
    C.FirstStopIsLeast(ctx, 0, k);
    C.ReturnsLastOutcomeOrStop(c, op, be, ctx, w);
    assert forall m: nat :: m < k && C.Interrupted(ctx, m) && C.Uninterrupted(ctx, m) ==> m == C.FirstStop(ctx, 0, k);
  }

  /** The first of k iterations in which the context takes a stop follows a call that answered its error. */
  ghost predicate StopsOnlyAfterItsError<T>(answers: nat -> Answer<T>, ctx: C.Context, k: nat) {
    forall m: nat :: m < k && C.Interrupted(ctx, m) && C.Uninterrupted(ctx, m) ==>
                       m > 0 && answers(m - 1).err == Some(ctx.err)
  }

  /** A policy without attempts never looks at the context, so that only a refusal is lost. */
  lemma UntriedContextWrapperReportsIff<T>(c: Config, op: Operation, answers: nat -> Answer<T>, backoff: nat -> int,
                                           zero: T, ctx: C.Context, w: World, g: Guard, start: int, end: int)
    requires GetPolicy(c, op).maxAttempts <= 0
    ensures var r := RetryContext(c, op, Backend(ErrorsOf(answers), backoff), ctx, w, g, start, end);
            && r.world.calls == w.calls
            && (Wrap(Captured(answers, 0, zero), r.err).err == r.err <==> Admits(g, start))
  {
    NoAttempts(c, op, Backend(ErrorsOf(answers), backoff), w);
  }

  const IO_ERROR := Plain("i/o timeout")
  const CANCELED := Plain("context canceled")
  const TWO_ATTEMPTS := Config(P.Policy(2, 0, 0, 0.0, 2.0), map[], e => Retryable, false)

  /** Two losing inputs, with a policy of two attempts and no breaker. A context done at the second check
      yields the error of the first call, one done from the start the zero value and no error, while
      `retryWithContext` returns the context's error both times. */
  lemma ContextErrorIsLost(op: Operation, w: World, time: int)
    ensures var be := Backend(ErrorsOf((i: nat) => Answer(1, Some(IO_ERROR))), (i: nat) => 0);
            var late, early := C.Context((i: nat) => i >= C.CheckPoint(1), (i: nat) => false, CANCELED),
                               C.Context((i: nat) => true, (i: nat) => false, CANCELED);
            var r, r' := RetryContext(TWO_ATTEMPTS, op, be, late, w, Unguarded, time, time),
                         RetryContext(TWO_ATTEMPTS, op, be, early, w, Unguarded, time, time);
            && r.err == Some(CANCELED) && r.world.calls == w.calls + 1
            && Wrap(Captured((i: nat) => Answer(1, Some(IO_ERROR)), 1, 0), r.err) == Answer(1, Some(IO_ERROR))
            && r'.err == Some(CANCELED) && r'.world.calls == w.calls
            && Wrap(Captured((i: nat) => Answer(1, Some(IO_ERROR)), 0, 0), r'.err) == Answer(0, None)
  {
    var be := Backend(ErrorsOf((i: nat) => Answer(1, Some(IO_ERROR))), (i: nat) => 0);
    var late := C.Context((i: nat) => i >= C.CheckPoint(1), (i: nat) => false, CANCELED);
    var early := C.Context((i: nat) => true, (i: nat) => false, CANCELED);
    C.StopsHere(TWO_ATTEMPTS, op, be, late, w, 1);
    C.StopsHere(TWO_ATTEMPTS, op, be, early, w, 0);
  }
}
