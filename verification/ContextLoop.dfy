/** What the context-aware loop of context.go is to do, with cancellation as an adversary. */
module ContextLoop {
  import opened Types
  import opened Errors
  import opened RetryLoop
  import P = Backoff

  /** `done(i)` says whether the context is done at program point i of the loop; `chosen(a)` is the
      choice of the select in backoff a when both of its cases are ready; `err` is ctx.Err(). */
  datatype Context = Context(done: nat -> bool, chosen: nat -> bool, err: Error)

  /** The points of iteration a: its check of the context, its backoff, the start of its call. */
  function CheckPoint(a: nat): nat { 3 * a }
  function BackoffPoint(a: nat): nat { 3 * a + 1 }
  function CallPoint(a: nat): nat { 3 * a + 2 }

  /** A context never stops being done. */
  ghost predicate Monotone(ctx: Context) {
    forall i: nat, j: nat :: i <= j && ctx.done(i) ==> ctx.done(j)
  }

  predicate StopsAtCheck(ctx: Context, a: nat) { ctx.done(CheckPoint(a)) }

  predicate StopsInBackoff(ctx: Context, a: nat) { a > 0 && ctx.done(BackoffPoint(a)) && ctx.chosen(a) }

  datatype Ending = Finished | StoppedAtCheck | StoppedInBackoff

  datatype Result = Result(world: World, err: Option<Error>, ending: Ending)

  predicate Interrupted(ctx: Context, a: nat) { StopsAtCheck(ctx, a) || StopsInBackoff(ctx, a) }

  ghost predicate Uninterrupted(ctx: Context, a: nat) {
    forall i: nat :: i < a ==> !Interrupted(ctx, i)
  }

  lemma StillUninterrupted(ctx: Context, a: nat)
    requires Uninterrupted(ctx, a) && !Interrupted(ctx, a)
    ensures Uninterrupted(ctx, a + 1)
  {
  }

  /** The first interrupted iteration from `a` on, or k if none is. */
  function FirstStop(ctx: Context, a: nat, k: nat): nat
    decreases k - a
  {
    if a >= k || Interrupted(ctx, a) then a else FirstStop(ctx, a + 1, k)
  }

  lemma {:induction false} FirstStopIsLeast(ctx: Context, a: nat, k: nat)
    requires a <= k && Uninterrupted(ctx, a)
    ensures var m := FirstStop(ctx, a, k);
            m <= k && (m < k ==> Interrupted(ctx, m)) && Uninterrupted(ctx, m)
    decreases k - a
  {
    if a < k && !Interrupted(ctx, a) {
      FirstStopIsLeast(ctx, a + 1, k);
    }
  }

  /** A run stopped in iteration m, after m calls that all ended in a retry. */
  function StoppedAt(c: Config, op: Operation, be: Backend, ctx: Context, w: World, m: nat): Result {
    if StopsAtCheck(ctx, m) then Result(After(c, op, be, w, m), Some(ctx.err), StoppedAtCheck)
    else Result(Announced(c, op, be, w, m), Some(ctx.err), StoppedInBackoff)
  }

  /** What a run of the whole loop leaves and returns: the plain run, unless one of its iterations is
      interrupted. A policy without attempts never looks at the context. */
  function CancellableLoop(c: Config, op: Operation, be: Backend, ctx: Context, w: World): Result {
    var p, (w', err) := GetPolicy(c, op), RetryLoop.Loop(c, op, be, w);
    if p.maxAttempts <= 0 then Result(w', err, Finished)
    else
      var k := CallCount(c, p, be, 0);
      var m := FirstStop(ctx, 0, k);
      if m == k then Result(w', err, Finished) else StoppedAt(c, op, be, ctx, w, m)
  }

  lemma NotYetOver(c: Config, p: P.Policy, be: Backend, a: nat, k: nat)
    requires a < p.maxAttempts && Undecided(c, be, a) && IsCallCount(c, p, be, k)
    ensures a < k
  {
  }

  /** A run is stopped in its first interrupted iteration, if it gets there. */
  lemma StopsHere(c: Config, op: Operation, be: Backend, ctx: Context, w: World, a: nat)
    requires a < GetPolicy(c, op).maxAttempts && Interrupted(ctx, a)
    requires Undecided(c, be, a)
    requires Uninterrupted(ctx, a)
    ensures CancellableLoop(c, op, be, ctx, w) == StoppedAt(c, op, be, ctx, w, a)
  {
    var k := CallCount(c, GetPolicy(c, op), be, 0);
    CallCountIsLeast(c, GetPolicy(c, op), be, 0);
    NotYetOver(c, GetPolicy(c, op), be, a, k);
    FirstStopIsLeast(ctx, 0, k);
    assert FirstStop(ctx, 0, k) == a;
  }

  /** A run that is not stopped before its first call that is not retried is the plain run. */
  lemma FinishesHere(c: Config, op: Operation, be: Backend, ctx: Context, w: World, a: nat)
    requires IsCallCount(c, GetPolicy(c, op), be, a + 1) && Uninterrupted(ctx, a + 1)
    ensures var (w', err) := RetryLoop.Loop(c, op, be, w);
            CancellableLoop(c, op, be, ctx, w) == Result(w', err, Finished)
  {
    var p := GetPolicy(c, op);
    CallCountIsLeast(c, p, be, 0);
    CallCountIsUnique(c, p, be, a + 1, CallCount(c, p, be, 0));
    FirstStopIsLeast(ctx, 0, a + 1);
  }

  /** Cancellation refines the plain loop. Against the same backend the calls made under any context
      are the first m of the k calls of the uncancelled run; at most the last of them starts after
      the context is done, and none after a check that finds it done; the completed sleeps follow the
      same prefix; the recorded attempts, and the OnRetry calls with them, exceed the calls by exactly
      one if the stop was taken in a backoff, by none otherwise. A stopped operation records its
      attempts and nothing else, neither success nor failure, and returns the context's error. */
  lemma CancellationRefines(c: Config, op: Operation, be: Backend, ctx: Context, w: World, k: nat)
    requires IsCallCount(c, GetPolicy(c, op), be, k) && Monotone(ctx)
    ensures var r := CancellableLoop(c, op, be, ctx, w);
            var m := r.world.calls - w.calls;
            && 0 <= m <= k
            && (forall a: nat :: a + 1 < m ==> !ctx.done(CallPoint(a)))
            && (forall a: nat :: ctx.done(CheckPoint(a)) ==> m <= a)
            && (r.ending == StoppedAtCheck ==> ctx.done(CheckPoint(m)))
            && (r.ending == StoppedInBackoff ==>
                  m > 0 && !ctx.done(CheckPoint(m)) && ctx.done(BackoffPoint(m)) && ctx.chosen(m))
            && var attempts := if r.ending == StoppedInBackoff then m + 1 else m;
               && r.world.ledger.total.attempts == w.ledger.total.attempts + attempts
               && r.world.notices == w.notices + NoticesOf(c, op, be, attempts)
               && r.world.sleeps == w.sleeps + SleepsOf(be, m)
               && (r.ending == Finished ==> m == k && (r.world, r.err) == RetryLoop.Loop(c, op, be, w))
               && (r.ending != Finished ==>
                     m < k && r.err == Some(ctx.err) && r.world.ledger == Attempts(w.ledger, op, attempts))
  {
    var p := GetPolicy(c, op);
    CallCountIsLeast(c, p, be, 0);
    CallCountIsUnique(c, p, be, k, CallCount(c, p, be, 0));
    FirstStopIsLeast(ctx, 0, k);
    LoopMeetsSpecification(c, op, be, w, k);
    SettledEntries(c, op, w.ledger, k, be.outcome(k - 1));
    var m := FirstStop(ctx, 0, k);
    forall a: nat | ctx.done(CheckPoint(a))
      ensures m <= a
    {
      assert Interrupted(ctx, a);
    }
    forall a: nat | a + 1 < m
      ensures !ctx.done(CallPoint(a))
    {
      assert !Interrupted(ctx, a + 1);
    }
  }

  /** The number of calls is the first interrupted iteration, or k without one. */
  lemma CallsUntilStop(c: Config, op: Operation, be: Backend, ctx: Context, w: World, k: nat, m: nat)
    requires IsCallCount(c, GetPolicy(c, op), be, k) && Uninterrupted(ctx, m)
    requires m == k || (m < k && Interrupted(ctx, m))
    ensures CancellableLoop(c, op, be, ctx, w).world.calls == w.calls + m
  {
    var p := GetPolicy(c, op);
    CallCountIsLeast(c, p, be, 0);
    CallCountIsUnique(c, p, be, k, CallCount(c, p, be, 0));
    FirstStopIsLeast(ctx, 0, k);
    LoopMeetsSpecification(c, op, be, w, k);
  }

  /** A finished run returns the outcome of its last call, a stopped one the context's error. */
  lemma ReturnsLastOutcomeOrStop(c: Config, op: Operation, be: Backend, ctx: Context, w: World)
    ensures var r := CancellableLoop(c, op, be, ctx, w);
            && r.world.calls >= w.calls
            && r.err == if r.ending == Finished then LastErr(be, r.world.calls - w.calls) else Some(ctx.err)
  {
    ReturnsLastOutcome(c, op, be, w);
  }

  /** The operation runs to its end exactly when no check and no backoff among its k iterations sees
      the context done and takes the stop. */
  lemma FinishesIff(c: Config, op: Operation, be: Backend, ctx: Context, w: World, k: nat)
    requires IsCallCount(c, GetPolicy(c, op), be, k)
    ensures CancellableLoop(c, op, be, ctx, w).ending == Finished <==>
            forall a: nat :: a < k ==>
                               !ctx.done(CheckPoint(a)) && !(a > 0 && ctx.done(BackoffPoint(a)) && ctx.chosen(a))
  {
    var p := GetPolicy(c, op);
    CallCountIsLeast(c, p, be, 0);
    CallCountIsUnique(c, p, be, k, CallCount(c, p, be, 0));
    FirstStopIsLeast(ctx, 0, k);
    assert forall a: nat :: Interrupted(ctx, a) <==>
                            ctx.done(CheckPoint(a)) || (a > 0 && ctx.done(BackoffPoint(a)) && ctx.chosen(a));
    assert CancellableLoop(c, op, be, ctx, w).ending == Finished <==> forall a: nat :: a < k ==> !Interrupted(ctx, a);
  }

  /** Under a context that is never done the loop is the plain loop, for every policy. */
  lemma NeverDoneIsPlain(c: Config, op: Operation, be: Backend, ctx: Context, w: World)
    requires forall i: nat :: !ctx.done(i)
    ensures var r := CancellableLoop(c, op, be, ctx, w);
            (r.world, r.err) == RetryLoop.Loop(c, op, be, w) && r.ending == Finished
  {
    var p := GetPolicy(c, op);
    if p.maxAttempts > 0 {
      CallCountIsLeast(c, p, be, 0);
      FirstStopIsLeast(ctx, 0, CallCount(c, p, be, 0));
    }
  }
}
