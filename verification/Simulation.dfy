/** The objects and the system agree: whatever a method of RetryFS does, the system that represents the
    object can do in a serial run, after which it represents the object again. */
module Simulation {
  import opened Types
  import opened Errors
  import opened RetryLoop
  import opened RetryFileSystem
  import opened System
  import opened SystemInvariants
  import opened SystemRuns
  import B = Breaker
  import C = ContextLoop
  import R = Registry
  import W = WholeOperation

  /** The values in which system s, set up as u, and an object agree. */
  ghost predicate Mirrors(u: Setup, s: Sys, w: World, global: Option<B.Breaker>, own: R.Breakers) {
    && s.ledger == w.ledger && s.invoked == w.calls
    && (u.hasGlobal ==> global == Some(BreakerOf(s, Global)))
    && (u.hasRegistry ==> forall op :: BreakerOf(s, Own(op)) == R.Get(own, op))
  }

  ghost function GlobalOf(fs: RetryFS): Option<B.Breaker>
    reads if fs.circuitBreaker == null then {} else {fs.circuitBreaker}
  {
    if fs.circuitBreaker == null then None else Some(fs.circuitBreaker.Value())
  }

  ghost function OwnOf(fs: RetryFS): R.Breakers
    reads if fs.perOperation == null then {} else {fs.perOperation}
  {
    if fs.perOperation == null then map[] else fs.perOperation.states
  }

  /** The setup of an object. */
  ghost predicate SetUpAs(u: Setup, fs: RetryFS) {
    && u.config == fs.config
    && u.hasGlobal == (fs.circuitBreaker != null) && (u.hasGlobal ==> u.global == fs.circuitBreaker.settings)
    && u.hasRegistry == (fs.perOperation != null) && (u.hasRegistry ==> u.registry == fs.perOperation.settings)
  }

  /** System s, set up as u, is in the state of the object. */
  ghost predicate Represents(u: Setup, s: Sys, fs: RetryFS)
    reads fs, fs.metrics
    reads if fs.circuitBreaker == null then {} else {fs.circuitBreaker}
    reads if fs.perOperation == null then {} else {fs.perOperation}
  {
    SetUpAs(u, fs) && Mirrors(u, s, fs.World(), GlobalOf(fs), OwnOf(fs))
  }

  /** What the loops do to the ledger does not depend on what the outside has seen before. */
  lemma LoopForgetsObservers(c: Config, op: Operation, be: Backend, ctx: C.Context, w: World)
    ensures var bare := World(w.ledger, [], [], 0);
            var (w1, e1) := Loop(c, op, be, w);
            var (w2, e2) := Loop(c, op, be, bare);
            var r1, r2 := C.CancellableLoop(c, op, be, ctx, w), C.CancellableLoop(c, op, be, ctx, bare);
            && w1.ledger == w2.ledger && w1.calls == w.calls + w2.calls && e1 == e2
            && r1.world.ledger == r2.world.ledger && r1.world.calls == w.calls + r2.world.calls && r1.err == r2.err
  {
  }

  /** HasRun for a system that has been mirroring an object in world w, with r a report on that world. */
  ghost predicate Follows(u: Setup, s: Sys, s': Sys, op: Operation, useContext: bool, r: W.Report) {
    && s'.ledger == r.world.ledger && s'.invoked == r.world.calls && GuardIn(u, s', op, useContext) == r.guard
    && (forall k :: GuardOf(u, op, useContext) != Some(k) ==> BreakerOf(s', k) == BreakerOf(s, k))
  }

  lemma PlainRun(u: Setup, actions: seq<Action>, id: nat, op: Operation, be: Backend, w: World, start: int, end: int)
    returns (more: seq<Action>)
    requires id !in Exec(u, actions).calls && Exec(u, actions).clock <= start <= end
    requires Exec(u, actions).ledger == w.ledger && Exec(u, actions).invoked == w.calls
    ensures var s, s' := Exec(u, actions), Exec(u, actions + more);
            var r := W.Retry(u.config, op, be, w, GuardIn(u, s, op, false), start, end);
            && Follows(u, s, s', op, false, r) && Serial(u, actions, more, id) && id in s'.calls
            && var c := s'.calls[id];
               c.pc == Done(r.err) && c.op == op && !c.useContext && Agrees(c, be)
  {
    more := UninterruptedRunIsRetry(u, actions, id, op, false, be, start, end);
    LoopForgetsObservers(u.config, op, be, C.Context((i: nat) => false, (i: nat) => false, CIRCUIT_OPEN), w);
  }

  lemma ContextRun(u: Setup, actions: seq<Action>, id: nat, op: Operation, be: Backend, ctx: C.Context, w: World,
                   start: int, end: int)
    returns (more: seq<Action>)
    requires id !in Exec(u, actions).calls && Exec(u, actions).clock <= start <= end
    requires Exec(u, actions).ledger == w.ledger && Exec(u, actions).invoked == w.calls
    ensures var s, s' := Exec(u, actions), Exec(u, actions + more);
            var r := W.RetryContext(u.config, op, be, ctx, w, GuardIn(u, s, op, true), start, end);
            && Follows(u, s, s', op, true, r) && Serial(u, actions, more, id) && id in s'.calls
            && var c := s'.calls[id];
               c.pc == Done(r.err) && c.op == op && c.useContext && Answers(c, be, ctx)
  {
    more := UninterruptedRunIsSequential(u, actions, id, op, true, be, ctx, start, end);
    LoopForgetsObservers(u.config, op, be, ctx, w);
  }

  /** A run behind the operation's own breaker keeps the mirror if the object moved that breaker alike. */
  lemma OwnMirrors(u: Setup, s: Sys, s': Sys, op: Operation, r: W.Report, w: World,
                   global: Option<B.Breaker>, own: R.Breakers, b: B.Breaker)
    requires u.hasRegistry && Mirrors(u, s, w, global, own) && Follows(u, s, s', op, false, r)
    requires r.guard == W.Guarded(u.registry, b)
    ensures Mirrors(u, s', r.world, global, own[op := b])
  {
    forall o
      ensures BreakerOf(s', Own(o)) == R.Get(own[op := b], o)
    {
      assert o != op ==> BreakerOf(s', Own(o)) == BreakerOf(s, Own(o));
    }
  }

  /** A run behind the global breaker, or behind none, likewise. */
  lemma GlobalMirrors(u: Setup, s: Sys, s': Sys, op: Operation, useContext: bool, r: W.Report, w: World,
                      global: Option<B.Breaker>, global': Option<B.Breaker>, own: R.Breakers)
    requires (useContext || !u.hasRegistry) && Mirrors(u, s, w, global, own) && Follows(u, s, s', op, useContext, r)
    requires u.hasGlobal ==> global'.Some? && r.guard == W.Guarded(u.global, global'.value)
    ensures Mirrors(u, s', r.world, global', own)
  {
    assert forall o :: BreakerOf(s', Own(o)) == BreakerOf(s, Own(o));
  }

  /** `Retry` of the object is a serial run of a plain operation. */
  method SerialRetry(fs: RetryFS, op: Operation, outcome: nat -> Option<Error>, draw: nat -> real, start: int, end: int,
                     ghost u: Setup, ghost actions: seq<Action>, ghost id: nat)
    returns (err: Option<Error>, ghost more: seq<Action>)
    requires fs.Valid() && Represents(u, Exec(u, actions), fs)
    requires id !in Exec(u, actions).calls && Exec(u, actions).clock <= start <= end
    modifies fs, fs.metrics.Repr, fs.Breakers()
    ensures fs.Valid() && Represents(u, Exec(u, actions + more), fs)
    ensures Serial(u, actions, more, id) && id in Exec(u, actions + more).calls
    ensures var c := Exec(u, actions + more).calls[id];
            c.pc == Done(err) && c.op == op && !c.useContext && Agrees(c, fs.BackendOf(op, outcome, draw))
  {
    ghost var be, w, global, own := fs.BackendOf(op, outcome, draw), fs.World(), GlobalOf(fs), OwnOf(fs);
    ghost var s := Exec(u, actions);
    ghost var g := GuardIn(u, s, op, false);
    assert g == fs.GuardOf(op);
    more := PlainRun(u, actions, id, op, be, w, start, end);
    ghost var s' := Exec(u, actions + more);
    ghost var r := W.Retry(u.config, op, be, w, g, start, end);
    err := fs.Retry(op, outcome, draw, start, end);
    assert fs.World() == r.world && err == r.err;
    if fs.perOperation != null {
      OwnMirrors(u, s, s', op, r, w, global, own, r.guard.breaker);
    } else {
      GlobalMirrors(u, s, s', op, false, r, w, global, GlobalOf(fs), own);
    }
  }

  /** `RetryWithContext` of the object is a serial run of an operation under a context. */
  method SerialRetryWithContext(fs: RetryFS, op: Operation, outcome: nat -> Option<Error>, draw: nat -> real,
                                ctx: C.Context, start: int, end: int,
                                ghost u: Setup, ghost actions: seq<Action>, ghost id: nat)
    returns (err: Option<Error>, ghost more: seq<Action>)
    requires fs.Valid() && Represents(u, Exec(u, actions), fs)
    requires id !in Exec(u, actions).calls && Exec(u, actions).clock <= start <= end
    modifies fs, fs.metrics.Repr, if fs.circuitBreaker == null then {} else {fs.circuitBreaker}
    ensures fs.Valid() && Represents(u, Exec(u, actions + more), fs)
    ensures Serial(u, actions, more, id) && id in Exec(u, actions + more).calls
    ensures var c := Exec(u, actions + more).calls[id];
            c.pc == Done(err) && c.op == op && c.useContext && Answers(c, fs.BackendOf(op, outcome, draw), ctx)
  {
    ghost var be, w, global, own := fs.BackendOf(op, outcome, draw), fs.World(), GlobalOf(fs), OwnOf(fs);
    ghost var s := Exec(u, actions);
    ghost var g := GuardIn(u, s, op, true);
    assert g == fs.GlobalGuard();
    more := ContextRun(u, actions, id, op, be, ctx, w, start, end);
    ghost var s' := Exec(u, actions + more);
    ghost var r := W.RetryContext(u.config, op, be, ctx, w, g, start, end);
    err := fs.RetryWithContext(op, outcome, draw, ctx, start, end);
    assert fs.World() == r.world && err == r.err && OwnOf(fs) == own;
    GlobalMirrors(u, s, s', op, true, r, w, global, GlobalOf(fs), own);
  }
}
