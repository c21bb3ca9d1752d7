/** The sequential specification of one whole operation against the system: every run in which one
    operation acts alone, cancelled or not, does what the specification says, and every behaviour the
    specification allows is such a run. */
module SystemRuns {
  import opened Types
  import opened Errors
  import opened Ledger
  import opened RetryLoop
  import opened System
  import opened SystemInvariants
  import C = ContextLoop
  import W = WholeOperation

  // ----- Serial runs -----

  predicate ActsFor(a: Action, id: nat) { !a.ResetBreaker? && a.id == id }

  /** After `actions`, only operation `id` acts, and each action comes in its turn. */
  ghost predicate Serial(u: Setup, actions: seq<Action>, more: seq<Action>, id: nat) {
    forall i: nat :: i < |more| ==> InTurn(u, actions, more, i, id)
  }

  predicate InTurn(u: Setup, actions: seq<Action>, more: seq<Action>, i: nat, id: nat)
    requires i < |more|
  {
    ActsFor(more[i], id) && Enabled(Exec(u, actions + more[..i]), more[i])
  }

  /** The time of the latest request for admission, and of the latest report to the breaker. */
  function EntryTime(more: seq<Action>): int {
    if more == [] then 0
    else
      var last := more[|more| - 1];
      if last.Enter? then last.at else EntryTime(more[..|more| - 1])
  }

  function ExitTime(more: seq<Action>): int {
    if more == [] then 0
    else
      var last := more[|more| - 1];
      if last.Leave? then last.at else ExitTime(more[..|more| - 1])
  }

  /** The guard of an operation with the present state of its breaker. */
  function GuardIn(u: Setup, s: Sys, op: Operation, useContext: bool): W.Guard {
    var k := GuardOf(u, op, useContext);
    if k.None? then W.Unguarded else W.Guarded(SettingsOf(u, k.value), BreakerOf(s, k.value))
  }

  /** Operation `id` is done as `r` says, and no other operation or breaker has moved. */
  ghost predicate HasRun(u: Setup, s: Sys, s': Sys, id: nat, op: Operation, useContext: bool, r: W.Report) {
    && id in s'.calls && s'.calls[id].pc == Done(r.err) && s'.calls == s.calls[id := s'.calls[id]]
    && s'.ledger == r.world.ledger && s'.invoked == s.invoked + r.world.calls
    && GuardIn(u, s', op, useContext) == r.guard
    && (forall k :: GuardOf(u, op, useContext) != Some(k) ==> BreakerOf(s', k) == BreakerOf(s, k))
  }

  /** Backend and context answer a run that is over as it was answered: with these outcomes, without a
      stop in the iterations that made a call, and with the stop of a cancelled run in the one after. */
  ghost predicate Answers(c: Call, be: Backend, ctx: C.Context) {
    var k := |c.outcomes|;
    && Agrees(c, be)
    && C.Uninterrupted(ctx, k)
    && (c.ending == Cancelled && (c.pc.Leaving? || c.pc.Done?) ==>
          && c.pc.err == Some(ctx.err) && C.Interrupted(ctx, k)
          && (C.StopsAtCheck(ctx, k) <==> c.attempts == k))
  }

  // ----- Every serial run is sequential -----

  /** What an operation has written into a ledger that was `l` before it. */
  function LedgerAfter(u: Setup, l: Ledger, c: Call): Ledger {
    var tried := RetryLoop.Attempts(l, c.op, c.attempts);
    match c.ending
    case Success => RecordSuccess(tried, c.op)
    case Failure => RecordFailure(tried, c.op, u.config.classifier(LastOutcome(c)))
    case _ => tried
  }

  /** The guard of an operation that found it to be `g`. */
  function GuardAfter(c: Call, g: W.Guard, start: int, end: int): W.Guard {
    if c.pc.Entering? then g
    else if c.pc.Done? && c.ending != Rejected then W.Leave(W.Enter(g, start), c.pc.err, end)
    else W.Enter(g, start)
  }

  predicate Answered(c: Call, g: W.Guard, start: int) {
    c.ending == Rejected <==> !c.pc.Entering? && !W.Admits(g, start)
  }

  /** Operation `id` is under way in s', was unknown in s, and nothing else has happened between. */
  ghost predicate Underway(u: Setup, s: Sys, s': Sys, id: nat, start: int, end: int) {
    && id in s'.calls
    && var c := s'.calls[id];
       && s'.calls == s.calls[id := c]
       && s'.ledger == LedgerAfter(u, s.ledger, c) && s'.invoked == s.invoked + |c.outcomes|
       && Guarding(u, s, s', c, start, end)
  }

  ghost predicate Guarding(u: Setup, s: Sys, s': Sys, c: Call, start: int, end: int) {
    var g := GuardIn(u, s, c.op, c.useContext);
    && Answered(c, g, start) && GuardIn(u, s', c.op, c.useContext) == GuardAfter(c, g, start, end)
    && (forall k :: GuardOf(u, c.op, c.useContext) != Some(k) ==> BreakerOf(s', k) == BreakerOf(s, k))
  }

  lemma LedgerFollows(u: Setup, l: Ledger, c: Call, a: Action, allowed: bool)
    requires Sound(u, c) && Ready(c, a)
    ensures Book(u, LedgerAfter(u, l, c), c, a) == LedgerAfter(u, l, Advance(u, c, a, allowed))
  {
    OneMoreAttempt(l, c.op, c.attempts);
  }

  /** One action moves the guard of its own operation as the specification says, and no other breaker. */
  lemma GuardFollows(u: Setup, s: Sys, s1: Sys, c: Call, a: Action, start: int, end: int)
    requires Sound(u, c) && Ready(c, a) && Guarding(u, s, s1, c, start, end)
    ensures Guarding(u, s, Stamped(u, s1, StampOf(u, c, a)), Advance(u, c, a, Allowed(u, s1, c, a)),
                     if a.Enter? then a.at else start, if a.Leave? then a.at else end)
  {
  }

  lemma BeginsUnderway(u: Setup, s: Sys, a: Action, id: nat)
    requires id !in s.calls && ActsFor(a, id) && Enabled(s, a)
    ensures !a.Enter? && !a.Leave? && Underway(u, s, Apply(u, s, a), id, 0, 0)
  {
  }

  lemma {:induction false} StaysUnderway(u: Setup, s: Sys, s1: Sys, id: nat, start: int, end: int, a: Action)
    requires Underway(u, s, s1, id, start, end) && SoundSystem(u, s1) && ActsFor(a, id) && Enabled(s1, a)
    ensures Underway(u, s, Apply(u, s1, a), id, if a.Enter? then a.at else start, if a.Leave? then a.at else end)
  {
    var c, s2 := s1.calls[id], Apply(u, s1, a);
    var c', moved := s2.calls[id], Stamped(u, s1, StampOf(u, c, a));
    assert Sound(u, c);
    LedgerFollows(u, s.ledger, c, a, Allowed(u, s1, c, a));
    GuardFollows(u, s, s1, c, a, start, end);
    SameGuarding(u, s, moved, s2, c', if a.Enter? then a.at else start, if a.Leave? then a.at else end);
    assert s.calls[id := c][id := c'] == s.calls[id := c'];
  }

  lemma SameGuarding(u: Setup, s: Sys, s1: Sys, s2: Sys, c: Call, start: int, end: int)
    requires Guarding(u, s, s1, c, start, end) && s1.breakers == s2.breakers
    ensures Guarding(u, s, s2, c, start, end)
  {
    assert forall k :: BreakerOf(s1, k) == BreakerOf(s2, k);
  }

  lemma {:induction false} SerialRunIsUnderway(u: Setup, actions: seq<Action>, more: seq<Action>, id: nat)
    requires id !in Exec(u, actions).calls && Serial(u, actions, more, id) && more != []
    ensures Underway(u, Exec(u, actions), Exec(u, actions + more), id, EntryTime(more), ExitTime(more))
  {
    var n := |more| - 1;
    var pre, a := more[..n], more[n];
    LastOfSerial(u, actions, more, id);
    if n == 0 {
      assert actions + pre == actions;
      BeginsUnderway(u, Exec(u, actions), a, id);
    } else {
      SerialRunIsUnderway(u, actions, pre, id);
      AllSound(u, actions + pre);
      StaysUnderway(u, Exec(u, actions), Exec(u, actions + pre), id, EntryTime(pre), ExitTime(pre), a);
    }
  }

  lemma LastOfSerial(u: Setup, actions: seq<Action>, more: seq<Action>, id: nat)
    requires Serial(u, actions, more, id) && more != []
    ensures var n := |more| - 1;
            && Serial(u, actions, more[..n], id) && ActsFor(more[n], id)
            && Enabled(Exec(u, actions + more[..n]), more[n])
            && Exec(u, actions + more) == Apply(u, Exec(u, actions + more[..n]), more[n])
  {
    var n := |more| - 1;
    assert InTurn(u, actions, more, n, id);
    assert actions + more == actions + more[..n] + [more[n]];
    ExecSnoc(u, actions + more[..n], more[n]);
    forall i: nat | i < n
      ensures InTurn(u, actions, more[..n], i, id)
    {
      assert InTurn(u, actions, more, i, id) && more[..n][..i] == more[..i];
    }
  }

  /** The loop of the specification, started on ledger `l`, does what operation `c` has done. */
  ghost predicate LoopDid(u: Setup, c: Call, be: Backend, ctx: C.Context, l: Ledger, err: Option<Error>) {
    var r := C.CancellableLoop(u.config, c.op, be, ctx, World(l, [], [], 0));
    r.world.ledger == LedgerAfter(u, l, c) && r.world.calls == |c.outcomes| && r.err == err
  }

  lemma LoopOfCancelled(u: Setup, c: Call, be: Backend, ctx: C.Context, l: Ledger)
    requires c.pc.Done? && c.ending == Cancelled && Ended(u, c, c.pc.err) && Answers(c, be, ctx)
    ensures LoopDid(u, c, be, ctx, l, c.pc.err)
  {
    RetriedIsUndecided(u, c, be, |c.outcomes|);
    C.StopsHere(u.config, c.op, be, ctx, World(l, [], [], 0), |c.outcomes|);
  }

  lemma LoopOfComplete(u: Setup, c: Call, be: Backend, ctx: C.Context, l: Ledger)
    requires Complete(u, c) && c.ending == (if LastOutcome(c).None? then Success else Failure) && Answers(c, be, ctx)
    ensures LoopDid(u, c, be, ctx, l, LastOutcome(c))
  {
    var k, w := |c.outcomes|, World(l, [], [], 0);
    CompleteIsCallCount(u, c, be);
    C.FinishesHere(u.config, c.op, be, ctx, w, k - 1);
    LoopMeetsSpecification(u.config, c.op, be, w, k);
  }

  /** An operation that has got through its loop has done what the loop does against its answers. */
  lemma LoopOfCall(u: Setup, c: Call, be: Backend, ctx: C.Context, l: Ledger)
    requires Sound(u, c) && c.pc.Done? && c.ending != Rejected && Answers(c, be, ctx)
    ensures LoopDid(u, c, be, ctx, l, c.pc.err)
  {
    assert Ended(u, c, c.pc.err);
    if c.ending == Cancelled {
      LoopOfCancelled(u, c, be, ctx, l);
    } else if !NeverTried(u, c) {
      LoopOfComplete(u, c, be, ctx, l);
    }
  }

  /** Every run in which one operation acts alone, however it is cancelled, is the sequential
      specification: from any reachable system, against every backend and context that answer as the
      run was answered, it leaves the error, ledger, calls and breaker of `retryWithContext`, admitted
      and reporting at the times of the run, and nothing else has moved. */
  lemma {:induction false} SerialRunIsSequential(u: Setup, actions: seq<Action>, more: seq<Action>, id: nat,
                                                 be: Backend, ctx: C.Context)
    requires id !in Exec(u, actions).calls && Serial(u, actions, more, id)
    requires id in Exec(u, actions + more).calls && Exec(u, actions + more).calls[id].pc.Done?
    requires Answers(Exec(u, actions + more).calls[id], be, ctx)
    ensures var s, s' := Exec(u, actions), Exec(u, actions + more);
            var c := s'.calls[id];
            var g := GuardIn(u, s, c.op, c.useContext);
            var r := W.RetryContext(u.config, c.op, be, ctx, World(s.ledger, [], [], 0), g,
                                    EntryTime(more), ExitTime(more));
            HasRun(u, s, s', id, c.op, c.useContext, r)
  {
    assert actions + [] == actions;
    SerialRunIsUnderway(u, actions, more, id);
    AllSound(u, actions + more);
    var c := Exec(u, actions + more).calls[id];
    assert Sound(u, c);
    if c.ending != Rejected {
      LoopOfCall(u, c, be, ctx, Exec(u, actions).ledger);
    }
  }

  /** For an operation that was not cancelled, on the plain path or under a context, that is `retry`. */
  lemma {:induction false} SerialRunIsRetry(u: Setup, actions: seq<Action>, more: seq<Action>, id: nat, be: Backend)
    requires id !in Exec(u, actions).calls && Serial(u, actions, more, id)
    requires id in Exec(u, actions + more).calls && Exec(u, actions + more).calls[id].pc.Done?
    requires Exec(u, actions + more).calls[id].ending != Cancelled && Agrees(Exec(u, actions + more).calls[id], be)
    ensures var s, s' := Exec(u, actions), Exec(u, actions + more);
            var c := s'.calls[id];
            var g := GuardIn(u, s, c.op, c.useContext);
            var r := W.Retry(u.config, c.op, be, World(s.ledger, [], [], 0), g, EntryTime(more), ExitTime(more));
            HasRun(u, s, s', id, c.op, c.useContext, r)
  {
    var s, c := Exec(u, actions), Exec(u, actions + more).calls[id];
    var never := C.Context((i: nat) => false, (i: nat) => false, CIRCUIT_OPEN);
    SerialRunIsSequential(u, actions, more, id, be, never);
    W.ContextPathEqualsPlainPath(u.config, c.op, be, never, World(s.ledger, [], [], 0),
                                 GuardIn(u, s, c.op, c.useContext), EntryTime(more), ExitTime(more));
  }

  // ----- Every run has a backend and a context -----

  function BackendOf(c: Call): Backend {
    Backend((i: nat) => if i < |c.outcomes| then c.outcomes[i] else None, (i: nat) => 0)
  }

  /** A context that is done from the moment at which the operation was cancelled. */
  function ContextOf(c: Call): C.Context {
    var k := |c.outcomes|;
    var from := if c.attempts == k then C.CheckPoint(k) else C.BackoffPoint(k);
    var err := if c.pc.Done? && c.pc.err.Some? then c.pc.err.value else CIRCUIT_OPEN;
    C.Context((i: nat) => c.ending == Cancelled && i >= from, (i: nat) => true, err)
  }

  lemma {:induction false} EveryRunIsAnswered(u: Setup, actions: seq<Action>, id: nat)
    requires id in Exec(u, actions).calls && Exec(u, actions).calls[id].pc.Done?
    ensures var c := Exec(u, actions).calls[id];
            Answers(c, BackendOf(c), ContextOf(c)) && C.Monotone(ContextOf(c))
  {
    AllSound(u, actions);
    assert Sound(u, Exec(u, actions).calls[id]);
  }

  // ----- Every behaviour of the specification is a serial run -----

  /** One more action in its turn. */
  lemma {:induction false} Do(u: Setup, actions: seq<Action>, more: seq<Action>, a: Action, id: nat)
    returns (all: seq<Action>)
    requires Serial(u, actions, more, id) && ActsFor(a, id) && Enabled(Exec(u, actions + more), a)
    ensures all == more + [a] && Serial(u, actions, all, id)
    ensures EntryTime(all) == (if a.Enter? then a.at else EntryTime(more))
    ensures ExitTime(all) == (if a.Leave? then a.at else ExitTime(more))
    ensures Exec(u, actions + all) == Apply(u, Exec(u, actions + more), a)
  {
    all := more + [a];
    assert actions + all == actions + more + [a] && all[..|more|] == more;
    ExecSnoc(u, actions + more, a);
    forall i: nat | i < |all|
      ensures InTurn(u, actions, all, i, id)
    {
      assert all[..i] == more[..i];
      assert i < |more| ==> InTurn(u, actions, more, i, id);
    }
  }

  /** The same inside the loop, where the clock stands still. */
  lemma {:induction false} DoInside(u: Setup, actions: seq<Action>, more: seq<Action>, a: Action, id: nat)
    returns (all: seq<Action>)
    requires Serial(u, actions, more, id) && ActsFor(a, id) && id in Exec(u, actions + more).calls
    requires Ready(Exec(u, actions + more).calls[id], a) && !a.Enter? && !a.Leave?
    ensures Serial(u, actions, all, id) && EntryTime(all) == EntryTime(more)
    ensures var s, s' := Exec(u, actions + more), Exec(u, actions + all);
            && s'.clock == s.clock && id in s'.calls && s'.calls[id] == Advance(u, s.calls[id], a, false)
  {
    all := Do(u, actions, more, a, id);
  }

  /** Operation `id` is at the head of iteration i of a run that `be` and `ctx` have answered so far. */
  ghost predicate AtIteration(u: Setup, s: Sys, id: nat, be: Backend, ctx: C.Context, i: nat) {
    && id in s.calls
    && var c := s.calls[id];
       && c.pc == AtHead(i) && c.ending == Pending && c.attempts == |c.outcomes| == i
       && Agrees(c, be) && C.Uninterrupted(ctx, i) && (i == 0 || i < PolicyOf(u, c).maxAttempts)
       && Suits(ctx, c.useContext)
  }

  /** The plain path runs under a context that is never done. */
  ghost predicate Suits(ctx: C.Context, useContext: bool) { useContext || forall i: nat :: !ctx.done(i) }

  /** The loop is over, answered by `be` and `ctx`; only the breaker has to be told. */
  ghost predicate LoopOver(s: Sys, s': Sys, id: nat, be: Backend, ctx: C.Context) {
    && id in s.calls && id in s'.calls && s'.clock == s.clock
    && var c, c' := s.calls[id], s'.calls[id];
       && c'.pc.Leaving? && c'.op == c.op && c'.useContext == c.useContext && c'.ending != Rejected
       && Answers(c', be, ctx)
  }

  /** From the head of any iteration the operation can run its loop to the end that `ctx` allows. */
  lemma {:induction false} RunLoop(u: Setup, actions: seq<Action>, more: seq<Action>, id: nat,
                                   be: Backend, ctx: C.Context, i: nat)
    returns (all: seq<Action>)
    requires Serial(u, actions, more, id) && AtIteration(u, Exec(u, actions + more), id, be, ctx, i)
    ensures Serial(u, actions, all, id) && EntryTime(all) == EntryTime(more)
    ensures LoopOver(Exec(u, actions + more), Exec(u, actions + all), id, be, ctx)
    decreases PolicyOf(u, Exec(u, actions + more).calls[id]).maxAttempts - i, 1
  {
    if PolicyOf(u, Exec(u, actions + more).calls[id]).maxAttempts <= 0 {
      all := DoInside(u, actions, more, Head(id, None), id);
      all := DoInside(u, actions, all, Settle(id), id);
    } else if C.StopsAtCheck(ctx, i) {
      all := DoInside(u, actions, more, Head(id, Some(ctx.err)), id);
    } else if C.StopsInBackoff(ctx, i) {
      all := DoInside(u, actions, more, Head(id, None), id);
      all := DoInside(u, actions, all, StopInBackoff(id, ctx.err), id);
    } else {
      all := RunIteration(u, actions, more, id, be, ctx, i);
    }
  }

  lemma {:induction false} RunIteration(u: Setup, actions: seq<Action>, more: seq<Action>, id: nat,
                                        be: Backend, ctx: C.Context, i: nat)
    returns (all: seq<Action>)
    requires Serial(u, actions, more, id) && AtIteration(u, Exec(u, actions + more), id, be, ctx, i)
    requires i < PolicyOf(u, Exec(u, actions + more).calls[id]).maxAttempts && !C.Interrupted(ctx, i)
    ensures Serial(u, actions, all, id) && EntryTime(all) == EntryTime(more)
    ensures LoopOver(Exec(u, actions + more), Exec(u, actions + all), id, be, ctx)
    decreases PolicyOf(u, Exec(u, actions + more).calls[id]).maxAttempts - i, 0
  {
    C.StillUninterrupted(ctx, i);
    all := DoInside(u, actions, more, Head(id, None), id);
    all := DoInside(u, actions, all, Invoke(id, be.outcome(i)), id);
    if Exec(u, actions + all).calls[id].pc.AtHead? {
      all := RunLoop(u, actions, all, id, be, ctx, i + 1);
    } else {
      all := DoInside(u, actions, all, Settle(id), id);
    }
  }

  lemma {:induction false} Admission(u: Setup, actions: seq<Action>, id: nat, op: Operation,
                                     useContext: bool, start: int)
    returns (more: seq<Action>)
    requires id !in Exec(u, actions).calls && Exec(u, actions).clock <= start
    ensures Serial(u, actions, more, id) && EntryTime(more) == start
    ensures var s, s' := Exec(u, actions), Exec(u, actions + more);
            && id in s'.calls && s'.clock <= start
            && s'.calls[id] == if W.Admits(GuardIn(u, s, op, useContext), start)
                               then Call(op, useContext, AtHead(0), 0, [], Pending)
                               else Call(op, useContext, Done(Some(CIRCUIT_OPEN)), 0, [], Rejected)
  {
    assert actions + [] == actions;
    more := Do(u, actions, [], Begin(id, op, useContext), id);
    more := Do(u, actions, more, Enter(id, start), id);
  }

  /** Whatever backend and context an operation meets, and whenever it enters and leaves, there is a
      serial run that they answer; it does to the system what the specification says. */
  lemma {:induction false} UninterruptedRunIsSequential(u: Setup, actions: seq<Action>, id: nat, op: Operation,
                                                        useContext: bool, be: Backend, ctx: C.Context,
                                                        start: int, end: int)
    returns (more: seq<Action>)
    requires id !in Exec(u, actions).calls && Exec(u, actions).clock <= start <= end && Suits(ctx, useContext)
    ensures Serial(u, actions, more, id) && EntryTime(more) == start
    ensures var s, s' := Exec(u, actions), Exec(u, actions + more);
            var g := GuardIn(u, s, op, useContext);
            var r := W.RetryContext(u.config, op, be, ctx, World(s.ledger, [], [], 0), g, start, end);
            && HasRun(u, s, s', id, op, useContext, r)
            && s'.calls[id].op == op && s'.calls[id].useContext == useContext && Answers(s'.calls[id], be, ctx)
  {
    more := Admission(u, actions, id, op, useContext, start);
    if W.Admits(GuardIn(u, Exec(u, actions), op, useContext), start) {
      more := RunLoop(u, actions, more, id, be, ctx, 0);
      more := Do(u, actions, more, Leave(id, end), id);
    }
    SerialRunIsSequential(u, actions, more, id, be, ctx);
  }

  /** The same for `retry`. */
  lemma {:induction false} UninterruptedRunIsRetry(u: Setup, actions: seq<Action>, id: nat, op: Operation,
                                                   useContext: bool, be: Backend, start: int, end: int)
    returns (more: seq<Action>)
    requires id !in Exec(u, actions).calls && Exec(u, actions).clock <= start <= end
    ensures Serial(u, actions, more, id) && EntryTime(more) == start
    ensures var s, s' := Exec(u, actions), Exec(u, actions + more);
            var g := GuardIn(u, s, op, useContext);
            var r := W.Retry(u.config, op, be, World(s.ledger, [], [], 0), g, start, end);
            && HasRun(u, s, s', id, op, useContext, r)
            && s'.calls[id].op == op && s'.calls[id].useContext == useContext && Agrees(s'.calls[id], be)
  {
    var s := Exec(u, actions);
    var never := C.Context((i: nat) => false, (i: nat) => false, CIRCUIT_OPEN);
    more := UninterruptedRunIsSequential(u, actions, id, op, useContext, be, never, start, end);
    W.ContextPathEqualsPlainPath(u.config, op, be, never, World(s.ledger, [], [], 0),
                                 GuardIn(u, s, op, useContext), start, end);
  }
}
