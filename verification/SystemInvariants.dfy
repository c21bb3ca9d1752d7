/** What holds in every system that any sequence of actions can reach. */
module SystemInvariants {
  import opened Types
  import opened Errors
  import opened Counting
  import opened Ledger
  import opened RetryLoop
  import opened System
  import B = Breaker

  // ----- Every operation follows the loop specification -----

  /** The first n outcomes were all retried or could have been. */
  ghost predicate Retried(u: Setup, c: Call, n: nat) {
    && n <= |c.outcomes|
    && forall i :: 0 <= i < n ==> c.outcomes[i].Some? && u.config.classifier(c.outcomes[i]) != Permanent
  }

  /** The calls of the wrapped function are complete. */
  ghost predicate Complete(u: Setup, c: Call) {
    var k := |c.outcomes|;
    && 1 <= k <= PolicyOf(u, c).maxAttempts && c.attempts == k && Retried(u, c, k - 1)
    && (|| c.outcomes[k - 1].None? || u.config.classifier(c.outcomes[k - 1]) == Permanent
        || k == PolicyOf(u, c).maxAttempts)
  }

  ghost predicate NeverTried(u: Setup, c: Call) {
    PolicyOf(u, c).maxAttempts <= 0 && c.attempts == 0 && c.outcomes == []
  }

  ghost predicate Sound(u: Setup, c: Call) {
    var k, max := |c.outcomes|, PolicyOf(u, c).maxAttempts;
    match c.pc
    case Entering => c.attempts == 0 && k == 0 && c.ending == Pending
    case AtHead(a) => c.attempts == a == k && (a == 0 || a < max) && Retried(u, c, k) && c.ending == Pending
    case Recorded(a) => c.attempts == a + 1 && a == k && a < max && Retried(u, c, k) && c.ending == Pending
    case Succeeded => Complete(u, c) && LastOutcome(c).None? && c.ending == Pending
    case Failed => (NeverTried(u, c) || (Complete(u, c) && LastOutcome(c).Some?)) && c.ending == Pending
    case Leaving(err) => c.ending != Rejected && Ended(u, c, err)
    case Done(err) => Ended(u, c, err)
  }

  /** How an operation can be over, and what it returns then. */
  ghost predicate Ended(u: Setup, c: Call, err: Option<Error>) {
    match c.ending
    case Pending => false
    case Success => Complete(u, c) && err == LastOutcome(c) == None
    case Failure => err == LastOutcome(c) && (NeverTried(u, c) || (Complete(u, c) && err.Some?))
    case Cancelled =>
      && c.useContext && err.Some? && Retried(u, c, |c.outcomes|) && |c.outcomes| < PolicyOf(u, c).maxAttempts
      && (c.attempts == |c.outcomes| || (c.attempts == |c.outcomes| + 1 && |c.outcomes| > 0))
    case Rejected =>
      c.attempts == 0 && c.outcomes == [] && err == Some(CIRCUIT_OPEN) && GuardOf(u, c.op, c.useContext).Some?
  }

  lemma AdvanceKeepsSound(u: Setup, c: Call, a: Action, allowed: bool)
    requires Sound(u, c) && Ready(c, a)
    requires a.Enter? && !allowed ==> GuardOf(u, c.op, c.useContext).Some?
    ensures Sound(u, Advance(u, c, a, allowed))
  {
  }

  ghost predicate SoundSystem(u: Setup, s: Sys) {
    forall id :: id in s.calls ==> Sound(u, s.calls[id])
  }

  lemma {:induction false} AllSound(u: Setup, actions: seq<Action>)
    ensures SoundSystem(u, Exec(u, actions))
  {
    if actions != [] {
      var s, a := Exec(u, actions[..|actions| - 1]), actions[|actions| - 1];
      AllSound(u, actions[..|actions| - 1]);
      if Enabled(s, a) && !a.Begin? && !a.ResetBreaker? {
        var c := s.calls[a.id];
        assert Sound(u, c);
        AdvanceKeepsSound(u, c, a, Allowed(u, s, c, a));
      }
    }
  }

  /** Backend `be` answers the calls of operation `c` as they were answered. */
  ghost predicate Agrees(c: Call, be: Backend) {
    forall i: nat :: i < |c.outcomes| ==> be.outcome(i) == c.outcomes[i]
  }

  lemma RetriedIsUndecided(u: Setup, c: Call, be: Backend, n: nat)
    requires Retried(u, c, n) && Agrees(c, be)
    ensures Undecided(u.config, be, n)
  {
  }

  lemma CompleteIsCallCount(u: Setup, c: Call, be: Backend)
    requires Complete(u, c) && Agrees(c, be)
    ensures IsCallCount(u.config, PolicyOf(u, c), be, |c.outcomes|)
  {
    RetriedIsUndecided(u, c, be, |c.outcomes| - 1);
    assert be.outcome(|c.outcomes| - 1) == LastOutcome(c);
  }

  /** Whatever else runs, an operation that ends in success or failure has made exactly the calls the
      loop specification prescribes for its own outcomes and returns the last of them. The calls of a
      cancelled one are a proper prefix of those the uncancelled run would make, and it has recorded at
      most one attempt more, a retry. A rejected one has done nothing at all. */
  lemma OperationsMeetLoopSpecification(u: Setup, actions: seq<Action>, id: nat, be: Backend)
    requires id in Exec(u, actions).calls && Exec(u, actions).calls[id].pc.Done?
    requires Agrees(Exec(u, actions).calls[id], be)
    ensures var c := Exec(u, actions).calls[id];
            var k, policy := |c.outcomes|, PolicyOf(u, c);
            && (c.ending in {Success, Failure} && policy.maxAttempts >= 1 ==>
                  && IsCallCount(u.config, policy, be, k)
                  && c.attempts == k && c.pc.err == c.outcomes[k - 1]
                  && (c.ending == Success <==> c.pc.err.None?))
            && (c.ending == Cancelled ==>
                  && c.useContext && c.pc.err.Some? && Undecided(u.config, be, k)
                  && (forall n: nat :: IsCallCount(u.config, policy, be, n) ==> k < n)
                  && (c.attempts == k || (c.attempts == k + 1 && k > 0)))
            && (c.ending == Rejected ==> c.attempts == 0 && k == 0 && c.pc.err == Some(CIRCUIT_OPEN))
            && c.ending != Pending
  {
    AllSound(u, actions);
    var c := Exec(u, actions).calls[id];
    assert Sound(u, c);
    if c.ending in {Success, Failure} && PolicyOf(u, c).maxAttempts >= 1 {
      CompleteIsCallCount(u, c, be);
    } else if c.ending == Cancelled {
      RetriedIsUndecided(u, c, be, |c.outcomes|);
    }
  }

  // ----- Every breaker stands alone -----

  lemma ProjectSnoc(trace: seq<Stamp>, x: Stamp, k: Key)
    ensures Project(trace + [x], k) == if x.key == k then Project(trace, k) + [x.event] else Project(trace, k)
  {
    assert (trace + [x])[..|trace|] == trace;
  }

  ghost predicate Leaves(settings: B.Settings, es: seq<B.Event>, clock: int, b: B.Breaker) {
    b == B.Run(settings, B.FRESH, es) && B.Timed(es) && (es != [] ==> es[|es| - 1].at <= clock)
  }

  lemma LeavesSnoc(settings: B.Settings, es: seq<B.Event>, clock: int, b: B.Breaker, e: B.Event)
    requires Leaves(settings, es, clock, b) && clock <= e.at
    ensures Leaves(settings, es + [e], e.at, B.Step(settings, b, e))
  {
    B.RunSnoc(settings, B.FRESH, es, e);
    B.TimedSnoc(es, e);
  }

  ghost predicate Alone(u: Setup, s: Sys, k: Key) {
    Leaves(SettingsOf(u, k), Project(s.trace, k), s.clock, BreakerOf(s, k))
  }

  lemma StampedStaysAlone(u: Setup, s: Sys, stamp: Option<Stamp>, k: Key)
    requires Alone(u, s, k) && (stamp.Some? ==> s.clock <= stamp.value.event.at)
    ensures Alone(u, Stamped(u, s, stamp), k)
  {
    if stamp.Some? {
      ProjectSnoc(s.trace, stamp.value, k);
      if stamp.value.key == k {
        LeavesSnoc(SettingsOf(u, k), Project(s.trace, k), s.clock, BreakerOf(s, k), stamp.value.event);
      }
    }
  }

  /** In every interleaving of the whole system each breaker is in the state that its own critical
      sections, run alone in the order of their times, would leave: everything module BreakerHistory
      says about one breaker holds for each of them. */
  lemma {:induction false} EveryBreakerStandsAlone(u: Setup, actions: seq<Action>, k: Key)
    ensures Alone(u, Exec(u, actions), k)
  {
    if actions != [] {
      var s, a := Exec(u, actions[..|actions| - 1]), actions[|actions| - 1];
      EveryBreakerStandsAlone(u, actions[..|actions| - 1], k);
      if Enabled(s, a) && !a.Begin? {
        var stamp := if a.ResetBreaker? then Some(Stamp(a.key, B.ResetAll(a.at))) else StampOf(u, s.calls[a.id], a);
        StampedStaysAlone(u, s, stamp, k);
      }
    }
  }

  // ----- The ledger -----

  predicate Started(c: Call) { c.attempts > 0 }
  predicate Won(c: Call) { c.ending == Success }
  predicate Lost(c: Call) { c.ending == Failure }
  predicate LostUntried(c: Call) { c.ending == Failure && c.attempts == 0 }
  predicate Running(c: Call) { c.attempts > 0 && c.ending == Pending }
  predicate Stopped(c: Call) { c.attempts > 0 && c.ending == Cancelled }
  predicate Owing(c: Call) { c.attempts > |c.outcomes| }

  /** The totals as counts of operations. */
  ghost predicate Counted(s: Sys) {
    && s.ledger.total.attempts - s.ledger.total.retries == |Where(s.calls, Started)|
    && s.ledger.total.successes == |Where(s.calls, Won)|
    && s.ledger.total.failures == |Where(s.calls, Lost)|
    && s.ledger.total.attempts == s.invoked + |Where(s.calls, Owing)|
  }

  lemma CountAll(m: map<nat, Call>, id: nat, c: Call)
    ensures |Where(m[id := c], Started)|
            == |Where(m, Started)| + (if Started(c) then 1 else 0) - (if id in m && Started(m[id]) then 1 else 0)
    ensures |Where(m[id := c], Won)|
            == |Where(m, Won)| + (if Won(c) then 1 else 0) - (if id in m && Won(m[id]) then 1 else 0)
    ensures |Where(m[id := c], Lost)|
            == |Where(m, Lost)| + (if Lost(c) then 1 else 0) - (if id in m && Lost(m[id]) then 1 else 0)
    ensures |Where(m[id := c], Owing)|
            == |Where(m, Owing)| + (if Owing(c) then 1 else 0) - (if id in m && Owing(m[id]) then 1 else 0)
  {
    CountUpdate(m, id, c, Started);
    CountUpdate(m, id, c, Won);
    CountUpdate(m, id, c, Lost);
    CountUpdate(m, id, c, Owing);
  }

  /** What one action of one operation adds to the totals and to the counts is the same. */
  lemma ActionIsCounted(u: Setup, l: Ledger, c: Call, a: Action, allowed: bool)
    requires Sound(u, c) && Ready(c, a)
    ensures var l', c' := Book(u, l, c, a), Advance(u, c, a, allowed);
            && (l'.total.attempts - l'.total.retries) - (l.total.attempts - l.total.retries)
               == (if Started(c') then 1 else 0) - (if Started(c) then 1 else 0)
            && l'.total.successes - l.total.successes == (if Won(c') then 1 else 0) - (if Won(c) then 1 else 0)
            && l'.total.failures - l.total.failures == (if Lost(c') then 1 else 0) - (if Lost(c) then 1 else 0)
            && l'.total.attempts - l.total.attempts
               == (if a.Invoke? then 1 else 0) + (if Owing(c') then 1 else 0) - (if Owing(c) then 1 else 0)
  {
  }

  lemma {:induction false} AllCounted(u: Setup, actions: seq<Action>)
    ensures Counted(Exec(u, actions))
  {
    if actions != [] {
      var s, a := Exec(u, actions[..|actions| - 1]), actions[|actions| - 1];
      AllCounted(u, actions[..|actions| - 1]);
      AllSound(u, actions[..|actions| - 1]);
      if Enabled(s, a) && !a.ResetBreaker? {
        CountAll(s.calls, a.id, Apply(u, s, a).calls[a.id]);
        if !a.Begin? {
          ActionIsCounted(u, s.ledger, s.calls[a.id], a, Allowed(u, s, s.calls[a.id], a));
        }
      }
    } else {
      assert Where(INITIAL.calls, Started) == {} && Where(INITIAL.calls, Won) == {};
      assert Where(INITIAL.calls, Lost) == {} && Where(INITIAL.calls, Owing) == {};
    }
  }

  predicate LostTried(c: Call) { c.ending == Failure && c.attempts > 0 }
  predicate Verdicts(c: Call) { Won(c) || LostTried(c) }
  predicate Unfinished(c: Call) { Running(c) || Stopped(c) }

  lemma StartedIsSomething(u: Setup, c: Call)
    requires Sound(u, c)
    ensures Started(c) <==> Verdicts(c) || Unfinished(c)
    ensures PolicyOf(u, c).maxAttempts >= 1 ==> !LostUntried(c)
  {
  }

  lemma StartedSplits(u: Setup, s: Sys)
    requires SoundSystem(u, s)
    ensures |Where(s.calls, Started)| == |Where(s.calls, Verdicts)| + |Where(s.calls, Unfinished)|
  {
    forall id | id in s.calls
      ensures Started(s.calls[id]) <==> Verdicts(s.calls[id]) || Unfinished(s.calls[id])
    {
      assert Sound(u, s.calls[id]);
      StartedIsSomething(u, s.calls[id]);
    }
    CountSplit(s.calls, Started, Verdicts, Unfinished);
  }

  lemma VerdictsSplit(s: Sys)
    ensures |Where(s.calls, Verdicts)| == |Where(s.calls, Won)| + |Where(s.calls, Lost)| - |Where(s.calls, LostUntried)|
    ensures |Where(s.calls, Unfinished)| == |Where(s.calls, Running)| + |Where(s.calls, Stopped)|
  {
    CountSplit(s.calls, Lost, LostUntried, LostTried);
    CountSplit(s.calls, Verdicts, Won, LostTried);
    CountSplit(s.calls, Unfinished, Running, Stopped);
  }

  /** Ledger conservation, at every step of any number of interleaved operations: first attempts are
      the successes, plus the failures (but for those of policies without attempts), plus the
      operations running past their first attempt, plus those cancelled after it. Attempts exceed
      calls of the wrapped function by the operations whose latest attempt has not called yet or was
      cancelled in its backoff. Rejected operations appear nowhere. */
  lemma {:induction false} LedgerConservation(u: Setup, actions: seq<Action>)
    ensures var s := Exec(u, actions);
            var t := s.ledger.total;
            && t.attempts - t.retries == t.successes + (t.failures - |Where(s.calls, LostUntried)|)
                                         + |Where(s.calls, Running)| + |Where(s.calls, Stopped)|
            && t.attempts == s.invoked + |Where(s.calls, Owing)|
  {
    AllCounted(u, actions);
    AllSound(u, actions);
    StartedSplits(u, Exec(u, actions));
    VerdictsSplit(Exec(u, actions));
  }

  /** When every operation is done and none was cancelled, successes and failures account for every
      first attempt, and every recorded attempt has called the wrapped function. */
  lemma {:induction false} ConservationAtRest(u: Setup, actions: seq<Action>)
    requires var s := Exec(u, actions);
             forall id :: id in s.calls ==>
               s.calls[id].pc.Done? && s.calls[id].ending != Cancelled && PolicyOf(u, s.calls[id]).maxAttempts >= 1
    ensures var t := Exec(u, actions).ledger.total;
            t.attempts - t.retries == t.successes + t.failures && t.attempts == Exec(u, actions).invoked
  {
    LedgerConservation(u, actions);
    AllSound(u, actions);
    var s := Exec(u, actions);
    forall id | id in s.calls
      ensures !Running(s.calls[id]) && !Stopped(s.calls[id]) && !Owing(s.calls[id]) && !LostUntried(s.calls[id])
    {
      assert Sound(u, s.calls[id]);
      StartedIsSomething(u, s.calls[id]);
    }
    assert Where(s.calls, LostUntried) == {};
    assert Where(s.calls, Running) == {} && Where(s.calls, Stopped) == {} && Where(s.calls, Owing) == {};
  }

  // ----- Totals and breakdowns -----

  /** The operations with an entry are those of the recorded attempts; their policies allow one. */
  ghost predicate Entered(u: Setup, s: Sys) { EnteredIn(u, s.calls, s.ledger.perOperation) }

  ghost predicate EnteredIn(u: Setup, calls: map<nat, Call>, entries: map<Operation, Counts>) {
    && (forall id :: id in calls && calls[id].attempts > 0 ==> calls[id].op in entries)
    && (forall op :: op in entries ==> GetPolicy(u.config, op).maxAttempts >= 1)
  }

  lemma EnteredGrows(u: Setup, calls: map<nat, Call>, entries: map<Operation, Counts>, id: nat, c: Call,
                     entries': map<Operation, Counts>)
    requires EnteredIn(u, calls, entries) && entries.Keys <= entries'.Keys <= entries.Keys + {c.op}
    requires c.attempts > 0 ==> c.op in entries'
    requires c.op in entries' ==> PolicyOf(u, c).maxAttempts >= 1
    ensures EnteredIn(u, calls[id := c], entries')
  {
  }

  lemma BookKeepsBalance(u: Setup, l: Ledger, c: Call, a: Action, allowed: bool, gap: int)
    requires BalancedBut(l, gap) && Sound(u, c) && Ready(c, a)
    requires c.attempts > 0 ==> c.op in l.perOperation
    requires c.op in l.perOperation ==> PolicyOf(u, c).maxAttempts >= 1
    ensures var l', c' := Book(u, l, c, a), Advance(u, c, a, allowed);
            && BalancedBut(l', gap + (if LostUntried(c') then 1 else 0) - (if LostUntried(c) then 1 else 0))
            && l.perOperation.Keys <= l'.perOperation.Keys <= l.perOperation.Keys + {c.op}
            && (c'.attempts > 0 ==> c.op in l'.perOperation)
            && (c.op in l'.perOperation ==> PolicyOf(u, c).maxAttempts >= 1)
  {
    if RecordsAttempt(u, c, a) {
      AttemptKeepsBalance(l, c.op, c.pc.attempt > 0, gap);
    } else if a.Settle? {
      SuccessKeepsBalance(l, c.op, gap);
      FailureKeepsBalance(l, c.op, u.config.classifier(LastOutcome(c)), gap);
    }
  }

  /** At every step of every run, for all policies: the totals of attempts, retries and successes are
      the sums over the operations, the failures are the sum over the error classes, and they exceed
      the sum over the operations by the failures of operations that were not allowed an attempt. */
  lemma {:induction false} TotalsMeetBreakdowns(u: Setup, actions: seq<Action>)
    ensures var s := Exec(u, actions); BalancedBut(s.ledger, |Where(s.calls, LostUntried)|) && Entered(u, s)
  {
    if actions == [] {
      assert Where(INITIAL.calls, LostUntried) == {};
    } else {
      var s, a := Exec(u, actions[..|actions| - 1]), actions[|actions| - 1];
      TotalsMeetBreakdowns(u, actions[..|actions| - 1]);
      AllSound(u, actions[..|actions| - 1]);
      if Enabled(s, a) {
        StepKeepsTotals(u, s, a);
        StepKeepsEntered(u, s, a);
      }
    }
  }

  lemma StepKeepsTotals(u: Setup, s: Sys, a: Action)
    requires Enabled(s, a) && SoundSystem(u, s) && Entered(u, s)
    requires BalancedBut(s.ledger, |Where(s.calls, LostUntried)|)
    ensures var s' := Apply(u, s, a); BalancedBut(s'.ledger, |Where(s'.calls, LostUntried)|)
  {
    if !a.ResetBreaker? {
      var c' := Apply(u, s, a).calls[a.id];
      assert Apply(u, s, a).calls == s.calls[a.id := c'];
      CountUpdate(s.calls, a.id, c', LostUntried);
      if !a.Begin? {
        BookingOf(u, s, a);
      }
    }
  }

  lemma StepKeepsEntered(u: Setup, s: Sys, a: Action)
    requires Enabled(s, a) && SoundSystem(u, s) && Entered(u, s)
    requires BalancedBut(s.ledger, |Where(s.calls, LostUntried)|)
    ensures Entered(u, Apply(u, s, a))
  {
    var s' := Apply(u, s, a);
    if a.Begin? {
      assert s'.ledger == s.ledger && s'.calls == s.calls[a.id := s'.calls[a.id]];
      assert s'.calls[a.id].attempts == 0;
    } else if !a.ResetBreaker? {
      BookingOf(u, s, a);
      EnteredGrows(u, s.calls, s.ledger.perOperation, a.id, s'.calls[a.id], s'.ledger.perOperation);
    }
  }

  /** What an action of an operation does to the ledger of the whole system. */
  lemma BookingOf(u: Setup, s: Sys, a: Action)
    requires Enabled(s, a) && !a.Begin? && !a.ResetBreaker? && SoundSystem(u, s) && Entered(u, s)
    requires BalancedBut(s.ledger, |Where(s.calls, LostUntried)|)
    ensures var c, c', l, l' := s.calls[a.id], Apply(u, s, a).calls[a.id], s.ledger, Apply(u, s, a).ledger;
            && BalancedBut(l', |Where(s.calls, LostUntried)| + (if LostUntried(c') then 1 else 0)
                               - (if LostUntried(c) then 1 else 0))
            && l.perOperation.Keys <= l'.perOperation.Keys <= l.perOperation.Keys + {c.op} && c'.op == c.op
            && (c'.attempts > 0 ==> c.op in l'.perOperation)
            && (c.op in l'.perOperation ==> PolicyOf(u, c).maxAttempts >= 1)
  {
    var c := s.calls[a.id];
    assert Sound(u, c);
    BookKeepsBalance(u, s.ledger, c, a, Allowed(u, s, c, a), |Where(s.calls, LostUntried)|);
  }

  /** Hence totals equal breakdowns exactly while no operation has failed without an attempt. */
  lemma {:induction false} TotalsEqualBreakdownsIff(u: Setup, actions: seq<Action>)
    ensures var s := Exec(u, actions); Balanced(s.ledger) <==> Where(s.calls, LostUntried) == {}
  {
    TotalsMeetBreakdowns(u, actions);
  }

  /** Totals equal the sums of their breakdowns at every step, if every policy allows an attempt. */
  lemma {:induction false} TotalsEqualBreakdowns(u: Setup, actions: seq<Action>)
    requires forall op :: GetPolicy(u.config, op).maxAttempts >= 1
    ensures Balanced(Exec(u, actions).ledger) && Entered(u, Exec(u, actions))
  {
    TotalsMeetBreakdowns(u, actions);
    AllSound(u, actions);
    var s := Exec(u, actions);
    forall id | id in s.calls
      ensures !LostUntried(s.calls[id])
    {
      assert Sound(u, s.calls[id]);
      StartedIsSomething(u, s.calls[id]);
    }
    assert Where(s.calls, LostUntried) == {};
  }

  /** One operation whose policy allows no attempt is enough to unbalance a ledger. */
  lemma {:induction false} UntriedFailure(u: Setup, op: Operation) returns (actions: seq<Action>)
    requires GetPolicy(u.config, op).maxAttempts <= 0
    ensures !Balanced(Exec(u, actions).ledger)
  {
    var begin, enter, head, settle := Begin(0, op, false), Enter(0, 0), Head(0, None), Settle(0);
    ExecSnoc(u, [], begin);
    ExecSnoc(u, [begin], enter);
    ExecSnoc(u, [begin, enter], head);
    ExecSnoc(u, [begin, enter, head], settle);
    actions := [begin, enter, head, settle];
    assert [] + [begin] == [begin] && [begin] + [enter] == [begin, enter];
    assert [begin, enter] + [head] == [begin, enter, head] && [begin, enter, head] + [settle] == actions;
    assert 0 in Where(Exec(u, actions).calls, LostUntried);
    TotalsEqualBreakdownsIff(u, actions);
  }

  /** The totals equal their breakdowns in every run exactly when every policy allows an attempt. */
  lemma {:induction false} AlwaysBalancedIff(u: Setup)
    ensures (forall actions :: Balanced(Exec(u, actions).ledger))
            <==> forall op :: GetPolicy(u.config, op).maxAttempts >= 1
  {
    if op :| GetPolicy(u.config, op).maxAttempts <= 0 {
      var actions := UntriedFailure(u, op);
    } else {
      forall actions
        ensures Balanced(Exec(u, actions).ledger)
      {
        TotalsEqualBreakdowns(u, actions);
      }
    }
  }
}
