/** The retry-storm bound for the whole system: breaker and retry loop together limit how often a
    dead backend is called, whatever the interleaving. */
module SystemStorm {
  import opened Types
  import opened Counting
  import opened System
  import opened SystemInvariants
  import B = Breaker
  import R = RetryStorm

  predicate GuardedBy(u: Setup, k: Key, c: Call) { GuardOf(u, c.op, c.useContext) == Some(k) }

  /** Operations that breaker k has let through; those that have reported back; those between. */
  function AdmittedBy(u: Setup, k: Key): Call -> bool {
    (c: Call) => GuardedBy(u, k, c) && !c.pc.Entering? && c.ending != Rejected
  }
  function ReportedTo(u: Setup, k: Key): Call -> bool {
    (c: Call) => GuardedBy(u, k, c) && c.pc.Done? && c.ending != Rejected
  }
  function InFlightOf(u: Setup, k: Key): Call -> bool {
    (c: Call) => AdmittedBy(u, k)(c) && !ReportedTo(u, k)(c)
  }

  /** All calls of the wrapped function made by operations behind breaker k. */
  ghost function FunctionCalls(u: Setup, s: Sys, k: Key): int { Sum(CallsById(u, s, k)) }

  function CallsById(u: Setup, s: Sys, k: Key): map<nat, int> {
    map id | id in s.calls && GuardedBy(u, k, s.calls[id]) :: |s.calls[id].outcomes|
  }

  // ----- The breaker's trace counts the operations -----

  ghost predicate Tallied(u: Setup, s: Sys, k: Key) {
    var es := Project(s.trace, k);
    && R.Admissions(SettingsOf(u, k), es) == |Where(s.calls, AdmittedBy(u, k))|
    && R.InFlight(SettingsOf(u, k), es) == |Where(s.calls, InFlightOf(u, k))|
  }

  lemma {:induction false} StampTallies(u: Setup, s: Sys, stamp: Option<Stamp>, k: Key)
    requires Alone(u, s, k)
    ensures var q, es, es' := SettingsOf(u, k), Project(s.trace, k), Project(Stamped(u, s, stamp).trace, k);
            var delta := if stamp.Some? && stamp.value.key == k
                         then R.Delta(q, BreakerOf(s, k), stamp.value.event) else 0;
            && R.Admissions(q, es') == R.Admissions(q, es) + (if delta == 1 then 1 else 0)
            && R.InFlight(q, es') == R.InFlight(q, es) + delta
  {
    if stamp.Some? {
      ProjectSnoc(s.trace, stamp.value, k);
      if stamp.value.key == k {
        R.ExtendTally(SettingsOf(u, k), Project(s.trace, k), stamp.value.event);
      }
    }
  }

  /** One action of one operation moves it among the counted groups as its stamp says. */
  lemma ActionTallies(u: Setup, s: Sys, c: Call, a: Action, k: Key)
    requires Sound(u, c) && Ready(c, a)
    ensures var c' := Advance(u, c, a, Allowed(u, s, c, a));
            var stamp := StampOf(u, c, a);
            var delta := if stamp.Some? && stamp.value.key == k
                         then R.Delta(SettingsOf(u, k), BreakerOf(s, k), stamp.value.event) else 0;
            && (if AdmittedBy(u, k)(c') then 1 else 0) - (if AdmittedBy(u, k)(c) then 1 else 0)
               == (if delta == 1 then 1 else 0)
            && (if InFlightOf(u, k)(c') then 1 else 0) - (if InFlightOf(u, k)(c) then 1 else 0) == delta
  {
  }

  lemma {:induction false} AllTallied(u: Setup, actions: seq<Action>, k: Key)
    ensures Tallied(u, Exec(u, actions), k)
  {
    if actions == [] {
      assert Where(INITIAL.calls, AdmittedBy(u, k)) == {} && Where(INITIAL.calls, InFlightOf(u, k)) == {};
    } else {
      var s, a := Exec(u, actions[..|actions| - 1]), actions[|actions| - 1];
      AllTallied(u, actions[..|actions| - 1], k);
      EveryBreakerStandsAlone(u, actions[..|actions| - 1], k);
      AllSound(u, actions[..|actions| - 1]);
      if Enabled(s, a) {
        TalliedStep(u, s, a, k);
      }
    }
  }

  lemma TalliedStep(u: Setup, s: Sys, a: Action, k: Key)
    requires Enabled(s, a) && Tallied(u, s, k) && Alone(u, s, k) && SoundSystem(u, s)
    ensures Tallied(u, Apply(u, s, a), k)
  {
    if a.ResetBreaker? {
      StampTallies(u, s, Some(Stamp(a.key, B.ResetAll(a.at))), k);
    } else if a.Begin? {
      var c' := Apply(u, s, a).calls[a.id];
      CountUpdate(s.calls, a.id, c', AdmittedBy(u, k));
      CountUpdate(s.calls, a.id, c', InFlightOf(u, k));
    } else {
      OperationTallies(u, s, a, k);
    }
  }

  lemma OperationTallies(u: Setup, s: Sys, a: Action, k: Key)
    requires Enabled(s, a) && !a.Begin? && !a.ResetBreaker?
    requires Tallied(u, s, k) && Alone(u, s, k) && SoundSystem(u, s)
    ensures Tallied(u, Apply(u, s, a), k)
  {
    var c, c' := s.calls[a.id], Apply(u, s, a).calls[a.id];
    var stamp := StampOf(u, c, a);
    assert Sound(u, c) && Apply(u, s, a).trace == Stamped(u, s, stamp).trace;
    assert Apply(u, s, a).calls == s.calls[a.id := c'] && c' == Advance(u, c, a, Allowed(u, s, c, a));
    CountUpdate(s.calls, a.id, c', AdmittedBy(u, k));
    CountUpdate(s.calls, a.id, c', InFlightOf(u, k));
    StampTallies(u, s, stamp, k);
    ActionTallies(u, s, c, a, k);
  }

  // ----- A dead backend -----

  /** What lies behind breaker k is dead: every call of the wrapped function made there fails, the
      breaker is never reset, at most `cap` operations are ever in flight, and no policy there forbids
      its one attempt. Operations behind other breakers are free to succeed. */
  ghost predicate DeadBackend(u: Setup, actions: seq<Action>, k: Key, cap: nat) {
    && (forall i :: 0 <= i < |actions| ==> Spares(actions[i], k))
    && (forall n: nat :: n <= |actions| ==> DeadAfter(u, actions, n, k, cap))
  }

  predicate Spares(a: Action, k: Key) { a.ResetBreaker? ==> a.key != k }

  ghost predicate DeadAfter(u: Setup, actions: seq<Action>, n: nat, k: Key, cap: nat)
    requires n <= |actions|
  {
    DeadNow(u, Exec(u, actions[..n]), k, cap)
  }

  ghost predicate DeadNow(u: Setup, s: Sys, k: Key, cap: nat) {
    |Where(s.calls, InFlightOf(u, k))| <= cap && NothingSucceeds(u, s, k)
  }

  ghost predicate NothingSucceeds(u: Setup, s: Sys, k: Key) {
    forall id :: id in s.calls && GuardedBy(u, k, s.calls[id]) ==> Unlucky(u, s.calls[id])
  }

  ghost predicate Unlucky(u: Setup, c: Call) {
    PolicyOf(u, c).maxAttempts >= 1 && forall i :: 0 <= i < |c.outcomes| ==> c.outcomes[i].Some?
  }

  lemma LeavesWithError(u: Setup, c: Call)
    requires Sound(u, c) && c.pc.Leaving? && Unlucky(u, c)
    ensures c.pc.err.Some?
  {
  }

  lemma DeadPrefix(u: Setup, actions: seq<Action>, k: Key, cap: nat, m: nat)
    requires DeadBackend(u, actions, k, cap) && m <= |actions|
    ensures DeadBackend(u, actions[..m], k, cap)
  {
    forall n: nat | n <= m
      ensures DeadAfter(u, actions[..m], n, k, cap)
    {
      assert actions[..m][..n] == actions[..n];
      assert DeadAfter(u, actions, n, k, cap);
    }
    forall i | 0 <= i < m
      ensures Spares(actions[..m][i], k)
    {
      assert Spares(actions[i], k);
    }
  }

  lemma DeadInTheEnd(u: Setup, actions: seq<Action>, k: Key, cap: nat)
    requires DeadBackend(u, actions, k, cap)
    ensures DeadNow(u, Exec(u, actions), k, cap)
  {
    assert DeadAfter(u, actions, |actions|, k, cap) && actions[..|actions|] == actions;
  }

  /** Behind breaker k the system is a storm in the sense of module RetryStorm. */
  lemma {:induction false} SystemStormIsStorm(u: Setup, actions: seq<Action>, k: Key, cap: nat)
    requires DeadBackend(u, actions, k, cap)
    ensures R.Storm(SettingsOf(u, k), Project(Exec(u, actions).trace, k), cap)
  {
    if actions != [] {
      var n := |actions| - 1;
      var s, a := Exec(u, actions[..n]), actions[n];
      DeadPrefix(u, actions, k, cap, n);
      SystemStormIsStorm(u, actions[..n], k, cap);
      assert Spares(a, k);
      if Enabled(s, a) {
        EveryBreakerStandsAlone(u, actions[..n], k);
        AllSound(u, actions[..n]);
        AllTallied(u, actions, k);
        DeadInTheEnd(u, actions[..n], k, cap);
        DeadInTheEnd(u, actions, k, cap);
        StormStep(u, s, a, k, cap);
      }
    }
  }

  /** The critical section run by an enabled action. */
  function StampBy(u: Setup, s: Sys, a: Action): Option<Stamp>
    requires Enabled(s, a) && !a.Begin?
  {
    if a.ResetBreaker? then Some(Stamp(a.key, B.ResetAll(a.at))) else StampOf(u, s.calls[a.id], a)
  }

  lemma StampIsHarmful(u: Setup, s: Sys, a: Action, stamp: Stamp, k: Key)
    requires Enabled(s, a) && SoundSystem(u, s) && Spares(a, k) && NothingSucceeds(u, s, k)
    requires !a.Begin? && StampBy(u, s, a) == Some(stamp) && stamp.key == k
    ensures stamp.event.Admit? || B.Fails(stamp.event)
    ensures s.clock <= stamp.event.at
  {
    if a.Leave? {
      assert Sound(u, s.calls[a.id]);
      LeavesWithError(u, s.calls[a.id]);
    }
  }

  lemma StormStep(u: Setup, s: Sys, a: Action, k: Key, cap: nat)
    requires Enabled(s, a) && Alone(u, s, k) && SoundSystem(u, s) && Spares(a, k)
    requires R.Storm(SettingsOf(u, k), Project(s.trace, k), cap) && NothingSucceeds(u, s, k)
    requires Tallied(u, Apply(u, s, a), k) && |Where(Apply(u, s, a).calls, InFlightOf(u, k))| <= cap
    ensures R.Storm(SettingsOf(u, k), Project(Apply(u, s, a).trace, k), cap)
  {
    if !a.Begin? {
      var stamp := StampBy(u, s, a);
      assert Apply(u, s, a).trace == Stamped(u, s, stamp).trace;
      if stamp.Some? {
        ProjectSnoc(s.trace, stamp.value, k);
        if stamp.value.key == k {
          StampIsHarmful(u, s, a, stamp.value, k);
          R.ExtendStorm(SettingsOf(u, k), Project(s.trace, k), stamp.value.event, cap);
        }
      }
    }
  }

  // ----- The bound -----

  lemma CallsOfOne(u: Setup, c: Call, k: Key, max: nat)
    requires Sound(u, c) && GuardedBy(u, k, c) && PolicyOf(u, c).maxAttempts <= max
    ensures |c.outcomes| <= max && (|c.outcomes| > 0 ==> AdmittedBy(u, k)(c))
  {
  }

  /** No policy of an operation behind breaker k allows more than `max` attempts. */
  ghost predicate AttemptsAtMost(u: Setup, s: Sys, k: Key, max: nat) {
    forall id :: id in s.calls && GuardedBy(u, k, s.calls[id]) ==> PolicyOf(u, s.calls[id]).maxAttempts <= max
  }

  lemma {:induction false} CallsPerAdmission(u: Setup, actions: seq<Action>, k: Key, max: nat)
    requires AttemptsAtMost(u, Exec(u, actions), k, max)
    ensures var s := Exec(u, actions);
            FunctionCalls(u, s, k) <= R.Admissions(SettingsOf(u, k), Project(s.trace, k)) * max
  {
    AllTallied(u, actions, k);
    AllSound(u, actions);
    var s := Exec(u, actions);
    var m := CallsById(u, s, k);
    forall id | id in m
      ensures m[id] <= max && (m[id] > 0 ==> id in Where(s.calls, AdmittedBy(u, k)))
    {
      assert Sound(u, s.calls[id]);
      CallsOfOne(u, s.calls[id], k, max);
    }
    SumBound(m, Where(s.calls, AdmittedBy(u, k)), max);
  }

  /** The retry-storm bound for the whole system: with a dead backend behind breaker k, at most `cap`
      operations in flight there and at most `max` attempts for each, whatever happens behind other
      breakers, the wrapped function has been called behind k at most
      (threshold + cap - 1 + cap * floor((now - t0) / timeout)) * max times by `now`, where t0 is the
      time at which the breaker first opened. */
  lemma {:induction false} RetryStormBound(u: Setup, actions: seq<Action>, k: Key, cap: nat, max: nat, o: nat, now: int)
    requires DeadBackend(u, actions, k, cap) && SettingsOf(u, k).timeout > 0
    requires AttemptsAtMost(u, Exec(u, actions), k, max)
    requires var es := Project(Exec(u, actions).trace, k);
             && R.Opens(SettingsOf(u, k), es, o) && (forall i: nat :: i < o ==> !R.Opens(SettingsOf(u, k), es, i))
             && es[|es| - 1].at <= now
    ensures var s, q := Exec(u, actions), SettingsOf(u, k);
            var t0 := Project(s.trace, k)[o].at;
            FunctionCalls(u, s, k) <= R.StormLimit(q, cap, t0, now) * max
  {
    var es, q := Project(Exec(u, actions).trace, k), SettingsOf(u, k);
    SystemStormIsStorm(u, actions, k, cap);
    R.StormBound(q, es, cap, o, now);
    CallsPerAdmission(u, actions, k, max);
    R.MulMonotone(R.Admissions(q, es), R.StormLimit(q, cap, es[o].at, now), max);
  }

  /** As long as the breaker has not opened, the burst alone bounds the calls. */
  lemma {:induction false} BurstBound(u: Setup, actions: seq<Action>, k: Key, cap: nat, max: nat)
    requires DeadBackend(u, actions, k, cap)
    requires AttemptsAtMost(u, Exec(u, actions), k, max)
    requires forall i: nat :: !R.Opens(SettingsOf(u, k), Project(Exec(u, actions).trace, k), i)
    ensures FunctionCalls(u, Exec(u, actions), k) <= R.Burst(SettingsOf(u, k), cap) * max
  {
    var es, q := Project(Exec(u, actions).trace, k), SettingsOf(u, k);
    SystemStormIsStorm(u, actions, k, cap);
    R.BeforeOpening(q, es, cap);
    CallsPerAdmission(u, actions, k, max);
    R.MulMonotone(R.Admissions(q, es), R.Burst(q, cap), max);
  }
}
