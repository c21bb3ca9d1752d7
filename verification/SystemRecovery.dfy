/** Recovery in the whole system: once the backend is healthy again, only the operations that were in
    flight at that moment can still hurt the breaker, so that it closes after a bounded number of
    successes and, if they are few, for good. */
module SystemRecovery {
  import opened Types
  import opened Counting
  import opened System
  import opened SystemInvariants
  import opened SystemStorm
  import B = Breaker
  import V = BreakerRecovery

  /** An operation all of whose calls succeed and that nobody cancels. */
  predicate Spotless(c: Call) {
    c.ending != Cancelled && forall i :: 0 <= i < |c.outcomes| ==> c.outcomes[i].None?
  }

  predicate WasAdmitted(u: Setup, s: Sys, k: Key, id: nat) { id in s.calls && AdmittedBy(u, k)(s.calls[id]) }

  /** All operations that breaker k has let through since s0 are spotless. */
  ghost predicate Healthy(u: Setup, s0: Sys, s: Sys, k: Key) {
    forall id :: id in s.calls && GuardedBy(u, k, s.calls[id]) && !WasAdmitted(u, s0, k, id) ==> Spotless(s.calls[id])
  }

  /** From action n on the backend behind breaker k is healthy. Operations that were admitted before may
      still fail, and so may anything behind other breakers. */
  ghost predicate HealthyFrom(u: Setup, actions: seq<Action>, n: nat, k: Key)
    requires n <= |actions|
  {
    forall m: nat :: n <= m <= |actions| ==> HealthyAt(u, actions, n, m, k)
  }

  ghost predicate HealthyAt(u: Setup, actions: seq<Action>, n: nat, m: nat, k: Key)
    requires n <= |actions| && m <= |actions|
  {
    Healthy(u, Exec(u, actions[..n]), Exec(u, actions[..m]), k)
  }

  /** Who was in flight behind breaker k in s0 and has reported in s. */
  function LateReporters(u: Setup, s0: Sys, s: Sys, k: Key): set<nat> {
    set id | id in Where(s0.calls, InFlightOf(u, k)) && id in s.calls && ReportedTo(u, k)(s.calls[id])
  }

  /** s is a later state of s0: operations do not disappear, and what is done stays done. */
  ghost predicate Since(s0: Sys, s: Sys) {
    forall id :: id in s0.calls ==> id in s.calls && (s0.calls[id].pc.Done? ==> s.calls[id] == s0.calls[id])
  }

  /** The trace of breaker k has grown since s0, by no more failures than there are late reporters. */
  ghost predicate Lagging(u: Setup, s0: Sys, s: Sys, k: Key) {
    var before, es := Project(s0.trace, k), Project(s.trace, k);
    before <= es && Since(s0, s) && V.LateFailures(es, |before|) <= |LateReporters(u, s0, s, k)|
  }

  lemma SpotlessLeaves(u: Setup, c: Call)
    requires Sound(u, c) && c.pc.Leaving? && Spotless(c)
    ensures c.pc.err.None?
  {
  }

  lemma LateFailuresSnoc(es: seq<B.Event>, e: B.Event, n: nat)
    requires n <= |es|
    ensures V.LateFailures(es + [e], n) == V.LateFailures(es, n) + if B.Fails(e) then 1 else 0
  {
    assert (es + [e])[..|es|] == es;
  }

  /** The action reports a failure to breaker k. */
  predicate FailsTo(u: Setup, s: Sys, a: Action, k: Key)
    requires Enabled(s, a)
  {
    a.Leave? && GuardedBy(u, k, s.calls[a.id]) && s.calls[a.id].pc.err.Some?
  }

  /** What one action adds to the failures in the trace of breaker k. */
  lemma FailureStamp(u: Setup, s: Sys, a: Action, k: Key, n: nat)
    requires Enabled(s, a) && n <= |Project(s.trace, k)|
    ensures var es, es' := Project(s.trace, k), Project(Apply(u, s, a).trace, k);
            es <= es' && V.LateFailures(es', n) == V.LateFailures(es, n) + if FailsTo(u, s, a, k) then 1 else 0
  {
    if !a.Begin? {
      var stamp := StampBy(u, s, a);
      assert Apply(u, s, a).trace == Stamped(u, s, stamp).trace;
      if stamp.Some? {
        ProjectSnoc(s.trace, stamp.value, k);
        LateFailuresSnoc(Project(s.trace, k), stamp.value.event, n);
      }
    }
  }

  lemma StillSince(u: Setup, s0: Sys, s: Sys, a: Action)
    requires Since(s0, s) && Enabled(s, a)
    ensures Since(s0, Apply(u, s, a)) && Since(s, Apply(u, s, a))
  {
  }

  lemma ReportersGrow(u: Setup, s0: Sys, s: Sys, s': Sys, k: Key)
    requires Since(s, s')
    ensures LateReporters(u, s0, s, k) <= LateReporters(u, s0, s', k)
  {
  }

  lemma SubsetIsSmaller(a: set<nat>, b: set<nat>)
    requires a <= b
    ensures |a| <= |b|
  {
    assert b == a + (b - a);
  }

  /** A late failure is the report of somebody who was in flight and had not reported. */
  lemma FailureIsLate(u: Setup, s0: Sys, s: Sys, a: Action, k: Key)
    requires Enabled(s, a) && FailsTo(u, s, a, k) && Since(s0, s) && SoundSystem(u, s) && Healthy(u, s0, s, k)
    ensures a.id !in LateReporters(u, s0, s, k) && a.id in LateReporters(u, s0, Apply(u, s, a), k)
  {
    var c := s.calls[a.id];
    assert Sound(u, c);
    if Spotless(c) {
      SpotlessLeaves(u, c);
    }
    assert WasAdmitted(u, s0, k, a.id);
  }

  lemma StillLagging(u: Setup, s0: Sys, s: Sys, a: Action, k: Key)
    requires Enabled(s, a) && Lagging(u, s0, s, k) && SoundSystem(u, s) && Healthy(u, s0, s, k)
    ensures Lagging(u, s0, Apply(u, s, a), k)
  {
    FailureStamp(u, s, a, k, |Project(s0.trace, k)|);
    StillSince(u, s0, s, a);
    ReportersGrow(u, s0, s, Apply(u, s, a), k);
    if FailsTo(u, s, a, k) {
      FailureIsLate(u, s0, s, a, k);
      OneMember(LateReporters(u, s0, s, k), LateReporters(u, s0, Apply(u, s, a), k), a.id);
    } else {
      SubsetIsSmaller(LateReporters(u, s0, s, k), LateReporters(u, s0, Apply(u, s, a), k));
    }
  }

  lemma OneMember(a: set<nat>, b: set<nat>, id: nat)
    requires a <= b && id !in a && id in b
    ensures |a| + 1 <= |b|
  {
    SubsetIsSmaller(a + {id}, b);
  }

  lemma {:induction false} HealthyPrefix(u: Setup, actions: seq<Action>, n: nat, k: Key, last: nat)
    requires n <= last <= |actions| && HealthyFrom(u, actions, n, k)
    ensures actions[..last][..n] == actions[..n] && HealthyFrom(u, actions[..last], n, k)
  {
    var pre := actions[..last];
    assert pre[..n] == actions[..n];
    forall m: nat | n <= m <= last
      ensures HealthyAt(u, pre, n, m, k)
    {
      assert HealthyAt(u, actions, n, m, k) && pre[..m] == actions[..m];
    }
  }

  lemma {:induction false} AlwaysLagging(u: Setup, actions: seq<Action>, n: nat, k: Key)
    requires n <= |actions| && HealthyFrom(u, actions, n, k)
    ensures Lagging(u, Exec(u, actions[..n]), Exec(u, actions), k)
    decreases |actions|
  {
    if n == |actions| {
      assert actions[..n] == actions;
      StartsLagging(u, Exec(u, actions), k);
    } else {
      var last := |actions| - 1;
      var pre := actions[..last];
      HealthyPrefix(u, actions, n, k, last);
      AlwaysLagging(u, pre, n, k);
      if Enabled(Exec(u, pre), actions[last]) {
        AllSound(u, pre);
        assert HealthyAt(u, actions, n, last, k);
        StillLagging(u, Exec(u, actions[..n]), Exec(u, pre), actions[last], k);
      }
    }
  }

  lemma StartsLagging(u: Setup, s: Sys, k: Key)
    ensures Lagging(u, s, s, k)
  {
  }

  /** From the moment the backend behind breaker k is healthy, no more failures are reported to it than
      there were operations in flight; hence it does not open more often either. */
  lemma {:induction false} FailuresWereInFlight(u: Setup, actions: seq<Action>, n: nat, k: Key)
    requires n <= |actions| && HealthyFrom(u, actions, n, k)
    ensures var s0, s := Exec(u, actions[..n]), Exec(u, actions);
            var before, es := Project(s0.trace, k), Project(s.trace, k);
            && before <= es
            && V.Openings(SettingsOf(u, k), es, |before|) <= V.LateFailures(es, |before|)
            && V.LateFailures(es, |before|) <= |Where(s0.calls, InFlightOf(u, k))|
  {
    var s0, s := Exec(u, actions[..n]), Exec(u, actions);
    AlwaysLagging(u, actions, n, k);
    SubsetIsSmaller(LateReporters(u, s0, s, k), Where(s0.calls, InFlightOf(u, k)));
    V.OpeningsTakeFailures(SettingsOf(u, k), Project(s.trace, k), |Project(s0.trace, k)|);
  }

  /** Recovery: if the backend behind breaker k, which is not closed, is healthy from action n on, with
      at most `cap` operations in flight at that moment, the breaker has closed at some moment by the
      time it has recorded more than (cap + 1) * (max(1, threshold) - 1) successes half-open; and if the
      operations in flight are fewer than failures open a closed breaker, it is closed from then on. */
  lemma {:induction false} Recovers(u: Setup, actions: seq<Action>, n: nat, k: Key, cap: nat)
    requires n <= |actions| && HealthyFrom(u, actions, n, k)
    requires BreakerOf(Exec(u, actions[..n]), k).state != B.Closed
    requires |Where(Exec(u, actions[..n]).calls, InFlightOf(u, k))| <= cap
    requires var q, before := SettingsOf(u, k), Project(Exec(u, actions[..n]).trace, k);
             V.ProbeSuccesses(q, Project(Exec(u, actions).trace, k), |before|) > (cap + 1) * V.Wasted(q)
    ensures var q, before := SettingsOf(u, k), Project(Exec(u, actions[..n]).trace, k);
            && |before| <= |Project(Exec(u, actions).trace, k)|
            && !V.NeverClosed(q, Project(Exec(u, actions).trace, k), |before|)
            && (cap < Max(1, q.failureThreshold) ==> BreakerOf(Exec(u, actions), k).state == B.Closed)
  {
    var q, before, es := SettingsOf(u, k), Project(Exec(u, actions[..n]).trace, k), Project(Exec(u, actions).trace, k);
    FailuresWereInFlight(u, actions, n, k);
    EveryBreakerStandsAlone(u, actions[..n], k);
    EveryBreakerStandsAlone(u, actions, k);
    assert es[..|before|] == before;
    V.RecoversWithin(q, es, |before|, cap);
  }
}
