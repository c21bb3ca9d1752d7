/** How a breaker recovers while late results still come in: the results of callers admitted before the
    backend was healthy again can extend and reopen the open window only so often, and they can delay
    the closing by a bounded number of successes only. */
module BreakerRecovery {
  import opened Types
  import opened Counting
  import opened Breaker
  import opened BreakerHistory
  import opened RetryStorm

  /** The failures recorded from event n on. */
  function LateFailures(es: seq<Event>, n: nat): nat {
    if |es| <= n then 0
    else
      var last := |es| - 1;
      LateFailures(es[..last], n) + if Fails(es[last]) then 1 else 0
  }

  /** The successes recorded from event n on by a half-open breaker. */
  function ProbeSuccesses(s: Settings, es: seq<Event>, n: nat): nat {
    if |es| <= n then 0
    else
      var last := |es| - 1;
      ProbeSuccesses(s, es[..last], n) + if Succeeds(es[last]) && At(s, es, last).state == HalfOpen then 1 else 0
  }

  /** How often the breaker opens from event n on. */
  function Openings(s: Settings, es: seq<Event>, n: nat): nat {
    if |es| <= n then 0
    else
      var last := |es| - 1;
      Openings(s, es[..last], n)
      + if At(s, es, last).state != Open && At(s, es, last + 1).state == Open then 1 else 0
  }

  ghost predicate NeverClosed(s: Settings, es: seq<Event>, n: nat) {
    forall i: nat :: n <= i <= |es| ==> At(s, es, i).state != Closed
  }

  /** The successes that a failure can make worthless: one fewer than close the breaker. */
  function Wasted(s: Settings): nat { Max(1, s.successThreshold) - 1 }

  lemma AtPrefix(s: Settings, es: seq<Event>, n: nat, i: nat)
    requires i <= n <= |es|
    ensures At(s, es[..n], i) == At(s, es, i)
  {
    assert es[..n][..i] == es[..i];
  }

  lemma LastIs(s: Settings, es: seq<Event>)
    requires es != []
    ensures At(s, es, |es|) == Run(s, FRESH, es) == Step(s, Run(s, FRESH, es[..|es| - 1]), es[|es| - 1])
    ensures At(s, es, |es| - 1) == Run(s, FRESH, es[..|es| - 1])
  {
    assert es[..|es|] == es;
  }

  /** Every opening takes a failure, and nothing else opens or extends the window. */
  lemma {:induction false} OpeningsTakeFailures(s: Settings, es: seq<Event>, n: nat)
    ensures Openings(s, es, n) <= LateFailures(es, n)
  {
    if |es| > n {
      OpeningsTakeFailures(s, es[..|es| - 1], n);
      AnnouncesItsChange(s, es, |es| - 1);
    }
  }

  /** What holds of a breaker that has not closed since, after so many successful probes and failures. */
  predicate Delayed(s: Settings, b: Breaker, probes: int, failures: int) {
    match b.state
    case Closed => false
    case Open => probes <= failures * Wasted(s)
    case HalfOpen => probes <= failures * Wasted(s) + if b.successes < s.successThreshold then b.successes else 0
  }

  lemma DelayedStep(s: Settings, b: Breaker, e: Event, probes: int, failures: int)
    requires Delayed(s, b, probes, failures) && b.successes >= 0 && Step(s, b, e).state != Closed
    ensures Delayed(s, Step(s, b, e), probes + (if Succeeds(e) && b.state == HalfOpen then 1 else 0),
                    failures + if Fails(e) then 1 else 0)
  {
    OneMore(failures, Wasted(s));
  }

  lemma {:induction false} NeverClosedIsDelayed(s: Settings, es: seq<Event>, n: nat)
    requires n <= |es| && NeverClosed(s, es, n)
    ensures Delayed(s, Run(s, FRESH, es), ProbeSuccesses(s, es, n), LateFailures(es, n))
  {
    CountersEqualHistory(s, es);
    if |es| == n {
      assert es[..n] == es && At(s, es, n).state != Closed;
    } else {
      var pre := es[..|es| - 1];
      forall i: nat | n <= i <= |pre|
        ensures At(s, pre, i).state != Closed
      {
        AtPrefix(s, es, |pre|, i);
        assert At(s, es, i).state != Closed;
      }
      NeverClosedIsDelayed(s, pre, n);
      CountersEqualHistory(s, pre);
      LastIs(s, es);
      assert At(s, es, |es|).state != Closed;
      DelayedStep(s, Run(s, FRESH, pre), es[|es| - 1], ProbeSuccesses(s, pre, n), LateFailures(pre, n));
    }
  }

  lemma DelayedBound(s: Settings, b: Breaker, probes: int, failures: int)
    requires Delayed(s, b, probes, failures)
    ensures probes <= (failures + 1) * Wasted(s)
  {
    OneMore(failures, Wasted(s));
  }

  /** As long as a breaker has not closed again, late failures included, no more than
      (failures + 1) * (max(1, threshold) - 1) successes have been recorded half-open. */
  lemma {:induction false} ProbesBeforeClosing(s: Settings, es: seq<Event>, n: nat)
    requires n <= |es| && NeverClosed(s, es, n)
    ensures ProbeSuccesses(s, es, n) <= (LateFailures(es, n) + 1) * Wasted(s)
  {
    NeverClosedIsDelayed(s, es, n);
    DelayedBound(s, Run(s, FRESH, es), ProbeSuccesses(s, es, n), LateFailures(es, n));
  }

  lemma {:induction false} FewerLater(es: seq<Event>, n: nat, i: nat)
    requires n <= i
    ensures LateFailures(es, i) <= LateFailures(es, n)
  {
    if |es| > n {
      FewerLater(es[..|es| - 1], n, i);
    }
  }

  /** A closed breaker stays closed if the failures still to come do not complete its threshold. */
  lemma {:induction false} StaysClosed(s: Settings, es: seq<Event>, i: nat)
    requires i <= |es| && At(s, es, i).state == Closed && At(s, es, i).errors >= 0
    requires At(s, es, i).errors + LateFailures(es, i) < Max(1, s.failureThreshold)
    ensures Run(s, FRESH, es).state == Closed
    ensures 0 <= Run(s, FRESH, es).errors <= At(s, es, i).errors + LateFailures(es, i)
  {
    if |es| == i {
      assert es[..i] == es;
    } else {
      AtPrefix(s, es, |es| - 1, i);
      StaysClosed(s, es[..|es| - 1], i);
      LastIs(s, es);
    }
  }

  /** The first moment from n on at which the breaker is closed. */
  lemma FirstClosed(s: Settings, es: seq<Event>, n: nat) returns (i: nat)
    requires n <= |es| && At(s, es, n).state != Closed && !NeverClosed(s, es, n)
    ensures n < i <= |es| && At(s, es, i - 1).state != Closed && At(s, es, i).state == Closed
  {
    i := n;
    while At(s, es, i).state != Closed
      invariant n <= i <= |es|
      invariant forall j: nat :: n <= j < i ==> At(s, es, j).state != Closed
      decreases |es| - i
    {
      if i == |es| {
        assert false;
      }
      i := i + 1;
    }
  }

  /** Recovery with late results: if fewer failures are recorded from event n on than open a closed
      breaker, then the breaker, not closed at n, is closed for good once more than
      (failures + 1) * (max(1, threshold) - 1) successes have been recorded half-open. */
  lemma {:induction false} RecoversForGood(s: Settings, es: seq<Event>, n: nat)
    requires n <= |es| && At(s, es, n).state != Closed
    requires LateFailures(es, n) < Max(1, s.failureThreshold)
    requires ProbeSuccesses(s, es, n) > (LateFailures(es, n) + 1) * Wasted(s)
    ensures Run(s, FRESH, es).state == Closed
  {
    if NeverClosed(s, es, n) {
      ProbesBeforeClosing(s, es, n);
      assert false;
    }
    var i := FirstClosed(s, es, n);
    AtStep(s, es, i - 1);
    FewerLater(es, n, i);
    StaysClosed(s, es, i);
  }

  /** The same with a bound on the late failures: past (cap + 1) * (max(1, threshold) - 1) half-open
      successes the breaker has closed, and it is closed if `cap` failures do not open a closed one. */
  lemma {:induction false} RecoversWithin(s: Settings, es: seq<Event>, n: nat, cap: nat)
    requires n <= |es| && At(s, es, n).state != Closed && LateFailures(es, n) <= cap
    requires ProbeSuccesses(s, es, n) > (cap + 1) * Wasted(s)
    ensures !NeverClosed(s, es, n)
    ensures cap < Max(1, s.failureThreshold) ==> Run(s, FRESH, es).state == Closed
  {
    MulMonotone(LateFailures(es, n) + 1, cap + 1, Wasted(s));
    if NeverClosed(s, es, n) {
      ProbesBeforeClosing(s, es, n);
      assert false;
    }
    if cap < Max(1, s.failureThreshold) {
      RecoversForGood(s, es, n);
    }
  }

  // ----- The bound is reached -----

  /** A run with more admissions than reports at any time, which has not closed since event n. */
  ghost predicate Trying(s: Settings, es: seq<Event>, n: nat, now: int) {
    && Timed(es) && (es != [] ==> es[|es| - 1].at <= now)
    && (forall m: nat :: m <= |es| ==> InFlightAfter(s, es, m) >= 0)
    && (n <= |es| ==> NeverClosed(s, es, n))
  }

  /** One more event of such a run. */
  lemma {:induction false} Try(s: Settings, es: seq<Event>, e: Event, n: nat, now: int) returns (all: seq<Event>)
    requires Trying(s, es, n, now) && e.at == now && !e.ResetAll?
    requires InFlight(s, es) + Delta(s, Run(s, FRESH, es), e) >= 0
    requires n <= |es| + 1 ==> Step(s, Run(s, FRESH, es), e).state != Closed
    ensures all == es + [e] && Trying(s, all, n, now)
    ensures var b := Run(s, FRESH, es);
            && Run(s, FRESH, all) == Step(s, b, e) && InFlight(s, all) == InFlight(s, es) + Delta(s, b, e)
            && ProbeSuccesses(s, all, n)
               == ProbeSuccesses(s, es, n) + (if n <= |es| && Succeeds(e) && b.state == HalfOpen then 1 else 0)
            && LateFailures(all, n) == LateFailures(es, n) + if n <= |es| && Fails(e) then 1 else 0
  {
    all := es + [e];
    assert all[..|es|] == es && all[..|all|] == all;
    TimedSnoc(es, e);
    ExtendTally(s, es, e);
    forall m: nat | m <= |all|
      ensures InFlightAfter(s, all, m) >= 0
    {
      if m <= |es| {
        assert all[..m] == es[..m] && InFlightAfter(s, es, m) >= 0;
      }
    }
    forall i: nat | n <= i <= |all|
      ensures At(s, all, i).state != Closed
    {
      if i <= |es| {
        assert all[..i] == es[..i] && At(s, es, i).state != Closed;
      }
    }
  }

  /** `waiting` callers are in flight when the breaker opens, and the others have made it open. */
  lemma {:induction false} OpensWith(s: Settings, waiting: nat) returns (es: seq<Event>)
    ensures Trying(s, es, |es|, 0) && InFlight(s, es) == waiting
    ensures Run(s, FRESH, es) == Run(s, FRESH, es).(state := Open, successes := 0, lastFailure := 0)
  {
    es := [];
    var needed, i := Max(1, s.failureThreshold), 0;
    var n: nat := 2 * needed + waiting;
    while i < needed + waiting
      invariant 0 <= i <= needed + waiting && |es| == i && InFlight(s, es) == i
      invariant Trying(s, es, n, 0) && Run(s, FRESH, es) == FRESH
    {
      es := Try(s, es, Admit(0), n, 0);
      i := i + 1;
    }
    i := 0;
    while i < needed
      invariant 0 <= i <= needed && |es| == needed + waiting + i && InFlight(s, es) == needed + waiting - i
      invariant Trying(s, es, n, 0)
      invariant var b := Run(s, FRESH, es);
                && b.state == (if i < needed then Closed else Open) && b.errors == i && b.successes == 0
                && b.lastFailure == 0
    {
      es := Try(s, es, Record(false, 0), n, 0);
      i := i + 1;
    }
  }

  /** A caller is admitted half-open and succeeds, without closing the breaker. */
  lemma {:induction false} OneProbe(s: Settings, es: seq<Event>, n: nat, now: int) returns (all: seq<Event>)
    requires n <= |es| && Trying(s, es, n, now) && InFlight(s, es) >= 0
    requires var b := Run(s, FRESH, es); b.state == HalfOpen && b.successes + 1 < s.successThreshold
    ensures es <= all && Trying(s, all, n, now) && InFlight(s, all) == InFlight(s, es)
    ensures Run(s, FRESH, all).state == HalfOpen
    ensures Run(s, FRESH, all).successes == Run(s, FRESH, es).successes + 1
    ensures LateFailures(all, n) == LateFailures(es, n) && ProbeSuccesses(s, all, n) == ProbeSuccesses(s, es, n) + 1
  {
    var admitted := Try(s, es, Admit(now), n, now);
    all := Try(s, admitted, Record(true, now), n, now);
  }

  /** A half-open period that comes within one success of closing. */
  lemma {:induction false} AlmostCloses(s: Settings, es: seq<Event>, n: nat, now: int) returns (all: seq<Event>)
    requires n <= |es| && Trying(s, es, n, now) && InFlight(s, es) >= 0
    requires var b := Run(s, FRESH, es); b.state == Open && b.successes == 0 && now - b.lastFailure >= s.timeout
    ensures es <= all && Trying(s, all, n, now) && InFlight(s, all) == InFlight(s, es) + 1
    ensures Run(s, FRESH, all).state == HalfOpen && LateFailures(all, n) == LateFailures(es, n)
    ensures ProbeSuccesses(s, all, n) == ProbeSuccesses(s, es, n) + Wasted(s)
  {
    all := Try(s, es, Admit(now), n, now);
    var i := 0;
    while i < Wasted(s)
      invariant 0 <= i <= Wasted(s) && es <= all && Trying(s, all, n, now) && InFlight(s, all) == InFlight(s, es) + 1
      invariant Run(s, FRESH, all).state == HalfOpen && Run(s, FRESH, all).successes == i
      invariant LateFailures(all, n) == LateFailures(es, n)
      invariant ProbeSuccesses(s, all, n) == ProbeSuccesses(s, es, n) + i
    {
      all := OneProbe(s, all, n, now);
      i := i + 1;
    }
  }

  lemma Longer(s: Settings, es: seq<Event>, n: nat, now: int, later: int)
    requires Trying(s, es, n, now) && now <= later
    ensures Trying(s, es, n, later)
  {
  }

  /** A late failure of such a period, and the next period. */
  lemma {:induction false} FailsLate(s: Settings, es: seq<Event>, n: nat, now: int) returns (all: seq<Event>)
    requires n <= |es| && Trying(s, es, n, now) && InFlight(s, es) >= 1 && s.timeout >= 0
    requires Run(s, FRESH, es).state == HalfOpen
    ensures es <= all && Trying(s, all, n, now + s.timeout) && InFlight(s, all) == InFlight(s, es)
    ensures Run(s, FRESH, all).state == HalfOpen && LateFailures(all, n) == LateFailures(es, n) + 1
    ensures ProbeSuccesses(s, all, n) == ProbeSuccesses(s, es, n) + Wasted(s)
  {
    var failed := Try(s, es, Record(false, now), n, now);
    Longer(s, failed, n, now, now + s.timeout);
    all := AlmostCloses(s, failed, n, now + s.timeout);
  }

  /** All `waiting` callers fail late, one in each half-open period. */
  lemma {:induction false} AllFailLate(s: Settings, es: seq<Event>, n: nat, now: int, waiting: nat)
    returns (all: seq<Event>, then_: int)
    requires n <= |es| && Trying(s, es, n, now) && InFlight(s, es) >= 1 && s.timeout >= 0
    requires Run(s, FRESH, es).state == HalfOpen
    ensures es <= all && Trying(s, all, n, then_) && LateFailures(all, n) == LateFailures(es, n) + waiting
    ensures ProbeSuccesses(s, all, n) == ProbeSuccesses(s, es, n) + waiting * Wasted(s)
    decreases waiting
  {
    if waiting == 0 {
      all, then_ := es, now;
    } else {
      var one := FailsLate(s, es, n, now);
      all, then_ := AllFailLate(s, one, n, now + s.timeout, waiting - 1);
      OneMore(waiting - 1, Wasted(s));
    }
  }

  /** No smaller bound holds: for every number of callers in flight when the breaker opens there is a
      run in which all of them fail late and in which so many successes do not close the breaker. */
  lemma {:induction false} ProbesBoundIsReached(s: Settings, waiting: nat) returns (es: seq<Event>, n: nat)
    requires s.timeout >= 0
    ensures n <= |es| && Timed(es) && NeverClosed(s, es, n) && At(s, es, n).state == Open
    ensures forall m: nat :: m <= |es| ==> InFlightAfter(s, es, m) >= 0
    ensures InFlightAfter(s, es, n) == LateFailures(es, n) == waiting
    ensures ProbeSuccesses(s, es, n) == (waiting + 1) * Wasted(s)
  {
    var open := OpensWith(s, waiting);
    n := |open|;
    Longer(s, open, n, 0, s.timeout);
    var first := AlmostCloses(s, open, n, s.timeout);
    var end;
    es, end := AllFailLate(s, first, n, s.timeout, waiting);
    OneMore(waiting, Wasted(s));
    assert es[..n] == open;
    NothingLate(s, open);
  }

  lemma NothingLate(s: Settings, es: seq<Event>)
    ensures LateFailures(es, |es|) == 0 && ProbeSuccesses(s, es, |es|) == 0
  {
  }
}
