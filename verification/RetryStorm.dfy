/** How much load a dead backend can receive through one breaker: the bound for every run of at most
    `cap` overlapping callers, and runs that reach it. */
module RetryStorm {
  import opened Types
  import opened Breaker

  /** Callers let through by the breaker. */
  function Admissions(s: Settings, es: seq<Event>): nat {
    if es == [] then 0
    else Admissions(s, es[..|es| - 1]) + if Admitted(s, es, |es| - 1) then 1 else 0
  }

  /** Callers that have reported their result. */
  function Records(es: seq<Event>): nat {
    if es == [] then 0
    else Records(es[..|es| - 1]) + if es[|es| - 1].Record? then 1 else 0
  }

  /** Times the breaker went from open to half-open. */
  function Flaps(s: Settings, es: seq<Event>): nat {
    if es == [] then 0
    else
      var n := |es| - 1;
      Flaps(s, es[..n]) + if At(s, es, n).state == Open && At(s, es, n + 1).state == HalfOpen then 1 else 0
  }

  function InFlight(s: Settings, es: seq<Event>): int { Admissions(s, es) - Records(es) }

  function InFlightAfter(s: Settings, es: seq<Event>, n: nat): int
    requires n <= |es|
  {
    InFlight(s, es[..n])
  }

  /** A run against a backend that always fails: every result is a failure, only admitted callers
      report, at most `cap` callers overlap, nobody calls Reset, and time does not run backwards. */
  ghost predicate Storm(s: Settings, es: seq<Event>, cap: nat) {
    && Timed(es)
    && (forall i :: 0 <= i < |es| ==> !es[i].ResetAll? && (es[i].Record? ==> Fails(es[i])))
    && (forall n: nat :: n <= |es| ==> 0 <= InFlightAfter(s, es, n) <= cap)
  }

  /** Event `o` opens the closed breaker. */
  predicate Opens(s: Settings, es: seq<Event>, o: nat) {
    o < |es| && At(s, es, o).state == Closed && At(s, es, o + 1).state == Open
  }

  /** The admissions that do not depend on how long the storm lasts. */
  function Burst(s: Settings, cap: nat): int { Max(1, s.failureThreshold) + cap - 1 }

  /** threshold + cap - 1 + cap * floor((now - t0) / timeout) */
  function StormLimit(s: Settings, cap: nat, t0: int, now: int): int
    requires s.timeout > 0
  {
    Burst(s, cap) + cap * ((now - t0) / s.timeout)
  }

  lemma PrefixOfStorm(s: Settings, es: seq<Event>, cap: nat, n: nat)
    requires Storm(s, es, cap) && n <= |es|
    ensures Storm(s, es[..n], cap)
  {
    forall k: nat | k <= n
      ensures 0 <= InFlightAfter(s, es[..n], k) <= cap
    {
      assert es[..n][..k] == es[..k];
      assert 0 <= InFlightAfter(s, es, k) <= cap;
    }
  }

  lemma WithinCap(s: Settings, es: seq<Event>, cap: nat)
    requires Storm(s, es, cap)
    ensures 0 <= InFlight(s, es) <= cap
  {
    assert es[..|es|] == es;
    assert 0 <= InFlightAfter(s, es, |es|) <= cap;
  }

  /** Unfolds one event of a run. */
  lemma Last(s: Settings, es: seq<Event>)
    requires es != []
    ensures var n := |es| - 1;
            var pre, before, after := es[..n], Run(s, FRESH, es[..n]), Run(s, FRESH, es);
            && after == Step(s, before, es[n])
            && Admissions(s, es)
               == Admissions(s, pre) + (if es[n].Admit? && AllowCall(s, before, es[n].at).1 then 1 else 0)
            && Records(es) == Records(pre) + (if es[n].Record? then 1 else 0)
            && Flaps(s, es) == Flaps(s, pre) + (if before.state == Open && after.state == HalfOpen then 1 else 0)
  {
    assert es[..|es|] == es;
  }

  lemma OpensInPrefix(s: Settings, es: seq<Event>, n: nat)
    requires n <= |es|
    ensures forall i: nat :: Opens(s, es[..n], i) <==> i < n && Opens(s, es, i)
  {
    forall i: nat | i < n
      ensures Opens(s, es[..n], i) <==> Opens(s, es, i)
    {
      assert es[..n][..i] == es[..i] && es[..n][..i + 1] == es[..i + 1];
    }
  }

  /** Until the breaker first opens, every report is one error. */
  lemma {:induction false} BeforeOpening(s: Settings, es: seq<Event>, cap: nat)
    requires Storm(s, es, cap)
    requires forall i: nat :: !Opens(s, es, i)
    ensures var b := Run(s, FRESH, es);
            && b.state == Closed && b.errors == Records(es) < Max(1, s.failureThreshold)
            && Admissions(s, es) <= Burst(s, cap)
  {
    WithinCap(s, es, cap);
    assert es[..|es|] == es;
    if es != [] {
      var n := |es| - 1;
      PrefixOfStorm(s, es, cap, n);
      OpensInPrefix(s, es, n);
      BeforeOpening(s, es[..n], cap);
      Last(s, es);
      assert !Opens(s, es, n);
    }
  }

  /** The admissions earned by `flaps` half-open periods, and the earliest time for the last of them. */
  function Quota(s: Settings, cap: nat, flaps: nat): int {
    if flaps == 0 then Burst(s, cap) else Quota(s, cap, flaps - 1) + cap
  }

  function Earliest(s: Settings, t0: int, flaps: nat): int {
    if flaps == 0 then t0 else Earliest(s, t0, flaps - 1) + s.timeout
  }

  /** What holds after the opening at `t0`, with `flaps` half-open periods so far. */
  predicate Contained(s: Settings, b: Breaker, cap: nat, t0: int, now: int, flaps: nat, admitted: nat, inFlight: int) {
    match b.state
    case Closed => false
    case Open => admitted <= Quota(s, cap, flaps) && Earliest(s, t0, flaps) <= b.lastFailure <= now
    case HalfOpen => flaps > 0 && admitted <= Quota(s, cap, flaps) - cap + inFlight && Earliest(s, t0, flaps) <= now
  }

  lemma {:induction false} ContainedStep(s: Settings, b: Breaker, e: Event, cap: nat, t0: int, now: int,
                                         flaps: nat, admitted: nat, inFlight: int)
    requires Contained(s, b, cap, t0, now, flaps, admitted, inFlight)
    requires !e.ResetAll? && (e.Record? ==> Fails(e)) && now <= e.at && 0 <= inFlight <= cap
    ensures var b' := Step(s, b, e);
            var enters := e.Admit? && AllowCall(s, b, e.at).1;
            var inFlight' := inFlight + (if enters then 1 else 0) - (if e.Record? then 1 else 0);
            var flaps' := flaps + if b.state == Open && b'.state == HalfOpen then 1 else 0;
            0 <= inFlight' <= cap ==>
              Contained(s, b', cap, t0, e.at, flaps', if enters then admitted + 1 else admitted, inFlight')
  {
  }

  lemma {:induction false} AtOpening(s: Settings, es: seq<Event>, cap: nat)
    requires es != [] && Storm(s, es, cap) && Opens(s, es, |es| - 1)
    requires forall i: nat :: i < |es| - 1 ==> !Opens(s, es, i)
    ensures var t0 := es[|es| - 1].at;
            Contained(s, Run(s, FRESH, es), cap, t0, t0, Flaps(s, es), Admissions(s, es), InFlight(s, es))
  {
    var n := |es| - 1;
    assert es[..n + 1] == es;
    PrefixOfStorm(s, es, cap, n);
    OpensInPrefix(s, es, n);
    BeforeOpening(s, es[..n], cap);
    NoFlapsBeforeOpening(s, es[..n], cap);
    WithinCap(s, es[..n], cap);
    Last(s, es);
  }

  lemma OneEventLater(s: Settings, es: seq<Event>, cap: nat, t0: int)
    requires |es| > 1 && Storm(s, es, cap)
    requires var pre := es[..|es| - 1];
             Contained(s, Run(s, FRESH, pre), cap, t0, pre[|pre| - 1].at,
                       Flaps(s, pre), Admissions(s, pre), InFlight(s, pre))
    ensures Contained(s, Run(s, FRESH, es), cap, t0, es[|es| - 1].at, Flaps(s, es), Admissions(s, es), InFlight(s, es))
  {
    var n := |es| - 1;
    PrefixOfStorm(s, es, cap, n);
    WithinCap(s, es[..n], cap);
    WithinCap(s, es, cap);
    Last(s, es);
    ContainedStep(s, Run(s, FRESH, es[..n]), es[n], cap, t0, es[n - 1].at,
                  Flaps(s, es[..n]), Admissions(s, es[..n]), InFlight(s, es[..n]));
  }

  lemma {:induction false} AfterOpening(s: Settings, es: seq<Event>, cap: nat, o: nat)
    requires Storm(s, es, cap) && Opens(s, es, o)
    requires forall i: nat :: i < o ==> !Opens(s, es, i)
    ensures Contained(s, Run(s, FRESH, es), cap, es[o].at, es[|es| - 1].at,
                      Flaps(s, es), Admissions(s, es), InFlight(s, es))
  {
    var n := |es| - 1;
    if o == n {
      AtOpening(s, es, cap);
    } else {
      PrefixOfStorm(s, es, cap, n);
      OpensInPrefix(s, es, n);
      AfterOpening(s, es[..n], cap, o);
      OneEventLater(s, es, cap, es[o].at);
    }
  }

  lemma {:induction false} NoFlapsBeforeOpening(s: Settings, es: seq<Event>, cap: nat)
    requires Storm(s, es, cap)
    requires forall i: nat :: !Opens(s, es, i)
    ensures Flaps(s, es) == 0
  {
    if es != [] {
      var n := |es| - 1;
      PrefixOfStorm(s, es, cap, n);
      OpensInPrefix(s, es, n);
      NoFlapsBeforeOpening(s, es[..n], cap);
      BeforeOpening(s, es[..n], cap);
    }
  }

  lemma MulMonotone(a: int, b: int, factor: nat)
    requires a <= b
    ensures a * factor <= b * factor
  {
  }

  lemma {:induction false} PeriodsElapsed(flaps: nat, timeout: int, elapsed: int)
    requires timeout > 0 && flaps * timeout <= elapsed
    ensures flaps <= elapsed / timeout
  {
    var periods := elapsed / timeout;
    assert elapsed < (periods + 1) * timeout;
    if periods + 1 <= flaps {
      MulMonotone(periods + 1, flaps, timeout);
    }
  }

  lemma {:induction false} ClosedForms(s: Settings, cap: nat, t0: int, flaps: nat)
    ensures Quota(s, cap, flaps) == Burst(s, cap) + cap * flaps
    ensures Earliest(s, t0, flaps) == t0 + flaps * s.timeout
  {
    if flaps > 0 {
      ClosedForms(s, cap, t0, flaps - 1);
      assert cap * flaps == cap * (flaps - 1) + cap;
      assert flaps * s.timeout == (flaps - 1) * s.timeout + s.timeout;
    }
  }

  lemma ContainedBound(s: Settings, b: Breaker, cap: nat, t0: int, last: int, now: int,
                       flaps: nat, admitted: nat, inFlight: int)
    requires Contained(s, b, cap, t0, last, flaps, admitted, inFlight) && last <= now
    requires inFlight <= cap && s.timeout > 0
    ensures admitted <= Burst(s, cap) + cap * ((now - t0) / s.timeout)
  {
    ClosedForms(s, cap, t0, flaps);
    PeriodsElapsed(flaps, s.timeout, now - t0);
    MulMonotone(flaps, (now - t0) / s.timeout, cap);
  }

  /** The retry-storm bound: after the breaker first opens at event `o`, at most
      threshold + cap - 1 + cap * floor((now - t0) / timeout) callers have been admitted by `now`. */
  lemma {:induction false} StormBound(s: Settings, es: seq<Event>, cap: nat, o: nat, now: int)
    requires Storm(s, es, cap) && s.timeout > 0
    requires Opens(s, es, o) && forall i: nat :: i < o ==> !Opens(s, es, i)
    requires es[|es| - 1].at <= now
    ensures Admissions(s, es) <= StormLimit(s, cap, es[o].at, now)
  {
    AfterOpening(s, es, cap, o);
    WithinCap(s, es, cap);
    ContainedBound(s, Run(s, FRESH, es), cap, es[o].at, es[|es| - 1].at, now,
                   Flaps(s, es), Admissions(s, es), InFlight(s, es));
  }

  // ----- The bound is reached -----

  /** A storm, from time 0 on, that has not opened its breaker yet or has opened it in event `o` only. */
  ghost predicate Underway(s: Settings, es: seq<Event>, cap: nat, now: int, o: Option<nat>) {
    && Storm(s, es, cap)
    && 0 <= now && (es != [] ==> 0 <= es[0].at && es[|es| - 1].at <= now)
    && (forall i: nat :: Opens(s, es, i) <==> o == Some(i))
  }

  lemma ExtendStorm(s: Settings, es: seq<Event>, e: Event, cap: nat)
    requires Storm(s, es, cap) && (es != [] ==> es[|es| - 1].at <= e.at)
    requires e.Admit? || Fails(e)
    requires 0 <= InFlight(s, es + [e]) <= cap
    ensures Storm(s, es + [e], cap)
  {
    TimedSnoc(es, e);
    var all := es + [e];
    forall n: nat | n <= |all|
      ensures 0 <= InFlightAfter(s, all, n) <= cap
    {
      if n <= |es| {
        assert all[..n] == es[..n];
        assert 0 <= InFlightAfter(s, es, n) <= cap;
      } else {
        assert all[..n] == all;
      }
    }
  }

  lemma ExtendOpenings(s: Settings, es: seq<Event>, e: Event)
    ensures forall i: nat ::
      Opens(s, es + [e], i) <==>
      if i == |es| then Run(s, FRESH, es).state == Closed && Run(s, FRESH, es + [e]).state == Open else Opens(s, es, i)
  {
    var all := es + [e];
    assert all[..|es|] == es && all[..|es| + 1] == all;
    OpensInPrefix(s, all, |es|);
  }

  /** What one event does to the number of callers in flight. */
  function Delta(s: Settings, b: Breaker, e: Event): int {
    if e.Record? then -1 else if e.Admit? && AllowCall(s, b, e.at).1 then 1 else 0
  }

  lemma ExtendTally(s: Settings, es: seq<Event>, e: Event)
    ensures var b := Run(s, FRESH, es);
            && Run(s, FRESH, es + [e]) == Step(s, b, e)
            && Admissions(s, es + [e]) == Admissions(s, es) + (if Delta(s, b, e) == 1 then 1 else 0)
            && InFlight(s, es + [e]) == InFlight(s, es) + Delta(s, b, e)
  {
    assert (es + [e])[..|es|] == es;
    Last(s, es + [e]);
  }

  /** One more event of a storm. */
  lemma {:induction false} Extend(s: Settings, es: seq<Event>, e: Event, cap: nat, now: int, o: Option<nat>)
    returns (all: seq<Event>, o': Option<nat>)
    requires Underway(s, es, cap, now, o) && e.at == now
    requires e.Admit? || Fails(e)
    requires 0 <= InFlight(s, es) + Delta(s, Run(s, FRESH, es), e) <= cap
    ensures var b := Run(s, FRESH, es);
            && all == es + [e]
            && Run(s, FRESH, all) == Step(s, b, e)
            && Admissions(s, all) == Admissions(s, es) + (if Delta(s, b, e) == 1 then 1 else 0)
            && InFlight(s, all) == InFlight(s, es) + Delta(s, b, e)
            && o' == (if b.state == Closed && Step(s, b, e).state == Open then Some(|es|) else o)
            && Underway(s, all, cap, now, o')
  {
    all := es + [e];
    ExtendTally(s, es, e);
    ExtendStorm(s, es, e, cap);
    ExtendOpenings(s, es, e);
    o' := if Run(s, FRESH, es).state == Closed && Run(s, FRESH, all).state == Open then Some(|es|) else o;
    if o.Some? {
      AfterOpening(s, es, cap, o.value);
    }
  }

  /** `k` callers arrive at once and are all admitted. */
  lemma {:induction false} Arrivals(s: Settings, es: seq<Event>, cap: nat, now: int, o: Option<nat>, k: nat)
    returns (all: seq<Event>)
    requires Underway(s, es, cap, now, o) && InFlight(s, es) + k <= cap
    requires var b := Run(s, FRESH, es); b.state == Open ==> k > 0 && now - b.lastFailure >= s.timeout
    ensures Underway(s, all, cap, now, o) && es <= all
    ensures Admissions(s, all) == Admissions(s, es) + k && InFlight(s, all) == InFlight(s, es) + k
    ensures var before, after := Run(s, FRESH, es), Run(s, FRESH, all);
            && after.state == (if before.state == Closed then Closed else HalfOpen)
            && after.errors == before.errors && after.lastFailure == before.lastFailure
  {
    all := es;
    var i := 0;
    while i < k
      invariant i <= k
      invariant Underway(s, all, cap, now, o) && es <= all
      invariant Admissions(s, all) == Admissions(s, es) + i && InFlight(s, all) == InFlight(s, es) + i
      invariant var before, b := Run(s, FRESH, es), Run(s, FRESH, all);
                && b.state == (if before.state == Closed then Closed else if i == 0 then before.state else HalfOpen)
                && b.errors == before.errors && b.lastFailure == before.lastFailure
    {
      var o';
      WithinCap(s, all, cap);
      all, o' := Extend(s, all, Admit(now), cap, now, o);
      i := i + 1;
    }
  }

  /** `k` callers report failure at once; `first` is where the breaker opens, if they open it. */
  lemma {:induction false} Failures(s: Settings, es: seq<Event>, cap: nat, now: int, o: Option<nat>, k: nat)
    returns (all: seq<Event>, first: Option<nat>)
    requires Underway(s, es, cap, now, o) && 0 < k <= InFlight(s, es)
    requires var b := Run(s, FRESH, es); b.state == Closed ==> b.errors + 1 >= s.failureThreshold
    ensures Underway(s, all, cap, now, first)
    ensures first == if Run(s, FRESH, es).state == Closed then Some(|es|) else o
    ensures Admissions(s, all) == Admissions(s, es) && InFlight(s, all) == InFlight(s, es) - k
    ensures Run(s, FRESH, all).state == Open && Run(s, FRESH, all).lastFailure == now
    ensures |all| > |es| && all[|es|].at == now && es <= all
  {
    WithinCap(s, es, cap);
    all, first := Extend(s, es, Record(false, now), cap, now, o);
    var i := 1;
    while i < k
      invariant 1 <= i <= k
      invariant Underway(s, all, cap, now, first)
      invariant first == if Run(s, FRESH, es).state == Closed then Some(|es|) else o
      invariant Admissions(s, all) == Admissions(s, es) && InFlight(s, all) == InFlight(s, es) - i
      invariant Run(s, FRESH, all).state == Open && Run(s, FRESH, all).lastFailure == now
      invariant |all| > |es| && all[|es|].at == now && es <= all
    {
      all, first := Extend(s, all, Record(false, now), cap, now, first);
      i := i + 1;
    }
  }

  /** Callers that keep the breaker one failure short of opening, with all `cap` slots taken. */
  lemma {:induction false} Brink(s: Settings, cap: nat) returns (es: seq<Event>)
    requires cap > 0
    ensures Underway(s, es, cap, 0, None)
    ensures Run(s, FRESH, es).state == Closed && Run(s, FRESH, es).errors == Max(1, s.failureThreshold) - 1
    ensures InFlight(s, es) == cap && Admissions(s, es) == Burst(s, cap)
  {
    es := Arrivals(s, [], cap, 0, None, cap);
    var i, o := 0, None;
    while i < Max(1, s.failureThreshold) - 1
      invariant 0 <= i <= Max(1, s.failureThreshold) - 1
      invariant Underway(s, es, cap, 0, None) && o == None
      invariant Run(s, FRESH, es).state == Closed && Run(s, FRESH, es).errors == i
      invariant InFlight(s, es) == cap && Admissions(s, es) == cap + i
    {
      es, o := Extend(s, es, Record(false, 0), cap, 0, None);
      es := Arrivals(s, es, cap, 0, None, 1);
      i := i + 1;
    }
  }

  /** One timeout later `cap` probes are admitted together and all fail. */
  lemma {:induction false} Probes(s: Settings, es: seq<Event>, cap: nat, now: int, o: nat) returns (all: seq<Event>)
    requires cap > 0 && s.timeout > 0 && Underway(s, es, cap, now, Some(o)) && InFlight(s, es) == 0
    requires Run(s, FRESH, es).state == Open && Run(s, FRESH, es).lastFailure == now
    ensures Underway(s, all, cap, now + s.timeout, Some(o)) && InFlight(s, all) == 0 && es <= all
    ensures Run(s, FRESH, all).state == Open && Run(s, FRESH, all).lastFailure == now + s.timeout
    ensures Admissions(s, all) == Admissions(s, es) + cap
  {
    var grown := Arrivals(s, es, cap, now + s.timeout, Some(o), cap);
    var first;
    all, first := Failures(s, grown, cap, now + s.timeout, Some(o), cap);
  }

  lemma MulDiv(a: nat, b: int)
    requires b > 0
    ensures a * b / b == a
  {
    PeriodsElapsed(a, b, a * b);
  }

  lemma {:induction false} ReachBound(s: Settings, cap: nat, periods: nat) returns (es: seq<Event>, o: nat)
    requires cap > 0 && s.timeout > 0
    ensures Underway(s, es, cap, periods * s.timeout, Some(o)) && es[o].at == 0 && InFlight(s, es) == 0
    ensures Run(s, FRESH, es).state == Open && Run(s, FRESH, es).lastFailure == periods * s.timeout
    ensures Admissions(s, es) == Burst(s, cap) + cap * periods
    decreases periods
  {
    if periods == 0 {
      var brink := Brink(s, cap);
      o := |brink|;
      var first;
      es, first := Failures(s, brink, cap, 0, None, cap);
    } else {
      es, o := ReachBound(s, cap, periods - 1);
      assert Opens(s, es, o);
      es := Probes(s, es, cap, (periods - 1) * s.timeout, o);
      assert periods * s.timeout == (periods - 1) * s.timeout + s.timeout;
      assert cap * periods == cap * (periods - 1) + cap;
    }
  }

  /** No smaller bound holds: for every cap and every number of timeouts there is a storm that
      opens at time 0 and reaches the bound exactly. */
  lemma {:induction false} StormBoundIsReached(s: Settings, cap: nat, periods: nat) returns (es: seq<Event>, o: nat)
    requires cap > 0 && s.timeout > 0
    ensures Storm(s, es, cap) && Opens(s, es, o) && forall i: nat :: i < o ==> !Opens(s, es, i)
    ensures 0 <= es[0].at && es[o].at == 0 && es[|es| - 1].at <= periods * s.timeout
    ensures Admissions(s, es) == StormLimit(s, cap, es[o].at, periods * s.timeout)
  {
    es, o := ReachBound(s, cap, periods);
    assert Opens(s, es, o);
    MulDiv(periods, s.timeout);
  }
}
