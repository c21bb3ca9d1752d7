/** The converse of module SystemStorm: every storm of breaker events is what some run of the whole
    system does to a breaker, with every admitted operation spending all its attempts. Hence the
    retry-storm bound on calls of the wrapped function is reached. */
module SystemStormReached {
  import opened Types
  import opened Errors
  import opened Counting
  import opened RetryLoop
  import opened System
  import opened SystemInvariants
  import opened SystemStorm
  import B = Breaker
  import R = RetryStorm

  /** An operation behind breaker k, and the error with which all its calls fail. */
  datatype Scene = Scene(u: Setup, k: Key, op: Operation, useContext: bool, error: Error, cap: nat)

  function Tries(x: Scene): int { GetPolicy(x.u.config, x.op).maxAttempts }

  /** The error is retried and the policy allows an attempt. */
  predicate Fits(x: Scene) {
    && GuardOf(x.u, x.op, x.useContext) == Some(x.k)
    && Tries(x) >= 1 && x.u.config.classifier(Some(x.error)) != Permanent
  }

  predicate Failing(x: Scene, c: Call) {
    c.op == x.op && c.useContext == x.useContext && forall i :: 0 <= i < |c.outcomes| ==> c.outcomes[i] == Some(x.error)
  }

  ghost predicate AllFailing(x: Scene, s: Sys) { forall id :: id in s.calls ==> Failing(x, s.calls[id]) }

  function EventsOf(x: Scene, s: Sys): seq<B.Event> { Project(s.trace, x.k) }

  predicate WithinCap(x: Scene, s: Sys) { R.InFlight(SettingsOf(x.u, x.k), EventsOf(x, s)) <= x.cap }

  /** A run with a dead backend so far, in which nothing but calls of that one kind has happened. */
  ghost predicate Bleak(x: Scene, actions: seq<Action>) {
    DeadBackend(x.u, actions, x.k, x.cap) && AllFailing(x, Exec(x.u, actions)) && WithinCap(x, Exec(x.u, actions))
  }

  // ----- One action -----

  predicate Suits(x: Scene, a: Action) {
    && !a.ResetBreaker?
    && (a.Invoke? ==> a.outcome == Some(x.error))
    && (a.Begin? ==> a.op == x.op && a.useContext == x.useContext)
  }

  lemma StaysFailing(x: Scene, s: Sys, a: Action)
    requires AllFailing(x, s) && Enabled(s, a) && Suits(x, a)
    ensures AllFailing(x, Apply(x.u, s, a))
  {
  }

  lemma {:induction false} Move(x: Scene, actions: seq<Action>, a: Action)
    requires Fits(x) && Bleak(x, actions) && Enabled(Exec(x.u, actions), a) && Suits(x, a)
    requires WithinCap(x, Apply(x.u, Exec(x.u, actions), a))
    ensures Exec(x.u, actions + [a]) == Apply(x.u, Exec(x.u, actions), a) && Bleak(x, actions + [a])
  {
    var all := actions + [a];
    ExecSnoc(x.u, actions, a);
    StaysFailing(x, Exec(x.u, actions), a);
    AllTallied(x.u, all, x.k);
    forall n: nat | n <= |all|
      ensures DeadAfter(x.u, all, n, x.k, x.cap)
    {
      if n <= |actions| {
        assert all[..n] == actions[..n] && DeadAfter(x.u, actions, n, x.k, x.cap);
      } else {
        assert all[..n] == all;
      }
    }
  }

  /** An action that runs no critical section of a breaker. */
  lemma {:induction false} MoveInside(x: Scene, actions: seq<Action>, a: Action)
    requires Fits(x) && Bleak(x, actions) && Suits(x, a) && (a.Head? || a.Invoke? || a.Settle?)
    requires a.id in Exec(x.u, actions).calls && Ready(Exec(x.u, actions).calls[a.id], a)
    ensures Bleak(x, actions + [a])
    ensures var s, s' := Exec(x.u, actions), Exec(x.u, actions + [a]);
            && s'.trace == s.trace && s'.clock == s.clock
            && s'.calls == s.calls[a.id := Advance(x.u, s.calls[a.id], a, false)]
  {
    Move(x, actions, a);
  }

  // ----- One operation -----

  /** s' differs from s in operation `id`, which has reached `pc` with n failed calls behind it. */
  ghost predicate Reached(s: Sys, s': Sys, id: nat, pc: Pc, n: int, ending: Ending) {
    && s'.trace == s.trace && s'.clock == s.clock && id in s'.calls && s'.calls == s.calls[id := s'.calls[id]]
    && s'.calls[id].pc == pc && |s'.calls[id].outcomes| == n && s'.calls[id].ending == ending
  }

  lemma ReachedThen(s: Sys, s1: Sys, s2: Sys, id: nat, pc1: Pc, n1: int, e1: Ending, pc2: Pc, n2: int, e2: Ending)
    requires Reached(s, s1, id, pc1, n1, e1) && Reached(s1, s2, id, pc2, n2, e2)
    ensures Reached(s, s2, id, pc2, n2, e2)
  {
    assert s.calls[id := s1.calls[id]][id := s2.calls[id]] == s.calls[id := s2.calls[id]];
  }

  /** One failing iteration of the loop. */
  lemma {:induction false} FailOnce(x: Scene, actions: seq<Action>, id: nat, i: nat) returns (all: seq<Action>)
    requires Fits(x) && Bleak(x, actions) && i < Tries(x)
    requires Reached(Exec(x.u, actions), Exec(x.u, actions), id, AtHead(i), i, Pending)
    ensures Bleak(x, all)
    ensures var next := if i + 1 < Tries(x) then AtHead(i + 1) else Failed;
            Reached(Exec(x.u, actions), Exec(x.u, all), id, next, i + 1, Pending)
  {
    var head, invoke := Head(id, None), Invoke(id, Some(x.error));
    MoveInside(x, actions, head);
    var s, s1 := Exec(x.u, actions), Exec(x.u, actions + [head]);
    MoveInside(x, actions + [head], invoke);
    all := actions + [head] + [invoke];
    var next := if i + 1 < Tries(x) then AtHead(i + 1) else Failed;
    ReachedThen(s, s1, Exec(x.u, all), id, Recorded(i), i, Pending, next, i + 1, Pending);
  }

  /** From the head of iteration i the operation spends all attempts it has left. */
  lemma {:induction false} Exhaust(x: Scene, actions: seq<Action>, id: nat, i: nat) returns (all: seq<Action>)
    requires Fits(x) && Bleak(x, actions) && i < Tries(x)
    requires Reached(Exec(x.u, actions), Exec(x.u, actions), id, AtHead(i), i, Pending)
    ensures Bleak(x, all)
    ensures Reached(Exec(x.u, actions), Exec(x.u, all), id, Leaving(Some(x.error)), Tries(x), Failure)
    decreases Tries(x) - i
  {
    var once := FailOnce(x, actions, id, i);
    var s, s1, over := Exec(x.u, actions), Exec(x.u, once), Leaving(Some(x.error));
    if i + 1 < Tries(x) {
      all := Exhaust(x, once, id, i + 1);
      ReachedThen(s, s1, Exec(x.u, all), id, AtHead(i + 1), i + 1, Pending, over, Tries(x), Failure);
    } else {
      MoveInside(x, once, Settle(id));
      all := once + [Settle(id)];
      ReachedThen(s, s1, Exec(x.u, all), id, Failed, i + 1, Pending, over, Tries(x), Failure);
    }
  }

  // ----- One event -----

  /** An operation between two events: refused, or out of attempts. */
  predicate Spent(x: Scene, c: Call) {
    if c.ending == Rejected then c.pc.Done? && c.outcomes == []
    else |c.outcomes| == Tries(x) && (c.pc == Leaving(Some(x.error)) || c.pc == Done(Some(x.error)))
  }

  /** The run `actions` has done the storm `es` to breaker k, and nothing else. */
  ghost predicate Acted(x: Scene, actions: seq<Action>, es: seq<B.Event>) {
    var s := Exec(x.u, actions);
    && Bleak(x, actions) && EventsOf(x, s) == es && s.clock <= (if es == [] then 0 else es[|es| - 1].at)
    && (forall id :: id in s.calls ==> id < |es| && Spent(x, s.calls[id]))
    && FunctionCalls(x.u, s, x.k) == R.Admissions(SettingsOf(x.u, x.k), es) * Tries(x)
  }

  lemma {:induction false} CallsOfUpdate(x: Scene, s: Sys, s': Sys, id: nat)
    requires id in s'.calls && s'.calls == s.calls[id := s'.calls[id]]
    requires Fits(x) && Failing(x, s'.calls[id]) && (id in s.calls ==> Failing(x, s.calls[id]))
    ensures FunctionCalls(x.u, s', x.k)
            == FunctionCalls(x.u, s, x.k) + |s'.calls[id].outcomes|
               - if id in s.calls then |s.calls[id].outcomes| else 0
  {
    var n := |s'.calls[id].outcomes|;
    assert CallsById(x.u, s', x.k) == CallsById(x.u, s, x.k)[id := n];
    SumUpdate(CallsById(x.u, s, x.k), id, n);
  }

  /** Admission of a new operation that finds breaker k to be `b`. */
  lemma EnterApplied(x: Scene, s: Sys, id: nat, t: int, b: B.Breaker)
    requires Fits(x) && s.clock <= t && BreakerOf(s, x.k) == b
    requires id in s.calls && s.calls[id] == Call(x.op, x.useContext, Entering, 0, [], Pending)
    ensures Enabled(s, Enter(id, t))
    ensures var s', admitted := Apply(x.u, s, Enter(id, t)), R.Delta(SettingsOf(x.u, x.k), b, B.Admit(t)) == 1;
            && s'.trace == s.trace + [Stamp(x.k, B.Admit(t))] && s'.clock == t
            && s'.calls == s.calls[id := Arrived(x, admitted)]
  {
  }

  function Arrived(x: Scene, admitted: bool): Call {
    if admitted then Call(x.op, x.useContext, AtHead(0), 0, [], Pending)
    else Call(x.op, x.useContext, Done(Some(CIRCUIT_OPEN)), 0, [], Rejected)
  }

  lemma {:induction false} Begins(x: Scene, actions: seq<Action>, id: nat)
    requires Fits(x) && Bleak(x, actions) && id !in Exec(x.u, actions).calls
    ensures var begin := Begin(id, x.op, x.useContext);
            var s, s' := Exec(x.u, actions), Exec(x.u, actions + [begin]);
            && Bleak(x, actions + [begin]) && s'.trace == s.trace && s'.clock == s.clock
            && s'.calls == s.calls[id := Call(x.op, x.useContext, Entering, 0, [], Pending)]
  {
    Move(x, actions, Begin(id, x.op, x.useContext));
  }

  lemma {:induction false} Enters(x: Scene, actions: seq<Action>, es: seq<B.Event>, id: nat, t: int)
    requires Fits(x) && Bleak(x, actions) && EventsOf(x, Exec(x.u, actions)) == es && Exec(x.u, actions).clock <= t
    requires var s := Exec(x.u, actions);
             id in s.calls && s.calls[id] == Call(x.op, x.useContext, Entering, 0, [], Pending)
    requires R.Storm(SettingsOf(x.u, x.k), es + [B.Admit(t)], x.cap)
    ensures var all, q := actions + [Enter(id, t)], SettingsOf(x.u, x.k);
            var admitted := R.Delta(q, B.Run(q, B.FRESH, es), B.Admit(t)) == 1;
            && Bleak(x, all) && EventsOf(x, Exec(x.u, all)) == es + [B.Admit(t)] && Exec(x.u, all).clock == t
            && Exec(x.u, all).calls == Exec(x.u, actions).calls[id := Arrived(x, admitted)]
  {
    var s, q := Exec(x.u, actions), SettingsOf(x.u, x.k);
    EveryBreakerStandsAlone(x.u, actions, x.k);
    EnterApplied(x, s, id, t, B.Run(q, B.FRESH, es));
    ProjectSnoc(s.trace, Stamp(x.k, B.Admit(t)), x.k);
    R.WithinCap(q, es + [B.Admit(t)], x.cap);
    Move(x, actions, Enter(id, t));
  }

  /** A caller arrives at time t: the storm `es` grows by its admission or refusal. */
  lemma {:induction false} Entry(x: Scene, actions: seq<Action>, es: seq<B.Event>, t: int) returns (all: seq<Action>)
    requires Fits(x) && Acted(x, actions, es) && Exec(x.u, actions).clock <= t
    requires R.Storm(SettingsOf(x.u, x.k), es + [B.Admit(t)], x.cap)
    ensures Bleak(x, all) && EventsOf(x, Exec(x.u, all)) == es + [B.Admit(t)] && Exec(x.u, all).clock == t
    ensures var q := SettingsOf(x.u, x.k);
            var admitted := R.Delta(q, B.Run(q, B.FRESH, es), B.Admit(t)) == 1;
            Exec(x.u, all).calls == Exec(x.u, actions).calls[|es| := Arrived(x, admitted)]
  {
    var begun := actions + [Begin(|es|, x.op, x.useContext)];
    Begins(x, actions, |es|);
    Enters(x, begun, es, |es|, t);
    all := begun + [Enter(|es|, t)];
    SetTwice(Exec(x.u, actions).calls, Exec(x.u, begun).calls, Exec(x.u, all).calls, |es|);
  }

  /** One more event done by one operation, which is spent after it. */
  lemma {:induction false} ActedOnce(x: Scene, actions: seq<Action>, es: seq<B.Event>, e: B.Event,
                                     all: seq<Action>, id: nat)
    requires Acted(x, actions, es) && Bleak(x, all) && id <= |es|
    requires EventsOf(x, Exec(x.u, all)) == es + [e] && Exec(x.u, all).clock <= e.at
    requires id in Exec(x.u, all).calls && Spent(x, Exec(x.u, all).calls[id])
    requires Exec(x.u, all).calls == Exec(x.u, actions).calls[id := Exec(x.u, all).calls[id]]
    requires FunctionCalls(x.u, Exec(x.u, all), x.k) == R.Admissions(SettingsOf(x.u, x.k), es + [e]) * Tries(x)
    ensures Acted(x, all, es + [e])
  {
  }

  lemma {:induction false} Arrival(x: Scene, actions: seq<Action>, es: seq<B.Event>, t: int) returns (all: seq<Action>)
    requires Fits(x) && Acted(x, actions, es) && Exec(x.u, actions).clock <= t
    requires R.Storm(SettingsOf(x.u, x.k), es + [B.Admit(t)], x.cap)
    ensures Acted(x, all, es + [B.Admit(t)])
  {
    var id, q := |es|, SettingsOf(x.u, x.k);
    var entered := Entry(x, actions, es, t);
    if R.Delta(q, B.Run(q, B.FRESH, es), B.Admit(t)) == 1 {
      all := Exhaust(x, entered, id, 0);
      SetTwice(Exec(x.u, actions).calls, Exec(x.u, entered).calls, Exec(x.u, all).calls, id);
    } else {
      all := entered;
    }
    ArrivalCounts(x, Exec(x.u, actions), Exec(x.u, all), es, t);
    ActedOnce(x, actions, es, B.Admit(t), all, id);
  }

  lemma SetTwice(m: map<nat, Call>, m1: map<nat, Call>, m2: map<nat, Call>, id: nat)
    requires id in m1 && m1 == m[id := m1[id]] && id in m2 && m2 == m1[id := m2[id]]
    ensures m2 == m[id := m2[id]]
  {
  }

  lemma {:induction false} ArrivalCounts(x: Scene, s: Sys, s': Sys, es: seq<B.Event>, t: int)
    requires Fits(x) && |es| !in s.calls && |es| in s'.calls && s'.calls == s.calls[|es| := s'.calls[|es|]]
    requires Failing(x, s'.calls[|es|])
    requires var q := SettingsOf(x.u, x.k);
             && FunctionCalls(x.u, s, x.k) == R.Admissions(q, es) * Tries(x)
             && |s'.calls[|es|].outcomes|
                == if R.Delta(q, B.Run(q, B.FRESH, es), B.Admit(t)) == 1 then Tries(x) else 0
    ensures FunctionCalls(x.u, s', x.k) == R.Admissions(SettingsOf(x.u, x.k), es + [B.Admit(t)]) * Tries(x)
  {
    R.ExtendTally(SettingsOf(x.u, x.k), es, B.Admit(t));
    CallsOfUpdate(x, s, s', |es|);
    OneMore(R.Admissions(SettingsOf(x.u, x.k), es), Tries(x));
  }

  lemma LeaveApplied(x: Scene, s: Sys, id: nat, t: int)
    requires Fits(x) && s.clock <= t
    requires id in s.calls && Failing(x, s.calls[id]) && s.calls[id].pc == Leaving(Some(x.error))
    ensures Enabled(s, Leave(id, t))
    ensures var s' := Apply(x.u, s, Leave(id, t));
            && s'.trace == s.trace + [Stamp(x.k, B.Record(false, t))] && s'.clock == t
            && s'.calls == s.calls[id := s.calls[id].(pc := Done(Some(x.error)))]
  {
  }

  lemma {:induction false} OneInFlight(x: Scene, actions: seq<Action>, es: seq<B.Event>) returns (id: nat)
    requires Fits(x) && Acted(x, actions, es) && R.InFlight(SettingsOf(x.u, x.k), es) > 0
    ensures var s := Exec(x.u, actions); id in s.calls && s.calls[id].pc == Leaving(Some(x.error))
  {
    var s := Exec(x.u, actions);
    AllTallied(x.u, actions, x.k);
    assert Where(s.calls, InFlightOf(x.u, x.k)) != {};
    id :| id in Where(s.calls, InFlightOf(x.u, x.k));
    assert Spent(x, s.calls[id]);
  }

  lemma {:induction false} Reports(x: Scene, actions: seq<Action>, es: seq<B.Event>, id: nat, t: int)
    requires Fits(x) && Bleak(x, actions) && EventsOf(x, Exec(x.u, actions)) == es && Exec(x.u, actions).clock <= t
    requires var s := Exec(x.u, actions); id in s.calls && s.calls[id].pc == Leaving(Some(x.error))
    requires R.Storm(SettingsOf(x.u, x.k), es + [B.Record(false, t)], x.cap)
    ensures var s, s' := Exec(x.u, actions), Exec(x.u, actions + [Leave(id, t)]);
            && Bleak(x, actions + [Leave(id, t)]) && EventsOf(x, s') == es + [B.Record(false, t)] && s'.clock == t
            && s'.calls == s.calls[id := s.calls[id].(pc := Done(Some(x.error)))]
  {
    var s, report := Exec(x.u, actions), B.Record(false, t);
    assert Failing(x, s.calls[id]);
    LeaveApplied(x, s, id, t);
    ProjectSnoc(s.trace, Stamp(x.k, report), x.k);
    R.WithinCap(SettingsOf(x.u, x.k), es + [report], x.cap);
    Move(x, actions, Leave(id, t));
  }

  /** An operation reports its failure at time t. */
  lemma {:induction false} Departure(x: Scene, actions: seq<Action>, es: seq<B.Event>, t: int)
    returns (all: seq<Action>)
    requires Fits(x) && Acted(x, actions, es) && Exec(x.u, actions).clock <= t
    requires R.Storm(SettingsOf(x.u, x.k), es + [B.Record(false, t)], x.cap)
    ensures Acted(x, all, es + [B.Record(false, t)])
  {
    var s, q, report := Exec(x.u, actions), SettingsOf(x.u, x.k), B.Record(false, t);
    R.ExtendTally(q, es, report);
    R.WithinCap(q, es + [report], x.cap);
    var id := OneInFlight(x, actions, es);
    Reports(x, actions, es, id, t);
    all := actions + [Leave(id, t)];
    CallsOfUpdate(x, s, Exec(x.u, all), id);
    ActedOnce(x, actions, es, report, all, id);
  }

  // ----- Whole storms -----

  /** Every storm that starts at time 0 or later is done to breaker k by a run of the system in which
      each admitted operation calls the wrapped function as often as its policy allows. */
  lemma {:induction false} EveryStormIsASystemRun(x: Scene, es: seq<B.Event>) returns (actions: seq<Action>)
    requires Fits(x) && R.Storm(SettingsOf(x.u, x.k), es, x.cap) && (es != [] ==> es[0].at >= 0)
    ensures Acted(x, actions, es)
  {
    if es == [] {
      actions := [];
      assert Where(INITIAL.calls, InFlightOf(x.u, x.k)) == {};
      assert forall n: nat :: n <= |actions| ==> actions[..n] == [];
      assert CallsById(x.u, INITIAL, x.k) == map[];
    } else {
      var n := |es| - 1;
      assert es == es[..n] + [es[n]];
      R.PrefixOfStorm(SettingsOf(x.u, x.k), es, x.cap, n);
      actions := EveryStormIsASystemRun(x, es[..n]);
      if es[n].Admit? {
        actions := Arrival(x, actions, es[..n], es[n].at);
      } else {
        actions := Departure(x, actions, es[..n], es[n].at);
      }
    }
  }

  /** The bound on calls of the wrapped function is the least one: for every setup, every cap and every
      number of timeouts there is a run with a dead backend that first opens its breaker at time 0 and
      reaches it exactly. */
  lemma {:induction false} RetryStormBoundIsReached(x: Scene, periods: nat) returns (actions: seq<Action>, o: nat)
    requires Fits(x) && x.cap > 0 && SettingsOf(x.u, x.k).timeout > 0
    ensures DeadBackend(x.u, actions, x.k, x.cap) && AttemptsAtMost(x.u, Exec(x.u, actions), x.k, Tries(x))
    ensures var s, q := Exec(x.u, actions), SettingsOf(x.u, x.k);
            var es := EventsOf(x, s);
            && R.Opens(q, es, o) && (forall i: nat :: i < o ==> !R.Opens(q, es, i))
            && es[o].at == 0 && es[|es| - 1].at <= periods * q.timeout
            && FunctionCalls(x.u, s, x.k) == R.StormLimit(q, x.cap, 0, periods * q.timeout) * Tries(x)
  {
    var es;
    es, o := R.StormBoundIsReached(SettingsOf(x.u, x.k), x.cap, periods);
    actions := EveryStormIsASystemRun(x, es);
  }
}
