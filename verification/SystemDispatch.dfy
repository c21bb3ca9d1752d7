/** Which breaker the operations of a system ask, in every run, said without the function that picks it. */
module SystemDispatch {
  import opened Types
  import opened Errors
  import opened Counting
  import opened System
  import opened SystemInvariants
  import B = Breaker

  /** Behind a registry the plain calls of an operation ask its own breaker; all other calls ask the
      global one, if there is one. */
  predicate Asks(u: Setup, k: Key, c: Call) {
    match k
    case Own(op) => u.hasRegistry && !c.useContext && c.op == op
    case Global => u.hasGlobal && (c.useContext || !u.hasRegistry)
  }

  /** The requests for admission in a trace, and the reports, at breaker k. */
  function Requests(trace: seq<Stamp>, k: Key): nat {
    if trace == [] then 0
    else
      var n := |trace| - 1;
      Requests(trace[..n], k) + if trace[n].key == k && trace[n].event.Admit? then 1 else 0
  }

  function Reports(trace: seq<Stamp>, k: Key): nat {
    if trace == [] then 0
    else
      var n := |trace| - 1;
      Reports(trace[..n], k) + if trace[n].key == k && trace[n].event.Record? then 1 else 0
  }

  /** Operations that ask breaker k and have done so; those that have been let through and have reported. */
  function HaveAsked(u: Setup, k: Key): Call -> bool { (c: Call) => Asks(u, k, c) && !c.pc.Entering? }

  function HaveReported(u: Setup, k: Key): Call -> bool {
    (c: Call) => Asks(u, k, c) && c.pc.Done? && c.ending != Rejected
  }

  /** An operation enters and leaves through one critical section of the one breaker it asks, or through
      none if it asks none; nothing else that an operation does touches a breaker. */
  lemma {:induction false} SectionOfAction(u: Setup, actions: seq<Action>, a: Action)
    requires Enabled(Exec(u, actions), a) && !a.Begin? && !a.ResetBreaker?
    ensures var s, s', c := Exec(u, actions), Exec(u, actions + [a]), Exec(u, actions).calls[a.id];
            if a.Enter? || a.Leave? then
              var e := if a.Enter? then B.Admit(a.at) else B.Record(c.pc.err.None?, a.at);
              s'.trace == s.trace + if u.hasRegistry && !c.useContext then [Stamp(Own(c.op), e)]
                                    else if u.hasGlobal then [Stamp(Global, e)]
                                    else []
            else
              s'.trace == s.trace && s'.breakers == s.breakers
  {
    ExecSnoc(u, actions, a);
  }

  lemma CountsSnoc(trace: seq<Stamp>, x: Stamp, k: Key)
    ensures Requests(trace + [x], k) == Requests(trace, k) + if x.key == k && x.event.Admit? then 1 else 0
    ensures Reports(trace + [x], k) == Reports(trace, k) + if x.key == k && x.event.Record? then 1 else 0
  {
    assert (trace + [x])[..|trace|] == trace;
  }

  ghost predicate Dispatched(u: Setup, s: Sys, k: Key) {
    && Requests(s.trace, k) == |Where(s.calls, HaveAsked(u, k))|
    && Reports(s.trace, k) == |Where(s.calls, HaveReported(u, k))|
  }

  /** An operation is refused by a breaker it asks, never without one. */
  ghost predicate RefusedByOne(u: Setup, s: Sys) {
    forall id :: id in s.calls && s.calls[id].ending == Rejected ==>
                   if s.calls[id].useContext then u.hasGlobal else u.hasGlobal || u.hasRegistry
  }

  lemma AskedByStamp(u: Setup, c: Call, a: Action, allowed: bool, k: Key)
    requires Ready(c, a)
    ensures var stamp, c' := StampOf(u, c, a), Advance(u, c, a, allowed);
            (if HaveAsked(u, k)(c') then 1 else 0) - (if HaveAsked(u, k)(c) then 1 else 0)
            == if stamp.Some? && stamp.value.key == k && stamp.value.event.Admit? then 1 else 0
  {
  }

  lemma AsksTogether(u: Setup, s: Sys, a: Action, k: Key)
    requires Enabled(s, a) && !a.Begin? && !a.ResetBreaker?
    ensures var c, c' := s.calls[a.id], Apply(u, s, a).calls[a.id];
            Requests(Apply(u, s, a).trace, k) - Requests(s.trace, k)
            == (if HaveAsked(u, k)(c') then 1 else 0) - (if HaveAsked(u, k)(c) then 1 else 0)
  {
    var stamp := StampOf(u, s.calls[a.id], a);
    assert Apply(u, s, a).trace == Stamped(u, s, stamp).trace;
    AskedByStamp(u, s.calls[a.id], a, Allowed(u, s, s.calls[a.id], a), k);
    if stamp.Some? {
      CountsSnoc(s.trace, stamp.value, k);
    }
  }

  lemma ReportsTogether(u: Setup, s: Sys, a: Action, k: Key)
    requires Enabled(s, a) && !a.Begin? && !a.ResetBreaker? && Sound(u, s.calls[a.id])
    ensures var c, c' := s.calls[a.id], Apply(u, s, a).calls[a.id];
            Reports(Apply(u, s, a).trace, k) - Reports(s.trace, k)
            == (if HaveReported(u, k)(c') then 1 else 0) - (if HaveReported(u, k)(c) then 1 else 0)
  {
    var stamp := StampOf(u, s.calls[a.id], a);
    assert Apply(u, s, a).trace == Stamped(u, s, stamp).trace;
    if stamp.Some? {
      CountsSnoc(s.trace, stamp.value, k);
    }
  }

  lemma StaysDispatched(u: Setup, s: Sys, a: Action, k: Key)
    requires Enabled(s, a) && SoundSystem(u, s) && Dispatched(u, s, k)
    ensures Dispatched(u, Apply(u, s, a), k)
  {
    if a.ResetBreaker? {
      CountsSnoc(s.trace, Stamp(a.key, B.ResetAll(a.at)), k);
    } else {
      var c' := Apply(u, s, a).calls[a.id];
      assert Apply(u, s, a).calls == s.calls[a.id := c'];
      CountUpdate(s.calls, a.id, c', HaveAsked(u, k));
      CountUpdate(s.calls, a.id, c', HaveReported(u, k));
      if !a.Begin? {
        assert Sound(u, s.calls[a.id]);
        AsksTogether(u, s, a, k);
        ReportsTogether(u, s, a, k);
      }
    }
  }

  /** In every run each breaker has been asked once by every operation that has asked one and is to ask
      this one, and told once by each of those that it let through and that is done; nobody else asks it or
      tells it anything. Without a registry no breaker of its own is asked, without a global breaker not
      that one, and an operation is refused only if there is a breaker for it to ask. */
  lemma {:induction false} EveryOperationAsksItsBreaker(u: Setup, actions: seq<Action>, k: Key)
    ensures Dispatched(u, Exec(u, actions), k) && RefusedByOne(u, Exec(u, actions))
  {
    if actions == [] {
      assert Where(INITIAL.calls, HaveAsked(u, k)) == {} && Where(INITIAL.calls, HaveReported(u, k)) == {};
    } else {
      var s, a := Exec(u, actions[..|actions| - 1]), actions[|actions| - 1];
      EveryOperationAsksItsBreaker(u, actions[..|actions| - 1], k);
      AllSound(u, actions[..|actions| - 1]);
      if Enabled(s, a) {
        StaysDispatched(u, s, a, k);
        if !a.ResetBreaker? {
          assert Apply(u, s, a).calls == s.calls[a.id := Apply(u, s, a).calls[a.id]];
        }
      }
    }
  }

  /** The global breaker runs under its own settings and the breakers of a registry under the registry's. */
  lemma {:induction false} BreakersRunUnderTheirSettings(u: Setup, actions: seq<Action>, op: Operation)
    ensures var s := Exec(u, actions);
            && BreakerOf(s, Global) == B.Run(u.global, B.FRESH, Project(s.trace, Global))
            && BreakerOf(s, Own(op)) == B.Run(u.registry, B.FRESH, Project(s.trace, Own(op)))
  {
    EveryBreakerStandsAlone(u, actions, Global);
    EveryBreakerStandsAlone(u, actions, Own(op));
  }

  /** A reset closes its breaker at once and touches nothing else. */
  lemma {:induction false} ResetClosesItsBreaker(u: Setup, actions: seq<Action>, k: Key, at: int)
    requires Exec(u, actions).clock <= at
    ensures var s, s' := Exec(u, actions), Exec(u, actions + [ResetBreaker(k, at)]);
            var b, b' := BreakerOf(s, k), BreakerOf(s', k);
            && b'.state == B.Closed && b'.errors == 0 && b'.successes == 0 && b'.lastFailure == b.lastFailure
            && s'.trace == s.trace + [Stamp(k, B.ResetAll(at))] && s'.calls == s.calls && s'.ledger == s.ledger
            && (forall j :: j != k ==> BreakerOf(s', j) == BreakerOf(s, j))
  {
    ExecSnoc(u, actions, ResetBreaker(k, at));
  }
}
