/** The circuit breaker as a state machine on values: one function for every critical section of
    circuit_breaker.go, and runs over arbitrary interleavings of those sections. */
module Breaker {

  datatype State = Closed | Open | HalfOpen

  /** The public configuration, fixed once the breaker is in use. */
  datatype Settings = Settings(failureThreshold: int, successThreshold: int, timeout: int)

  /** 5 failures, 2 successes, 60 seconds. */
  const DEFAULT_SETTINGS := Settings(5, 2, 60_000_000_000)

  /** One pair handed to OnStateChange. */
  datatype Change = Change(from: State, to: State)

  /** `changes` lists the state changes in the order in which the lock holder announces them. */
  datatype Breaker = Breaker(state: State, errors: int, successes: int, lastFailure: int, changes: seq<Change>)

  const FRESH := Breaker(Closed, 0, 0, 0, [])

  function SetState(b: Breaker, to: State): Breaker {
    if b.state == to then b
    else
      var moved := b.(state := to, changes := b.changes + [Change(b.state, to)]);
      if to == Closed then moved.(errors := 0, successes := 0) else moved
  }

  /** The breaker after a request for admission at `now`, and whether the caller may go on. */
  function AllowCall(s: Settings, b: Breaker, now: int): (Breaker, bool) {
    match b.state
    case Closed => (b, true)
    case Open => if now - b.lastFailure >= s.timeout then (SetState(b, HalfOpen), true) else (b, false)
    case HalfOpen => (b, true)
  }

  function OnSuccess(s: Settings, b: Breaker): Breaker {
    var c := b.(errors := 0, successes := b.successes + 1);
    match c.state
    case HalfOpen => if c.successes >= s.successThreshold then SetState(c, Closed).(successes := 0) else c
    case Closed => c.(successes := 0)
    case Open => c
  }

  function OnFailure(s: Settings, b: Breaker, now: int): Breaker {
    var c := b.(successes := 0, errors := b.errors + 1, lastFailure := now);
    match c.state
    case Closed => if c.errors >= s.failureThreshold then SetState(c, Open) else c
    case HalfOpen => SetState(c, Open)
    case Open => c
  }

  function RecordResult(s: Settings, b: Breaker, ok: bool, now: int): Breaker {
    if ok then OnSuccess(s, b) else OnFailure(s, b, now)
  }

  function Reset(b: Breaker): Breaker {
    SetState(b, Closed).(errors := 0, successes := 0)
  }

  // ----- Runs -----

  /** A critical section, with the clock reading taken inside it. Between the Admit and the Record
      of one caller any number of events of other callers may happen. */
  datatype Event = Admit(at: int) | Record(ok: bool, at: int) | ResetAll(at: int)

  predicate Succeeds(e: Event) { e.Record? && e.ok }

  predicate Fails(e: Event) { e.Record? && !e.ok }

  function Step(s: Settings, b: Breaker, e: Event): Breaker {
    match e
    case Admit(now) => AllowCall(s, b, now).0
    case Record(ok, now) => RecordResult(s, b, ok, now)
    case ResetAll(_) => Reset(b)
  }

  function Run(s: Settings, b: Breaker, es: seq<Event>): Breaker {
    if es == [] then b else Step(s, Run(s, b, es[..|es| - 1]), es[|es| - 1])
  }

  /** The breaker, started fresh, after the first `i` events. */
  function At(s: Settings, es: seq<Event>, i: nat): Breaker
    requires i <= |es|
  {
    Run(s, FRESH, es[..i])
  }

  /** The lock is held while the clock is read, so events carry nondecreasing times. */
  ghost predicate Timed(es: seq<Event>) {
    forall i, j :: 0 <= i < j < |es| ==> es[i].at <= es[j].at
  }

  /** True when event `i` asks for admission and gets it. */
  predicate Admitted(s: Settings, es: seq<Event>, i: nat)
    requires i < |es|
  {
    es[i].Admit? && AllowCall(s, At(s, es, i), es[i].at).1
  }

  lemma TimedSnoc(es: seq<Event>, e: Event)
    requires Timed(es) && (es != [] ==> es[|es| - 1].at <= e.at)
    ensures Timed(es + [e])
  {
  }

  lemma AtStep(s: Settings, es: seq<Event>, i: nat)
    requires i < |es|
    ensures At(s, es, i + 1) == Step(s, At(s, es, i), es[i])
  {
    assert es[..i + 1][..i] == es[..i];
  }

  /** One admission and one report. */
  lemma RunTwo(s: Settings, b: Breaker, e: Event, f: Event)
    ensures Run(s, b, [e, f]) == Step(s, Step(s, b, e), f)
  {
    assert [e][..0] == [] && Run(s, b, [e]) == Step(s, b, e);
    assert [e, f][..1] == [e];
  }

  lemma RunSnoc(s: Settings, b: Breaker, es: seq<Event>, e: Event)
    ensures Run(s, b, es + [e]) == Step(s, Run(s, b, es), e)
  {
    assert (es + [e])[..|es|] == es;
  }
}
