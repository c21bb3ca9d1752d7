/** Any number of operations of one RetryFS running at once, interleaved at their atomic steps: the
    lock-protected sections of the breakers and of the metrics, the calls of the wrapped function,
    and the moments at which a context is found done. */
module System {
  import opened Types
  import opened Errors
  import opened Ledger
  import opened RetryLoop
  import B = Breaker
  import P = Backoff

  /** The configuration: whether there is a global breaker, and whether there is a registry. */
  datatype Setup = Setup(config: Config, hasGlobal: bool, global: B.Settings, hasRegistry: bool, registry: B.Settings)

  /** The breakers of a system: the global one, and one for each operation. */
  datatype Key = Global | Own(op: Operation)

  function SettingsOf(u: Setup, k: Key): B.Settings { if k.Global? then u.global else u.registry }

  /** The breaker in front of an operation. The context path never asks the registry. */
  function GuardOf(u: Setup, op: Operation, useContext: bool): Option<Key> {
    if u.hasRegistry && !useContext then Some(Own(op))
    else if u.hasGlobal then Some(Global)
    else None
  }

  // ----- One operation -----

  /** Where an operation is: before admission; at the head of an iteration; after recording the
      attempt; with a success or a failure to record; with its breaker still to be told; done. */
  datatype Pc =
    | Entering
    | AtHead(attempt: nat)
    | Recorded(attempt: nat)
    | Succeeded
    | Failed
    | Leaving(err: Option<Error>)
    | Done(err: Option<Error>)

  datatype Ending = Pending | Success | Failure | Cancelled | Rejected

  /** `attempts` counts RecordAttempt calls, `outcomes` lists what the wrapped function answered. */
  datatype Call = Call(op: Operation, useContext: bool, pc: Pc, attempts: nat, outcomes: seq<Option<Error>>,
                       ending: Ending)

  function PolicyOf(u: Setup, c: Call): P.Policy { GetPolicy(u.config, c.op) }

  function LastOutcome(c: Call): Option<Error> {
    if c.outcomes == [] then None else c.outcomes[|c.outcomes| - 1]
  }

  datatype Action =
    | Begin(id: nat, op: Operation, useContext: bool)
    | Enter(id: nat, at: int)
    | Head(id: nat, stop: Option<Error>)
    | StopInBackoff(id: nat, err: Error)
    | Invoke(id: nat, outcome: Option<Error>)
    | Settle(id: nat)
    | Leave(id: nat, at: int)
    | ResetBreaker(key: Key, at: int)

  /** Whether `c` is at the program point of action `a`. */
  predicate Ready(c: Call, a: Action) {
    match a
    case Enter(_, _) => c.pc.Entering?
    case Head(_, stop) => c.pc.AtHead? && (stop.Some? ==> c.useContext)
    case StopInBackoff(_, _) => c.pc.Recorded? && c.pc.attempt > 0 && c.useContext
    case Invoke(_, _) => c.pc.Recorded?
    case Settle(_) => c.pc.Succeeded? || c.pc.Failed?
    case Leave(_, _) => c.pc.Leaving?
    case _ => false
  }

  /** The next state of the operation itself; `allowed` is its breaker's answer to Enter. */
  function Advance(u: Setup, c: Call, a: Action, allowed: bool): Call
    requires Ready(c, a)
  {
    match a
    case Enter(_, _) =>
      if allowed then c.(pc := AtHead(0)) else c.(pc := Done(Some(CIRCUIT_OPEN)), ending := Rejected)
    case Head(_, stop) =>
      if c.pc.attempt >= PolicyOf(u, c).maxAttempts then c.(pc := Failed)
      else if stop.Some? then c.(pc := Leaving(stop), ending := Cancelled)
      else c.(pc := Recorded(c.pc.attempt), attempts := c.attempts + 1)
    case StopInBackoff(_, err) => c.(pc := Leaving(Some(err)), ending := Cancelled)
    case Invoke(_, outcome) =>
      var next :=
        if outcome.None? then Succeeded
        else if ShouldRetry(u.config, outcome, c.pc.attempt + 1, PolicyOf(u, c)) then AtHead(c.pc.attempt + 1)
        else Failed;
      c.(pc := next, outcomes := c.outcomes + [outcome])
    case Settle(_) =>
      if c.pc.Succeeded? then c.(pc := Leaving(None), ending := Success)
      else c.(pc := Leaving(LastOutcome(c)), ending := Failure)
    case Leave(_, _) => c.(pc := Done(c.pc.err))
  }

  /** True when the action records an attempt. */
  predicate RecordsAttempt(u: Setup, c: Call, a: Action) {
    a.Head? && c.pc.AtHead? && c.pc.attempt < PolicyOf(u, c).maxAttempts && a.stop.None?
  }

  /** What the action writes into the ledger. */
  function Book(u: Setup, l: Ledger, c: Call, a: Action): Ledger {
    if RecordsAttempt(u, c, a) then RecordAttempt(l, c.op, c.pc.attempt > 0)
    else if a.Settle? then
      if c.pc.Succeeded? then RecordSuccess(l, c.op) else RecordFailure(l, c.op, u.config.classifier(LastOutcome(c)))
    else l
  }

  // ----- The system -----

  /** A critical section of the breaker with the given key. */
  datatype Stamp = Stamp(key: Key, event: B.Event)

  /** `trace` lists the critical sections of all breakers in the order of their times; `invoked`
      counts the calls of the wrapped function. */
  datatype Sys = Sys(calls: map<nat, Call>, breakers: map<Key, B.Breaker>, ledger: Ledger, clock: int,
                     trace: seq<Stamp>, invoked: nat)

  const INITIAL := Sys(map[], map[], EMPTY, 0, [], 0)

  function BreakerOf(s: Sys, k: Key): B.Breaker {
    if k in s.breakers then s.breakers[k] else B.FRESH
  }

  /** Whether the action asks for admission and gets it. */
  predicate Allowed(u: Setup, s: Sys, c: Call, a: Action) {
    var k := GuardOf(u, c.op, c.useContext);
    a.Enter? && (k.None? || B.AllowCall(SettingsOf(u, k.value), BreakerOf(s, k.value), a.at).1)
  }

  /** The critical section, if any, that an action of operation `c` runs. */
  function StampOf(u: Setup, c: Call, a: Action): Option<Stamp> {
    var k := GuardOf(u, c.op, c.useContext);
    if k.None? then None
    else if a.Enter? then Some(Stamp(k.value, B.Admit(a.at)))
    else if a.Leave? && c.pc.Leaving? then Some(Stamp(k.value, B.Record(c.pc.err.None?, a.at)))
    else None
  }

  function Stamped(u: Setup, s: Sys, stamp: Option<Stamp>): Sys {
    if stamp.None? then s
    else
      var Stamp(k, e) := stamp.value;
      s.(breakers := s.breakers[k := B.Step(SettingsOf(u, k), BreakerOf(s, k), e)],
         trace := s.trace + [stamp.value], clock := e.at)
  }

  /** Time does not run backwards, and an operation only does what it has come to. */
  predicate Enabled(s: Sys, a: Action) {
    if a.Begin? then a.id !in s.calls
    else if a.ResetBreaker? then s.clock <= a.at
    else a.id in s.calls && Ready(s.calls[a.id], a) && (a.Enter? || a.Leave? ==> s.clock <= a.at)
  }

  function Apply(u: Setup, s: Sys, a: Action): Sys
    requires Enabled(s, a)
  {
    if a.Begin? then s.(calls := s.calls[a.id := Call(a.op, a.useContext, Entering, 0, [], Pending)])
    else if a.ResetBreaker? then Stamped(u, s, Some(Stamp(a.key, B.ResetAll(a.at))))
    else
      var c := s.calls[a.id];
      Stamped(u, s, StampOf(u, c, a)).(
        calls := s.calls[a.id := Advance(u, c, a, Allowed(u, s, c, a))],
        ledger := Book(u, s.ledger, c, a),
        invoked := s.invoked + if a.Invoke? then 1 else 0)
  }

  /** The system after any sequence of actions; an action out of turn changes nothing. */
  function Exec(u: Setup, actions: seq<Action>): Sys {
    if actions == [] then INITIAL
    else
      var s, a := Exec(u, actions[..|actions| - 1]), actions[|actions| - 1];
      if Enabled(s, a) then Apply(u, s, a) else s
  }

  lemma ExecSnoc(u: Setup, actions: seq<Action>, a: Action)
    ensures var s := Exec(u, actions); Exec(u, actions + [a]) == if Enabled(s, a) then Apply(u, s, a) else s
  {
    assert (actions + [a])[..|actions|] == actions;
  }

  /** The critical sections of one breaker. */
  function Project(trace: seq<Stamp>, k: Key): seq<B.Event> {
    if trace == [] then []
    else
      var before, last := Project(trace[..|trace| - 1], k), trace[|trace| - 1];
      if last.key == k then before + [last.event] else before
  }
}
