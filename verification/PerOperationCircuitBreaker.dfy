/** The registry object of per_operation_circuit_breaker.go and the breakers it owns. */
module PerOperationCircuitBreakers {
  import opened Types
  import opened Errors
  import opened CircuitBreakers
  import B = Breaker
  import R = Registry

  class PerOperationCircuitBreaker {
    const settings: B.Settings
    var breakers: map<Operation, CircuitBreaker>
    ghost var states: R.Breakers  // what the breakers amount to
    ghost var Repr: set<object>

    /** Every breaker belongs to one operation, so distinct operations hold distinct breakers. */
    ghost predicate Valid()
      reads this, Repr
      ensures Valid() ==> this in Repr
    {
      && this in Repr
      && states.Keys == breakers.Keys
      && forall op :: op in breakers ==>
                        var cb := breakers[op];
                        cb in Repr && cb.settings == settings && cb.operation == Some(op) && states[op] == cb.Value()
    }

    constructor (config: Option<B.Settings>)
      ensures Valid() && Repr == {this} && states == map[] && breakers == map[]
      ensures settings == if config.None? then B.Settings(5, 2, 60_000_000_000) else config.value
    {
      settings := if config.None? then B.DEFAULT_SETTINGS else config.value;
      breakers := map[];
      states, Repr := map[], {this};
    }

    /** The read-locked lookup. */
    method LookUp(op: Operation) returns (cb: CircuitBreaker?)
      requires Valid()
      ensures cb == if op in breakers then breakers[op] else null
    {
      cb := null;
      if op in breakers {
        cb := breakers[op];
      }
    }

    /** The write-locked section, entered after a lookup that missed. Whatever has happened since,
        an installed breaker is returned and not replaced. */
    method Install(op: Operation) returns (cb: CircuitBreaker)
      requires Valid()
      modifies this`breakers, this`Repr, this`states
      ensures Valid() && forall o :: o in Repr ==> o in old(Repr) || fresh(o)
      ensures op in breakers && breakers[op] == cb
      ensures breakers == if op in old(breakers) then old(breakers) else old(breakers)[op := cb]
      ensures op !in old(breakers) ==> fresh(cb)
      ensures states == old(states)[op := R.Get(old(states), op)]
    {
      if op in breakers {
        cb := breakers[op];
      } else {
        cb := new CircuitBreaker(settings, Some(op));
        breakers := breakers[op := cb];
        Repr := Repr + {cb};
      }
      states := states[op := R.Get(states, op)];
    }

    method GetCircuitBreaker(op: Operation) returns (cb: CircuitBreaker)
      requires Valid()
      modifies this`breakers, this`Repr, this`states
      ensures Valid() && forall o :: o in Repr ==> o in old(Repr) || fresh(o)
      ensures op in breakers && breakers[op] == cb
      ensures breakers == if op in old(breakers) then old(breakers) else old(breakers)[op := cb]
      ensures states == old(states)[op := R.Get(old(states), op)]
    {
      var found := LookUp(op);
      if found != null {
        states := states[op := R.Get(states, op)];
        return found;
      }
      cb := Install(op);
    }

    method AdmitTo(op: Operation, cb: CircuitBreaker, now: int) returns (allowed: bool)
      requires Valid() && op in breakers && breakers[op] == cb
      modifies this`states, cb
      ensures Valid()
      ensures var (b, a) := B.AllowCall(settings, old(states)[op], now);
              allowed == a && states == old(states)[op := b]
    {
      allowed := cb.AllowCall(now);
      states := states[op := cb.Value()];
    }

    /** One critical section of the breaker of `op`: no other operation's breaker moves. */
    method Admit(op: Operation, now: int) returns (allowed: bool)
      requires Valid()
      modifies Repr
      ensures Valid() && forall o :: o in Repr ==> o in old(Repr) || fresh(o)
      ensures op in breakers
      ensures states == R.Step(settings, old(states), R.On(op, B.Admit(now)))
      ensures allowed == B.AllowCall(settings, R.Get(old(states), op), now).1
    {
      var cb := GetCircuitBreaker(op);
      allowed := AdmitTo(op, cb, now);
      assert states == old(states)[op := B.AllowCall(settings, R.Get(old(states), op), now).0];
    }

    method Record(op: Operation, err: Option<Error>, now: int)
      requires Valid() && op in breakers
      modifies Repr
      ensures Valid() && Repr == old(Repr)
      ensures states == R.Step(settings, old(states), R.On(op, B.Record(err.None?, now)))
    {
      var cb := breakers[op];
      cb.RecordResult(err, now);
      states := states[op := cb.Value()];
    }

    /** One call that no other overlaps: `outcome` is what the guarded function returns. */
    method Call(op: Operation, outcome: Option<Error>, start: int, end: int) returns (err: Option<Error>)
      requires Valid()
      modifies Repr
      ensures Valid() && forall o :: o in Repr ==> o in old(Repr) || fresh(o)
      ensures var (entered, allowed) := B.AllowCall(settings, R.Get(old(states), op), start);
              if allowed then
                && err == outcome
                && states == old(states)[op := B.RecordResult(settings, entered, outcome.None?, end)]
              else
                err == Some(CIRCUIT_OPEN) && states == old(states)[op := entered]
    {
      var allowed := Admit(op, start);
      if !allowed {
        return Some(CIRCUIT_OPEN);
      }
      Record(op, outcome, end);
      R.AdmitThenRecord(settings, old(states), op, start, outcome.None?, end);
      err := outcome;
    }

    method ResetOperation(op: Operation)
      requires Valid()
      modifies Repr
      ensures Valid() && Repr == old(Repr)
      ensures forall now :: states == R.Step(settings, old(states), R.On(op, B.ResetAll(now)))
    {
      var cb := LookUp(op);
      if cb != null {
        ResetBreaker(op, cb);
      }
    }

    method ResetBreaker(op: Operation, cb: CircuitBreaker)
      requires Valid() && op in breakers && breakers[op] == cb
      modifies this`states, cb
      ensures Valid() && states == old(states)[op := B.Reset(old(states)[op])]
    {
      cb.Reset();
      states := states[op := cb.Value()];
    }

    /** Resets every breaker, in whatever order the map is walked. */
    method Reset()
      requires Valid()
      modifies Repr
      ensures Valid() && Repr == old(Repr)
      ensures forall now :: states == R.Step(settings, old(states), R.ResetEvery(now))
    {
      var left := breakers.Keys;
      ghost var was := states;
      while left != {}
        invariant Valid() && Repr == old(Repr) && breakers == old(breakers) && left <= breakers.Keys
        invariant forall op :: op in breakers ==>
          states[op] == if op in left then was[op] else B.Reset(was[op])
        decreases left
      {
        var op :| op in left;
        ResetBreaker(op, breakers[op]);
        left := left - {op};
      }
    }
  }
}
