/** The circuit breaker object. Every method is one critical section, or serves one, and is proved
    against the state machine of module Breaker. */
module CircuitBreakers {
  import opened Types
  import opened Errors
  import B = Breaker
  import H = BreakerHistory

  class CircuitBreaker {
    const settings: B.Settings
    const operation: Option<Operation>  // what the callback of a per-operation breaker adds
    var state: B.State
    var consecutiveErrors: int
    var consecutiveSuccess: int
    var lastFailureTime: int
    var changes: seq<B.Change>

    function Value(): B.Breaker
      reads this
    {
      B.Breaker(state, consecutiveErrors, consecutiveSuccess, lastFailureTime, changes)
    }

    /** The literal with which the registry makes a breaker. */
    constructor (settings: B.Settings, operation: Option<Operation>)
      ensures this.settings == settings && this.operation == operation && Value() == B.FRESH
    {
      this.settings, this.operation := settings, operation;
      state := B.Closed;
      consecutiveErrors, consecutiveSuccess, lastFailureTime := 0, 0, 0;
      changes := [];
    }

    /** The breaker NewCircuitBreaker returns. */
    constructor Default()
      ensures settings == B.Settings(5, 2, 60_000_000_000) && operation == None && Value() == B.FRESH
    {
      settings, operation := B.DEFAULT_SETTINGS, None;
      state := B.Closed;
      consecutiveErrors, consecutiveSuccess, lastFailureTime := 0, 0, 0;
      changes := [];
    }

    method SetState(newState: B.State)
      modifies this
      ensures Value() == B.SetState(old(Value()), newState)
      ensures state == newState && lastFailureTime == old(lastFailureTime)
      ensures if newState == B.Closed && old(state) != B.Closed then consecutiveErrors == 0 && consecutiveSuccess == 0
              else consecutiveErrors == old(consecutiveErrors) && consecutiveSuccess == old(consecutiveSuccess)
    {
      if state == newState {
        return;
      }
      var oldState := state;
      state := newState;
      if newState == B.Closed {
        consecutiveErrors := 0;
        consecutiveSuccess := 0;
      }
      changes := changes + [B.Change(oldState, newState)];
    }

    method AllowCall(now: int) returns (allowed: bool)
      modifies this
      ensures (Value(), allowed) == B.AllowCall(settings, old(Value()), now)
    {
      match state
      case Closed =>
        allowed := true;
      case Open =>
        if now - lastFailureTime >= settings.timeout {
          SetState(B.HalfOpen);
          allowed := true;
        } else {
          allowed := false;
        }
      case HalfOpen =>
        allowed := true;
    }

    /** One call that no other overlaps: `outcome` is what the guarded function returns. */
    method Call(outcome: Option<Error>, start: int, end: int) returns (err: Option<Error>)
      modifies this
      ensures Value() == H.CallOnce(settings, old(Value()), H.SerialCall(outcome.None?, start, end))
      ensures err == if B.AllowCall(settings, old(Value()), start).1 then outcome else Some(CIRCUIT_OPEN)
      ensures if old(state) == B.Open && start - old(lastFailureTime) < settings.timeout then
                err == Some(CIRCUIT_OPEN) && Value() == old(Value())
              else
                err == outcome
                && Value() == B.Run(settings, old(Value()), [B.Admit(start), B.Record(outcome.None?, end)])
    {
      var allowed := AllowCall(start);
      if !allowed {
        return Some(CIRCUIT_OPEN);
      }
      RecordResult(outcome, end);
      B.RunTwo(settings, old(Value()), B.Admit(start), B.Record(outcome.None?, end));
      err := outcome;
    }

    method OnSuccess()
      modifies this
      ensures Value() == B.OnSuccess(settings, old(Value()))
    {
      consecutiveErrors := 0;
      consecutiveSuccess := consecutiveSuccess + 1;
      match state
      case HalfOpen =>
        if consecutiveSuccess >= settings.successThreshold {
          SetState(B.Closed);
          consecutiveSuccess := 0;
        }
      case Closed =>
        consecutiveSuccess := 0;
      case Open =>
    }

    method OnFailure(now: int)
      modifies this
      ensures Value() == B.OnFailure(settings, old(Value()), now)
    {
      consecutiveSuccess := 0;
      consecutiveErrors := consecutiveErrors + 1;
      lastFailureTime := now;
      match state
      case Closed =>
        if consecutiveErrors >= settings.failureThreshold {
          SetState(B.Open);
        }
      case HalfOpen =>
        SetState(B.Open);
      case Open =>
    }

    method RecordResult(err: Option<Error>, now: int)
      modifies this
      ensures Value() == B.RecordResult(settings, old(Value()), err.None?, now)
    {
      if err.None? {
        OnSuccess();
      } else {
        OnFailure(now);
      }
    }

    method Reset()
      modifies this
      ensures Value() == B.Reset(old(Value()))
    {
      SetState(B.Closed);
      consecutiveErrors := 0;
      consecutiveSuccess := 0;
    }
  }
}
