# Verification of retryfs

A Dafny model of the resilience engine of retryfs, with proofs about whole runs of it: the circuit
breaker that concurrent callers share, the retry loop it guards, the registry of per-operation
breakers, the context-aware loop, the backoff arithmetic, the metrics ledger and the default error
classifier. `dafny verify dfyconfig.toml` checks everything.

## How the model is built

The objects of the program are classes whose methods change fields step by step: `CircuitBreaker`,
`PerOperationCircuitBreaker`, `OperationMetrics`, `Metrics` and `RetryFS` with its loops. Each method
is proved equal to a specification function on values, and the theorems are about those functions.
The wrapped filesystem function is an oracle that answers an error, or none, for each call; the
random generator is an adversary drawing from [-1, 1); the clock is a number read inside the lock.

| specification | source | modules |
|---|---|---|
| breaker: `SetState`, `AllowCall`, `OnSuccess`, `OnFailure`, `RecordResult`, `Reset`, and `Run` over any interleaving of these critical sections | circuit_breaker.go:92-202 | `Breaker`, class in `CircuitBreakers` |
| registry: `Step`, `Run`, `Project`; creation by lookup and install: `Act` | per_operation_circuit_breaker.go:41-126 | `Registry`, class in `PerOperationCircuitBreakers` |
| ledger: `RecordAttempt`, `RecordSuccess`, `RecordFailure` | types.go:117-181 | `Ledger`, classes in `MetricsObjects` |
| delays: `Nominal`, `Spread`, `Delay` | retryfs.go:104-141 | `Backoff` |
| loops in closed form: `Loop`, built on `CallCount`, `NoticesOf`, `SleepsOf`, `Settled`; under a context `CancellableLoop`, built on `FirstStop` | retryfs.go:143-170, 191-253, context.go:22-85 | `RetryLoop`, `ContextLoop`, class in `RetryFileSystem` |
| one whole operation: `Retry`, `RetryContext`, `Wrap` | retryfs.go:172-189, 255-274, context.go:11-20, 87-106 | `WholeOperation`, class in `RetryFileSystem` |
| classifier: `Classify` over chains of singly wrapped errors | errors.go:13-186 | `Errors` |
| everything together: any number of operations interleaved at their atomic steps, with cancellation and resets as adversaries: `Advance`, `Apply`, `Exec` | retryfs.go:173-253, context.go:12-85, circuit_breaker.go:76-202 | `System` |

`Breaker.Run` interleaves the sections of one breaker; `System.Exec` interleaves whole operations.
`SystemInvariants.EveryBreakerStandsAlone` joins the two: inside any run of the system every breaker
is the one its own sections leave, so all that is proved about one breaker holds there.
`SystemRuns.SerialRunIsSequential` joins the system with the sequential specification to which the class
`RetryFS` is proved: every run in which one operation acts alone, cancelled anywhere or not at all, is
that specification. `Simulation.SerialRetry` and `Simulation.SerialRetryWithContext` join the objects with
the system: what a method of `RetryFS` does to metrics and breakers, a serial run of the system that
represents the object does, with the same breaker asked. `SystemStorm.SystemStormIsStorm` and `SystemStormReached.EveryStormIsASystemRun` say
that storms of breaker events and runs of the system against a dead backend are the same thing.

## Where code and documentation disagree

The model follows the code. Paths, README.md among them, are those of the retryfs repository.

- Half-open is documented as a single test request (README.md:45, circuit_breaker.go:112). The code
  admits every caller of a half-open period: `BreakerHistory.HalfOpenAdmitsEveryone`. A single request
  is all there is exactly when nobody else asks, `BreakerHistory.SingleProbeIff`;
  `BreakerHistory.SeveralProbes` is a run with two in flight. This is why the retry-storm bound has the
  factor `cap`.
- INTEGRATION_TESTING.md:710 says that permanent errors do not count for the breaker. They do, and so
  does the error of a cancelled context: `WholeOperation.EveryErrorTrips` and
  `WholeOperation.PermanentErrorTrips`.
- types.go:67 calls MaxDelay the maximum delay. With jitter the ceiling is (1 + jitter) * MaxDelay;
  `Backoff.MaxDelayIsCeilingIff` says exactly when MaxDelay itself is one, and
  `Backoff.MaxDelayIsExceeded` is a policy that exceeds it.
- A policy literal without MaxDelay, as the documentation shows for single operations, never sleeps
  (`Backoff.UnsetMaxDelayNeverSleeps`); a policy never sleeps exactly when its MaxDelay or its BaseDelay
  is 0 (`Backoff.NeverSleepsIff`).
- BEST_PRACTICES.md:407-411 asks whether the error of an operation is ErrCircuitOpen. An operation that
  returns a result and is refused reports the zero value and no error at all:
  `WholeOperation.WrapperReportsIff` has the exact condition and `WholeOperation.RefusalIsLost` an input.
  Under a context the context's error can get lost as well: `WholeOperation.ContextWrapperReportsIff` and
  `WholeOperation.UntriedContextWrapperReportsIff` say exactly when it is kept,
  `WholeOperation.ContextErrorIsLost` shows two inputs for which it is not.
- The success threshold is documented as a number of successes needed to close (README.md:43).
  Successes that arrive late, while the breaker is still open, count towards it:
  `BreakerHistory.ExactRecovery` has the number, `BreakerHistory.DocumentedRecoveryIff` says exactly when
  it is the documented one, and `BreakerHistory.LateSuccessIsReachable` is a run for which it is not.
  With serial callers there are no late successes.
- MaxAttempts counts the first try (types.go:63). With MaxAttempts <= 0 there is no call, a failure is
  recorded and no error is returned (`RetryLoop.NoAttempts`). The failure total then exceeds the sum over
  the operations by exactly these failures (`SystemInvariants.TotalsMeetBreakdowns`), so the totals agree
  with the breakdowns in every run exactly if every policy allows an attempt
  (`SystemInvariants.AlwaysBalancedIff`).

## Model

Rows marked (direct), and those that show an input, follow from the definitions without further proof; they
are listed because the source or its documentation promises what they state or deny.

| member | source | states |
|---|---|---|
| SystemStorm.RetryStormBound | circuit_breaker.go:76-170 | whole system, any interleaving, other breakers free to do as they like: if all that lies behind one breaker fails, with at most cap operations in flight there, the wrapped function has been called there at most (threshold + cap - 1 + cap * floor((now - t0) / timeout)) * MaxAttempts times, t0 being the first opening |
| SystemStormReached.RetryStormBoundIsReached | circuit_breaker.go:76-170 | no smaller bound on the calls holds: for every setup, retried error, cap and number of timeouts some run of the whole system reaches it exactly |
| SystemStormReached.EveryStormIsASystemRun | retryfs.go:173-253 | the converse of SystemStormIsStorm: every storm of breaker events from time 0 on is done to the breaker by a run of the system in which each admitted operation spends all its attempts |
| SystemStorm.BurstBound | circuit_breaker.go:154-164 | before the first opening (threshold + cap - 1) * MaxAttempts calls are the most there can be |
| SystemStorm.SystemStormIsStorm | retryfs.go:173-253 | if all that lies behind one breaker fails, the run of the system is a storm of breaker events there: only failures are reported, only by admitted operations, within the cap, in order of time |
| SystemStorm.AllTallied | circuit_breaker.go:76-89 | at every step the admissions and the in-flight number in a breaker's event trace equal the numbers of operations it has let through and that have not yet reported |
| SystemStorm.CallsPerAdmission | retryfs.go:192-240 | operations behind a breaker call the wrapped function at most MaxAttempts times per admission, refused ones never |
| RetryStorm.StormBound | circuit_breaker.go:92-170 | the admissions of any storm through one breaker are at most threshold + cap - 1 + cap * floor((now - t0) / timeout) |
| RetryStorm.StormBoundIsReached | circuit_breaker.go:92-170 | the bound is tight: for every cap and every number of timeouts some storm reaches it exactly |
| RetryStorm.BeforeOpening | circuit_breaker.go:154-164 | until the breaker first opens each report is one consecutive error, fewer than the threshold |
| RetryStorm.AfterOpening | circuit_breaker.go:101-113 | after the first opening each half-open period admits at most cap callers and the n-th one cannot start before n timeouts have passed |
| SystemRecovery.Recovers | circuit_breaker.go:92-170 | whole system, any interleaving: if from some moment on the backend behind a breaker that is not closed is healthy, with at most cap operations in flight then, whose results may still be anything, the breaker has closed by the time it has recorded more than (cap + 1) * (max(1, threshold) - 1) half-open successes, and is closed for good if cap failures do not open a closed breaker |
| SystemRecovery.FailuresWereInFlight | circuit_breaker.go:76-89 | from that moment on the breaker opens at most as often as it records failures, and records at most as many as there were operations in flight |
| BreakerRecovery.ProbesBeforeClosing | circuit_breaker.go:135-170 | a breaker that has not closed since some event has recorded at most (failures since + 1) * (max(1, threshold) - 1) successes half-open, in any interleaving |
| BreakerRecovery.RecoversForGood | circuit_breaker.go:135-170 | past that number it is closed, if the late failures are fewer than open a closed breaker |
| BreakerRecovery.OpeningsTakeFailures | circuit_breaker.go:153-170 | a breaker opens at most as often as failures are recorded |
| BreakerRecovery.ProbesBoundIsReached | circuit_breaker.go:135-170 | the bound is tight: for every number of callers in flight when the breaker opens some run in which they all fail late records that many half-open successes without closing |
| BreakerHistory.CountersEqualHistory | circuit_breaker.go:134-202 | in every interleaving consecutiveErrors is the number of failures since the last success or Reset, consecutiveSuccess is 0 when closed and else the number of successes since the last failure, and a closed breaker is below its threshold |
| BreakerHistory.LastFailureEqualsHistory | circuit_breaker.go:154-157 | lastFailureTime is the time of the latest recorded failure, and a breaker that is not closed has one |
| BreakerHistory.ThresholdsAreExact | circuit_breaker.go:134-202 | the breaker opens exactly when a failure completes a streak of the threshold length (or hits half-open), closes exactly on Reset or when a half-open success completes a success streak |
| BreakerHistory.AdmissionByHistory | circuit_breaker.go:92-118 | a caller is refused exactly while the breaker is open and the latest failure of the history is less than the timeout ago |
| BreakerHistory.FailFastWindow | circuit_breaker.go:101-170 | after a failure at t that leaves the breaker open nobody is admitted before t + timeout without a Reset, whatever late results arrive |
| BreakerHistory.StaysOpen | circuit_breaker.go:134-170 | through that window the breaker stays open, and late failures can only move the window's end further out |
| BreakerHistory.FlapGap | circuit_breaker.go:101-106 | two transitions from open to half-open are at least the timeout apart in every concurrent run, with late results and Resets |
| BreakerHistory.FlapRate | circuit_breaker.go:101-106 | n + 1 such transitions span at least n timeouts |
| BreakerHistory.AnnouncesItsChange | circuit_breaker.go:173-192 | every critical section announces at most one change, the one it made, and only a legitimate cause makes it; open to closed takes a Reset |
| BreakerHistory.ChangesFormAPath | circuit_breaker.go:173-192 | the announced changes start from closed, chain end to start, never repeat a state and end at the current state |
| BreakerHistory.SerialCallsAreRuns | circuit_breaker.go:76-89 | serial calls are runs of critical sections: one admission each, and a report exactly after the admitted ones |
| BreakerHistory.KnockingChangesNothing | circuit_breaker.go:76-81 | any number of serial calls inside the window leaves an open breaker exactly as it was, and the first one past the window is admitted |
| BreakerHistory.ExactTrip | circuit_breaker.go:153-164 | from any reachable closed breaker exactly threshold - errors serial failing calls open it, no fewer |
| BreakerHistory.ExactRecovery | circuit_breaker.go:135-145 | from an open breaker past its timeout exactly max(1, threshold - late successes) serial successful calls close it, with both counters 0 |
| BreakerHistory.SerialOpenHasNoSuccesses | circuit_breaker.go:135-151 | with serial callers there are no late successes, so the documented threshold is exact |
| BreakerHistory.DocumentedRecoveryIff | circuit_breaker.go:135-145 | fewer successes than the threshold never close a reachable open breaker exactly when none has been recorded since the last failure, or the threshold is at most one |
| BreakerHistory.LateSuccessIsReachable | circuit_breaker.go:135-151 | a run of two callers that leaves an open breaker with a late success, so that one success closes it although the threshold is two |
| BreakerHistory.HalfOpenAdmitsEveryone | circuit_breaker.go:111-113 | a half-open period lasts exactly until a failure, a Reset or the success that completes the threshold, and throughout it every caller that arrives is admitted, after first successes too |
| BreakerHistory.SingleProbeIff | circuit_breaker.go:111-113 | the documented single test call is met over a half-open period exactly when nobody else asks |
| BreakerHistory.SeveralProbes | circuit_breaker.go:111-113 | a run with two probes in flight and a third after the first success |
| CircuitBreakers.CircuitBreaker.constructor | per_operation_circuit_breaker.go:59-71 | a breaker made from given settings is closed, with zero counters and an empty log |
| CircuitBreakers.CircuitBreaker.Default | circuit_breaker.go:59-66 | the default breaker needs 5 failures to open and 2 successes to close, waits 60 seconds, and starts closed with zero counters |
| CircuitBreakers.CircuitBreaker.SetState | circuit_breaker.go:173-192 | the object moves as the state machine does: counters cleared on closing only, one change announced unless the state is the same |
| CircuitBreakers.CircuitBreaker.AllowCall | circuit_breaker.go:92-118 | the object answers and moves as the state machine's admission |
| CircuitBreakers.CircuitBreaker.Call | circuit_breaker.go:76-89 | one whole call of a serial caller: inside the window of an open breaker it gets the circuit-open error and leaves every field as it was; otherwise it returns the outcome and the breaker has run one admission and one report |
| CircuitBreakers.CircuitBreaker.OnSuccess | circuit_breaker.go:135-151 | the object counts a success as the state machine does, in each of the three states |
| CircuitBreakers.CircuitBreaker.OnFailure | circuit_breaker.go:154-170 | the object counts a failure as the state machine does, in each of the three states |
| CircuitBreakers.CircuitBreaker.RecordResult | circuit_breaker.go:121-132 | every error counts as a failure, no error as a success |
| CircuitBreakers.CircuitBreaker.Reset | circuit_breaker.go:195-202 | closed with zero counters, keeping the time of the last failure |
| Registry.EachRunsAlone | per_operation_circuit_breaker.go:78-126 | after any interleaving over any operations the breaker of each is the one its own events leave when run alone, with a registry-wide Reset as one Reset of each existing breaker |
| Registry.OthersDoNotInterfere | per_operation_circuit_breaker.go:78-81 | two runs with the same events of one operation leave its breaker in the same state, whatever others do |
| Registry.DoubleCheckedCreation | per_operation_circuit_breaker.go:41-75 | under every interleaving of lookups and installs two callers hold the same breaker exactly when they asked for the same operation, it is the installed one, and it is never replaced |
| Registry.EveryCallerIsServed | per_operation_circuit_breaker.go:41-75 | a caller that has arrived, looked up and, after a miss, installed holds the installed breaker of the operation it asked for, whatever others do in between |
| Registry.NeverReplaced | per_operation_circuit_breaker.go:54-57 | what is installed at one moment of a run is installed at every later one |
| PerOperationCircuitBreakers.PerOperationCircuitBreaker.constructor | per_operation_circuit_breaker.go:24-37 | a new registry has no breakers; without a configuration it uses 5 failures, 2 successes and 60 seconds |
| PerOperationCircuitBreakers.PerOperationCircuitBreaker.LookUp | per_operation_circuit_breaker.go:42-48 | the installed breaker, or none |
| PerOperationCircuitBreakers.PerOperationCircuitBreaker.Install | per_operation_circuit_breaker.go:51-74 | whatever happened since the lookup: an installed breaker is returned and kept, a missing one is allocated fresh and only its entry is new |
| PerOperationCircuitBreakers.PerOperationCircuitBreaker.GetCircuitBreaker | per_operation_circuit_breaker.go:41-75 | returns the breaker that is then installed for the operation and changes no other entry |
| PerOperationCircuitBreakers.PerOperationCircuitBreaker.Admit | per_operation_circuit_breaker.go:78-81 | admission through the registry is one step of the registry machine: distinct operations hold distinct objects, so no other breaker moves |
| PerOperationCircuitBreakers.PerOperationCircuitBreaker.Record | per_operation_circuit_breaker.go:78-81 | the same for the result |
| PerOperationCircuitBreakers.PerOperationCircuitBreaker.Call | per_operation_circuit_breaker.go:78-81 | one whole call of a serial caller changes the operation's own breaker and nothing else |
| PerOperationCircuitBreakers.PerOperationCircuitBreaker.ResetOperation | per_operation_circuit_breaker.go:118-126 | resets the operation's breaker if there is one, creates none |
| PerOperationCircuitBreakers.PerOperationCircuitBreaker.Reset | per_operation_circuit_breaker.go:108-115 | every existing breaker is reset, in whatever order the map is walked |
| RetryLoop.LoopMeetsSpecification | retryfs.go:192-253 | with MaxAttempts >= 1 there are exactly min(MaxAttempts, 1 + index of the first success or permanent error) calls, the last outcome is returned, OnRetry fires for attempts 1 to k - 1 with the previous error, the sleeps are the backoffs before those, the ledger gains k attempts, k - 1 retries and one verdict |
| RetryLoop.RetriesAreObserved | retryfs.go:205-216 | entry by entry: one OnRetry call for each retry, with its number and the error of the attempt before, none without a callback, and before each retry the backoff of its number |
| RetryLoop.OwnPolicyGoverns | types.go:110-115 | an operation with a policy of its own makes the calls that policy prescribes whatever the default is, every other one those of the default policy |
| RetryLoop.CallCountIsLeast | retryfs.go:144-160 | that number of calls exists: it is decided by the first decisive outcome or by MaxAttempts |
| RetryLoop.CallCountIsUnique | retryfs.go:144-160 | (direct) and there is only one such number |
| RetryLoop.EndsHere | retryfs.go:221-239 | the run is over after the first call that is not retried, with the matching verdict |
| RetryLoop.SettledEntries | types.go:150-181 | (direct) entry by entry what the ledger gains from one operation; every other operation's entry is unchanged, one error class gains one on failure |
| RetryLoop.ReturnsLastOutcome | retryfs.go:192-253 | for every policy the returned error is that of the last call made, none without calls |
| RetryLoop.NoAttempts | retryfs.go:197-252 | the function is not called exactly when MaxAttempts <= 0; a failure of the nil error's class is recorded then and no error returned |
| RetryLoop.SleepBound | retryfs.go:209-216 | the completed sleeps of one operation add up to at most (1 + jitter) * min(n * MaxDelay, BaseDelay * (m^n - 1) / (m - 1)), n = MaxAttempts - 1, against every backend |
| RetryFileSystem.RetryFS.RetryWithoutCircuitBreaker | retryfs.go:192-253 | the loop leaves exactly the ledger, OnRetry calls, sleeps, calls and error of the closed form; the loop guard ends it only when no attempt is allowed |
| RetryFileSystem.RetryFS.RetryWithoutCircuitBreakerContext | context.go:23-85 | the same for the context-aware loop, stopped at its first interrupted iteration |
| RetryFileSystem.RetryFS.CalculateBackoff | retryfs.go:106-141 | computes the delay of the backoff specification for every policy, attempt and draw |
| RetryFileSystem.RetryFS.Retry | retryfs.go:173-189 | field by field: behind a registry the operation's own breaker is asked and told, and neither the others nor the global one move; without one the global breaker is, if there is one; refused inside the window of the open breaker with nothing changed, otherwise exactly the loop runs and the breaker has run one admission and one report of its error |
| RetryFileSystem.RetryFS.RetryWithContext | context.go:12-20 | field by field the same for the context path, which only ever asks the global breaker |
| RetryFileSystem.RetryFS.RetryWithResult | retryfs.go:256-274 | returns the whole answer of the last call made, value and error, or the zero value and no error if none was made |
| RetryFileSystem.RetryFS.RetryWithResultContext | context.go:88-106 | the same under a context |
| ContextLoop.CancellationRefines | context.go:27-76 | under any context the calls are the first m of the k calls of the uncancelled run, at most the last of them starts after the context is done and none after a check that finds it done, attempts and OnRetry calls exceed the calls by one exactly if the stop is taken in a backoff, and a stopped operation records its attempts, neither success nor failure, and returns the context's error |
| ContextLoop.FinishesIff | context.go:28-56 | the operation runs to its end exactly when none of its checks and backoffs takes the stop |
| ContextLoop.NeverDoneIsPlain | context.go:23-85 | under a context that is never done the loop is the plain loop, for every policy |
| ContextLoop.StopsHere | context.go:29-54 | an interrupted iteration that is reached stops the run there, before or after recording its attempt |
| ContextLoop.ReturnsLastOutcomeOrStop | context.go:23-85 | a finished run returns its last outcome, a stopped one the context's error |
| WholeOperation.ContextPathEqualsPlainPath | context.go:12-85 | behind the same guard and under a context that is never done: same error, calls, OnRetry calls, sleeps, ledger and breaker |
| WholeOperation.RejectionIsInvisible | retryfs.go:173-189 | (direct) an operation is refused exactly by an open breaker inside its timeout, and then calls nothing, records nothing and leaves the breaker as it was |
| WholeOperation.EveryErrorTrips | circuit_breaker.go:121-170 | (direct) every error of an admitted operation, the context's own included, counts as one breaker failure: it opens a closed breaker at its threshold and reopens a half-open one at once |
| WholeOperation.PermanentErrorTrips | circuit_breaker.go:121-170 | (direct) a permanent error ends the operation after one call under every policy, and that counts as one breaker failure in every state |
| WholeOperation.WrapperReturnsLastAnswer | retryfs.go:256-274 | an admitted operation hands out the answer of the last of its k calls, value and error; a refused one and one without attempts the zero value and no error |
| WholeOperation.ContextWrapperReturnsLastAnswer | context.go:88-106 | under a context the same, and an operation stopped in iteration m hands out the answer of the call before, or the zero value and no error in the first |
| WholeOperation.WrapperReportsIff | retryfs.go:256-274 | the wrapper reports the error of retry exactly when the operation is admitted; a refused one yields the zero value and no error |
| WholeOperation.RefusalIsLost | retryfs.go:256-274 | an input: right after the failure that opens the breaker the next operation is refused and its wrapper reports no error |
| WholeOperation.ContextWrapperReportsIff | context.go:88-106 | with MaxAttempts >= 1 the wrapper reports the error of retryWithContext exactly when the operation is admitted and the first iteration in which the context takes a stop, if any, follows a call that answered the context's own error |
| WholeOperation.UntriedContextWrapperReportsIff | context.go:88-106 | (direct) with MaxAttempts <= 0 exactly when it is admitted |
| WholeOperation.ContextErrorIsLost | context.go:88-106 | two inputs: a context done at the second check yields the first call's error, one done from the start no error at all |
| SystemDispatch.EveryOperationAsksItsBreaker | retryfs.go:173-189 | in every run each breaker has been asked once by every plain operation of its own name behind a registry, the global one once by every other operation, and told once by each of those that it let through and that is done; nobody else asks or tells it anything, and an operation without a breaker to ask is never refused |
| SystemDispatch.SectionOfAction | context.go:12-20 | (direct) an operation enters and leaves through one section of the one breaker it is to ask, or through none: its own behind a registry on the plain path, the global one otherwise and always under a context |
| SystemDispatch.BreakersRunUnderTheirSettings | per_operation_circuit_breaker.go:59-64 | in every run the global breaker is the run of its own sections under the global settings, every other one under those of the registry |
| SystemDispatch.ResetClosesItsBreaker | circuit_breaker.go:195-202 | (direct) a reset at any moment of any run closes its breaker with zero counters, keeps the time of the last failure, and touches nothing else |
| Simulation.SerialRetry | retryfs.go:173-189 | whatever Retry of the object does, the system that represents it can do in a serial run of a plain operation, after which it represents the object again: same error, metrics, calls and breakers |
| Simulation.SerialRetryWithContext | context.go:12-20 | the same for RetryWithContext and an operation under a context |
| SystemInvariants.OperationsMeetLoopSpecification | context.go:23-85 | whatever else is interleaved, a finished operation has made exactly the calls the loop specification prescribes and returns the last outcome; those of a cancelled one are a proper prefix of the uncancelled run's, with at most one attempt more, a retry; a refused one has done nothing |
| SystemInvariants.AllSound | retryfs.go:197-252 | the invariant behind it, at every program point of every operation of every run |
| SystemInvariants.EveryBreakerStandsAlone | per_operation_circuit_breaker.go:78-81 | in every run of the system each breaker, global or per operation, is in the state its own critical sections leave when run alone in the order of their times |
| SystemInvariants.LedgerConservation | types.go:150-181 | at every step attempts - retries = successes + failures of attempted operations + operations running past their first attempt + operations cancelled after it, and attempts = function calls + operations whose latest attempt has not called |
| SystemInvariants.ConservationAtRest | types.go:150-181 | at rest and without cancellations attempts - retries = successes + failures and attempts = function calls; refused operations appear nowhere |
| SystemInvariants.TotalsMeetBreakdowns | types.go:150-181 | at every step of every run, for all policies: attempts, retries and successes are the sums over the operations, failures are the sum over the error classes, and they exceed the sum over the operations by exactly the failures of operations that were allowed no attempt |
| SystemInvariants.TotalsEqualBreakdownsIff | types.go:150-181 | all totals equal their breakdowns exactly while there is no such failure |
| SystemInvariants.AlwaysBalancedIff | types.go:150-181 | they do so in every run exactly if every policy allows an attempt |
| SystemInvariants.UntriedFailure | types.go:175-181 | the failing input: one operation whose policy allows none |
| SystemInvariants.TotalsEqualBreakdowns | types.go:150-181 | at every step each total is the sum of its field over the operations, and failures are also the sum over the error classes, if every policy allows an attempt |
| SystemRuns.SerialRunIsSequential | context.go:12-85 | every run in which one new operation acts alone until it is done, from every reachable system, cancelled anywhere or not at all, leaves the error, ledger, calls and guarding breaker of the sequential specification, for every backend and context that answer as the run was answered; no other breaker or operation moves |
| SystemRuns.SerialRunIsRetry | retryfs.go:173-253 | the same against the specification of retry for every such run that was not cancelled |
| SystemRuns.EveryRunIsAnswered | context.go:23-85 | every operation that is done has such a backend and such a context, one that stays done |
| SystemRuns.UninterruptedRunIsSequential | context.go:12-85 | conversely, for every backend, context and times of entry and exit there is such a run, all of it the operation's own actions in their turn and answered by them |
| SystemRuns.UninterruptedRunIsRetry | retryfs.go:173-253 | the same for the plain path |
| SystemRuns.RunLoop | context.go:27-84 | from the head of any iteration the operation, acting alone, can run its loop to the end that backend and context allow |
| Ledger.AttemptKeepsBalance | types.go:150-164 | recording an attempt keeps the distance between totals and breakdowns, for known and new operations |
| Ledger.SuccessKeepsBalance | types.go:167-172 | recording a success keeps it exactly when the operation was attempted before |
| Ledger.FailureKeepsBalance | types.go:175-181 | recording a failure keeps it exactly when the operation was attempted before and leaves the operations one failure short otherwise; the breakdown by error class stays exact in any case |
| MetricsObjects.Metrics.RecordAttempt | types.go:150-164 | the heap of counters follows the ledger: distinct operations own distinct counters, created on the first attempt |
| MetricsObjects.Metrics.RecordSuccess | types.go:167-172 | the same for a success |
| MetricsObjects.Metrics.RecordFailure | types.go:175-181 | the same for a failure and its class |
| Backoff.NominalOfPolicy | retryfs.go:111-123 | (direct) the uncapped delay is BaseDelay before the first retry and grows by the policy's own multiplier, or doubles if that is not positive; the nominal one is the lesser of it and MaxDelay |
| Backoff.JitterIsExact | retryfs.go:125-140 | (direct) with jitter j and draw r the delay is (1 + r * j) times the nominal one, at least 0, truncated; none before attempt 1 |
| Backoff.JitterReaches | retryfs.go:125-133 | every delay strictly inside the jitter band is slept for some draw |
| Backoff.ShapeWithoutJitter | retryfs.go:111-123 | without jitter and with m >= 1 the delay is min(MaxDelay, BaseDelay * m^(a-1)) truncated, nondecreasing in a, and MaxDelay from the attempt that reaches the cap |
| Backoff.JitterBand | retryfs.go:125-140 | with jitter j the delay is within (1 - j) and (1 + j) times that, up to truncation, and never negative |
| Backoff.TrueCeiling | retryfs.go:120-140 | (1 + j) * MaxDelay is a ceiling for every draw |
| Backoff.MaxDelayIsCeilingIff | types.go:67-71 | MaxDelay is a ceiling for every draw exactly when (1 + j) times the nominal delay is at most MaxDelay plus the nanosecond truncation removes |
| Backoff.DefaultPolicyBacksOff | types.go:77-83 | an input: the default policy allows five attempts, 100, 200, 400 and 800 milliseconds apart before a jitter of a quarter |
| Backoff.MaxDelayIsExceeded | types.go:67-83 | an input: the default policy with twelve attempts can sleep 33.75 seconds before a retry, more than its MaxDelay of 30 |
| Backoff.UnsetMaxDelayNeverSleeps | retryfs.go:120-123 | with MaxDelay 0 every delay is 0 |
| Backoff.NeverSleepsIff | retryfs.go:106-141 | a policy never sleeps, for any attempt and draw, exactly when its MaxDelay or its BaseDelay is 0 |
| Backoff.UncappedTotalIsGeometric | retryfs.go:111-118 | the uncapped delays sum to the geometric series exactly |
| Backoff.UncappedRunSleepsGeometric | retryfs.go:106-141 | a run without jitter whose delays stay below the cap sleeps that series, but for less than a nanosecond a delay |
| Backoff.BelowGeometric | retryfs.go:106-141 | n delays add up to at most (1 + j) times the sum of the uncapped ones, for every multiplier |
| Backoff.BelowCaps | retryfs.go:106-141 | n delays add up to at most (1 + j) * n * MaxDelay, for every multiplier |
| Backoff.TotalBackoffBound | retryfs.go:106-141 | n delays add up to at most (1 + j) * min(n * MaxDelay, BaseDelay * (m^n - 1) / (m - 1)), whatever is drawn |
| Errors.SeesThroughLayers | errors.go:53-62 | wrapping an error in any number of path and link errors never changes its class |
| Errors.SeesThroughWrappers | errors.go:53-62 | (direct) one such layer never does |
| Errors.ClassifyCharacterised | errors.go:14-73 | the classifier in closed form: package-level errors anywhere in the chain decide, then system call numbers anywhere, then the first network error of the chain or of what lies beneath a wrapper jumped to, if transient; else the class comes from the message beneath the innermost path or link wrapper and nothing else |
| Errors.KnownErrorsDecide | errors.go:19-37 | a package-level error at the bottom of a chain makes it permanent or retryable by itself, five of them permanent and three retryable, however it is wrapped |
| Errors.SyscallsDecide | errors.go:76-131 | and so does each listed system call number, eleven permanent and twelve retryable; all others leave it unknown |
| Errors.PatternsDecide | errors.go:134-186 | a text is retryable exactly when one of the fourteen retryable patterns occurs in its lower-case form, permanent exactly when one of the fourteen permanent ones and no retryable one does |
| Errors.TextDecides | errors.go:64-73 | an error that wraps nothing but plain errors is classified by the text of its outermost layer, a single network error by what it says of itself and else by its text |
| Errors.AsFindsTheFirst | errors.go:39-62 | errors.As finds the first error of the chain that is wanted, and none exactly if none is |
| Errors.IsLooksEverywhere | errors.go:20-36 | errors.Is holds exactly if some error of the chain answers it |
| Errors.LowerFolds | errors.go:135 | (direct) the text is folded letter by letter, capitals to small letters and nothing else |
| Errors.ContainsIff | errors.go:155-159 | a pattern is found exactly where the text has it as a substring |
| Errors.JumpKeeps | errors.go:53-62 | jumping to the wrapper that errors.As finds skips nothing the other stages look for |

## Left out

- The forwarding filesystem methods, the symlink fallbacks and the wrapped filesystem: the wrapped function is an oracle.
- Prometheus, logging, the examples, GetState, GetStats, GetAllStates and GetAllStats: reporting only.
- When OnStateChange callbacks run: each is started in a goroutine, so only the order in which changes are announced under the lock is modelled.
- Floating-point rounding, NaN and infinities, and 64-bit overflow: delays are reals truncated at the end, counters are unbounded integers.
- The quality of the random generator, real sleeping and the wall clock: draws are arbitrary and times are numbers that do not decrease in the order of the lock.
- Changing thresholds or policies while operations run, and reads through the pointer that GetMetrics returns: the configuration is fixed and the ledger is written by its three methods.
- Custom Is and As methods other than that of system call numbers, and errors that wrap several others: chains are singly wrapped.
- Lower-casing outside ASCII in the message patterns.
- Adaptive backoff, hedged requests and events, which the README.md of retryfs describes and its code does not have.
- Interleaving of the classes at the level of the heap: the classes are proved one critical section or one serial call at a time, and interleavings are runs on values in Breaker, Registry and System. Breakers and loops are joined in the methods of RetryFS, because a method cannot be passed to another one as the guarded function.
- Registry-wide Reset in System: it is one ResetBreaker action for each breaker there; as one event it is in Registry.
- ContextLoop.CancellationRefines: a select that finds the context done in a backoff may still let the timer win, whenever an adversary chooses so; the timer's own timing is not modelled.
- SystemStorm.RetryStormBound: policies without attempts are excluded behind the breaker in question, since their operations report success to it without having called anything.
- SystemRuns.SerialRunIsSequential: System does not list OnRetry calls and sleeps; they are in RetryLoop and ContextLoop.
- Backoff.TotalBackoffBound: a multiplier of exactly 1 is excluded because the geometric formula divides by m - 1; BelowGeometric and BelowCaps cover it. Negative BaseDelay or MaxDelay is excluded here as in the other shape theorems.
