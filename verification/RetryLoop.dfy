/** What the retry loop of retryfs.go is to do, for every backend, classifier and policy. The loop
    itself is a method of RetryFS and is proved against this. */
module RetryLoop {
  import opened Types
  import opened Errors
  import opened Backoff
  import opened Ledger

  datatype Config = Config(defaultPolicy: Policy, operationPolicies: map<Operation, Policy>,
                           classifier: Option<Error> -> ErrorClass, hasOnRetry: bool)

  function GetPolicy(c: Config, op: Operation): Policy {
    if op in c.operationPolicies then c.operationPolicies[op] else c.defaultPolicy
  }

  function ShouldRetry(c: Config, err: Option<Error>, attempt: int, p: Policy): bool {
    if err.None? then false
    else if attempt >= p.maxAttempts then false
    else
      match c.classifier(err)
      case Permanent => false
      case Retryable => true
      case _ => true
  }

  /** One call of OnRetry. */
  datatype Notice = Notice(op: Operation, attempt: int, err: Option<Error>)

  /** What a run changes: the ledger, the OnRetry calls, the completed sleeps, and the number of
      times the wrapped function has been called. */
  datatype World = World(ledger: Ledger, notices: seq<Notice>, sleeps: seq<int>, calls: nat)

  /** What a run cannot choose: the error of the wrapped function's i-th call in this operation, and
      the delay computed before attempt i. */
  datatype Backend = Backend(outcome: nat -> Option<Error>, backoff: nat -> int)

  /** The delays the policy computes from the draws of the random generator. */
  function Backoffs(p: Policy, draw: nat -> real): nat -> int { (a: nat) => Delay(p, a, draw(a)) }

  function Succeed(op: Operation, w: World): World {
    w.(ledger := RecordSuccess(w.ledger, op))
  }

  function GiveUp(c: Config, op: Operation, w: World, err: Option<Error>): World {
    w.(ledger := RecordFailure(w.ledger, op, c.classifier(err)))
  }

  // ----- The specification -----

  /** A call whose outcome ends the operation by itself: success or a permanent error. */
  predicate Decisive(c: Config, be: Backend, i: nat) {
    be.outcome(i).None? || c.classifier(be.outcome(i)) == Permanent
  }

  /** None of the first `a` calls is decisive. */
  ghost predicate Undecided(c: Config, be: Backend, a: nat) {
    forall i: nat :: i < a ==> !Decisive(c, be, i)
  }

  /** k = min(maxAttempts, 1 + index of the first decisive call). */
  ghost predicate IsCallCount(c: Config, p: Policy, be: Backend, k: nat) {
    && 1 <= k <= p.maxAttempts
    && (k == p.maxAttempts || Decisive(c, be, k - 1))
    && Undecided(c, be, k - 1)
  }

  function CallCount(c: Config, p: Policy, be: Backend, from: nat): nat
    decreases p.maxAttempts - from
  {
    if from + 1 >= p.maxAttempts || Decisive(c, be, from) then from + 1 else CallCount(c, p, be, from + 1)
  }

  lemma {:induction false} CallCountIsLeast(c: Config, p: Policy, be: Backend, from: nat)
    requires from < p.maxAttempts && Undecided(c, be, from)
    ensures from < CallCount(c, p, be, from) && IsCallCount(c, p, be, CallCount(c, p, be, from))
    decreases p.maxAttempts - from
  {
    if from + 1 < p.maxAttempts && !Decisive(c, be, from) {
      CallCountIsLeast(c, p, be, from + 1);
    }
  }

  lemma CallCountIsUnique(c: Config, p: Policy, be: Backend, j: nat, k: nat)
    requires IsCallCount(c, p, be, j) && IsCallCount(c, p, be, k)
    ensures j == k
  {
  }

  /** OnRetry calls for attempts 1 .. k - 1, each with the error of the attempt before it. */
  function NoticesOf(c: Config, op: Operation, be: Backend, k: nat): seq<Notice> {
    if c.hasOnRetry && k > 0 then seq(k - 1, i requires 0 <= i < k - 1 => Notice(op, i + 1, be.outcome(i))) else []
  }

  /** The backoffs before attempts 1 .. k - 1. */
  function SleepsOf(be: Backend, k: nat): seq<int> {
    if k > 0 then seq(k - 1, i requires 0 <= i < k - 1 => be.backoff(i + 1)) else []
  }

  function AddAttempts(n: Counts, k: nat): Counts {
    if k == 0 then n else n.(attempts := n.attempts + k, retries := n.retries + k - 1)
  }

  /** The ledger after the k attempts of one operation: k attempts and k - 1 retries. */
  function Attempts(l: Ledger, op: Operation, k: nat): Ledger {
    if k == 0 then l
    else l.(total := AddAttempts(l.total, k), perOperation := l.perOperation[op := AddAttempts(Of(l, op), k)])
  }

  /** The ledger after k attempts and the verdict on their last outcome. */
  function Settled(c: Config, op: Operation, l: Ledger, k: nat, err: Option<Error>): Ledger {
    if err.None? then RecordSuccess(Attempts(l, op, k), op)
    else RecordFailure(Attempts(l, op, k), op, c.classifier(err))
  }

  /** The world once `a` calls have been made and all of them ended in a retry. */
  function After(c: Config, op: Operation, be: Backend, w: World, a: nat): World {
    World(Attempts(w.ledger, op, a), w.notices + NoticesOf(c, op, be, a), w.sleeps + SleepsOf(be, a), w.calls + a)
  }

  /** The world after the top of iteration `a`: the attempt is recorded and a retry is announced. */
  function Announced(c: Config, op: Operation, be: Backend, w: World, a: nat): World {
    After(c, op, be, w, a).(ledger := Attempts(w.ledger, op, a + 1), notices := w.notices + NoticesOf(c, op, be, a + 1))
  }

  function LastErr(be: Backend, a: nat): Option<Error> { if a == 0 then None else be.outcome(a - 1) }

  lemma OneMoreAttempt(l: Ledger, op: Operation, a: nat)
    ensures RecordAttempt(Attempts(l, op, a), op, a > 0) == Attempts(l, op, a + 1)
  {
    var c, c' := AddAttempts(Of(l, op), a), AddAttempts(Of(l, op), a + 1);
    assert l.perOperation[op := c][op := c'] == l.perOperation[op := c'];
  }

  lemma OneMoreNotice(c: Config, op: Operation, be: Backend, a: nat)
    ensures NoticesOf(c, op, be, a + 1) ==
            NoticesOf(c, op, be, a) + if a > 0 && c.hasOnRetry then [Notice(op, a, LastErr(be, a))] else []
  {
  }

  lemma OneMoreSleep(be: Backend, a: nat)
    ensures SleepsOf(be, a + 1) == SleepsOf(be, a) + if a > 0 then [be.backoff(a)] else []
  {
  }

  /** The world and the error after the last of k calls. */
  function Verdict(c: Config, op: Operation, be: Backend, w: World, k: nat): (World, Option<Error>)
    requires k > 0
  {
    var err := be.outcome(k - 1);
    (After(c, op, be, w, k).(ledger := Settled(c, op, w.ledger, k, err)), err)
  }

  /** What a run of the whole loop leaves and returns. */
  function Loop(c: Config, op: Operation, be: Backend, w: World): (World, Option<Error>) {
    var p := GetPolicy(c, op);
    if p.maxAttempts <= 0 then (GiveUp(c, op, w, None), None)
    else
      CallCountIsLeast(c, p, be, 0);
      Verdict(c, op, be, w, CallCount(c, p, be, 0))
  }

  /** Before its first call a run has left the world as it was; without attempts it gives up there. */
  lemma NothingYet(c: Config, op: Operation, be: Backend, w: World)
    ensures After(c, op, be, w, 0) == w
    ensures GetPolicy(c, op).maxAttempts <= 0 ==> Loop(c, op, be, w) == (GiveUp(c, op, w, None), None)
  {
  }

  lemma StillUndecided(c: Config, op: Operation, be: Backend, a: nat)
    requires Undecided(c, be, a) && ShouldRetry(c, be.outcome(a), a + 1, GetPolicy(c, op))
    ensures Undecided(c, be, a + 1) && a + 1 < GetPolicy(c, op).maxAttempts
  {
  }

  /** A run whose call a is the first that is not retried is over after it. */
  lemma EndsHere(c: Config, op: Operation, be: Backend, w: World, a: nat)
    requires a < GetPolicy(c, op).maxAttempts && Undecided(c, be, a)
    requires !ShouldRetry(c, be.outcome(a), a + 1, GetPolicy(c, op))
    ensures IsCallCount(c, GetPolicy(c, op), be, a + 1)
    ensures var called, err := After(c, op, be, w, a + 1), be.outcome(a);
            Loop(c, op, be, w) == if err.None? then (Succeed(op, called), None) else (GiveUp(c, op, called, err), err)
  {
    var p := GetPolicy(c, op);
    CallCountIsLeast(c, p, be, 0);
    CallCountIsUnique(c, p, be, a + 1, CallCount(c, p, be, 0));
  }

  /** The loop specification: with maxAttempts >= 1 there are exactly
      min(maxAttempts, 1 + index of the first success or permanent error) calls and the last outcome
      is returned; OnRetry fires for attempts 1 .. k - 1 with the previous error; the sleeps are the
      backoffs before those attempts; the ledger gains k attempts, k - 1 retries and one verdict. */
  lemma LoopMeetsSpecification(c: Config, op: Operation, be: Backend, w: World, k: nat)
    requires IsCallCount(c, GetPolicy(c, op), be, k)
    ensures var (w', err) := Loop(c, op, be, w);
            && err == be.outcome(k - 1)
            && w'.calls == w.calls + k
            && w'.notices == w.notices + NoticesOf(c, op, be, k)
            && w'.sleeps == w.sleeps + SleepsOf(be, k)
            && w'.ledger == Settled(c, op, w.ledger, k, err)
  {
    var p := GetPolicy(c, op);
    CallCountIsLeast(c, p, be, 0);
    CallCountIsUnique(c, p, be, k, CallCount(c, p, be, 0));
  }

  /** What the outside sees of it: one OnRetry call for each retry, if there is a callback, with the number
      of the retry and the error of the attempt before it; and before each retry its own backoff. */
  lemma RetriesAreObserved(c: Config, op: Operation, be: Backend, w: World, k: nat)
    requires IsCallCount(c, GetPolicy(c, op), be, k)
    ensures var (w', err) := Loop(c, op, be, w);
            && w.notices <= w'.notices && |w'.notices| == |w.notices| + (if c.hasOnRetry then k - 1 else 0)
            && (forall i :: |w.notices| <= i < |w'.notices| ==>
                  w'.notices[i] == var a := i - |w.notices|; Notice(op, a + 1, be.outcome(a)))
            && w.sleeps <= w'.sleeps && |w'.sleeps| == |w.sleeps| + k - 1
            && (forall i :: |w.sleeps| <= i < |w'.sleeps| ==> w'.sleeps[i] == be.backoff(i - |w.sleeps| + 1))
  {
    LoopMeetsSpecification(c, op, be, w, k);
  }

  /** An operation with a policy of its own runs by that policy, whatever the default one is; all others
      run by the default policy, whatever policies other operations have. */
  lemma OwnPolicyGoverns(c: Config, op: Operation, be: Backend, w: World, k: nat)
    ensures op in c.operationPolicies && IsCallCount(c, c.operationPolicies[op], be, k) ==>
              Loop(c, op, be, w).0.calls == w.calls + k && Loop(c, op, be, w).1 == be.outcome(k - 1)
    ensures op !in c.operationPolicies && IsCallCount(c, c.defaultPolicy, be, k) ==>
              Loop(c, op, be, w).0.calls == w.calls + k && Loop(c, op, be, w).1 == be.outcome(k - 1)
  {
    if IsCallCount(c, GetPolicy(c, op), be, k) {
      LoopMeetsSpecification(c, op, be, w, k);
    }
  }

  /** Whatever the policy, the loop returns the outcome of its last call, or no error without calls. */
  lemma ReturnsLastOutcome(c: Config, op: Operation, be: Backend, w: World)
    ensures var (w', err) := Loop(c, op, be, w);
            w'.calls >= w.calls && err == LastErr(be, w'.calls - w.calls)
  {
    var p := GetPolicy(c, op);
    if p.maxAttempts > 0 {
      CallCountIsLeast(c, p, be, 0);
      LoopMeetsSpecification(c, op, be, w, CallCount(c, p, be, 0));
    }
  }

  /** A policy without attempts never calls the function, yet records a failure and reports none. */
  lemma NoAttempts(c: Config, op: Operation, be: Backend, w: World)
    ensures GetPolicy(c, op).maxAttempts <= 0 <==>
            Loop(c, op, be, w).0.calls == w.calls
    ensures GetPolicy(c, op).maxAttempts <= 0 ==>
              Loop(c, op, be, w) == (w.(ledger := RecordFailure(w.ledger, op, c.classifier(None))), None)
  {
    var p := GetPolicy(c, op);
    if p.maxAttempts > 0 {
      CallCountIsLeast(c, p, be, 0);
      LoopMeetsSpecification(c, op, be, w, CallCount(c, p, be, 0));
    }
  }

  /** What the verdict leaves in the ledger, entry by entry. */
  lemma SettledEntries(c: Config, op: Operation, l: Ledger, k: nat, err: Option<Error>)
    requires k > 0
    ensures var l' := Settled(c, op, l, k, err);
            var won, lost := if err.None? then 1 else 0, if err.None? then 0 else 1;
            && l'.total == Counts(l.total.attempts + k, l.total.retries + k - 1,
                                  l.total.successes + won, l.total.failures + lost)
            && Of(l', op) == Counts(Of(l, op).attempts + k, Of(l, op).retries + k - 1,
                                    Of(l, op).successes + won, Of(l, op).failures + lost)
            && (forall other :: other != op ==> Of(l', other) == Of(l, other))
            && (forall e :: Get(l'.errorsByClass, e) ==
                            Get(l.errorsByClass, e) + if err.Some? && e == c.classifier(err) then 1 else 0)
  {
  }

  lemma SleepsItsBackoffs(c: Config, op: Operation, outcome: nat -> Option<Error>, draw: nat -> real, w: World)
    returns (k: nat)
    requires GetPolicy(c, op).maxAttempts >= 1
    ensures var p := GetPolicy(c, op);
            && 1 <= k <= p.maxAttempts
            && Loop(c, op, Backend(outcome, Backoffs(p, draw)), w).0.sleeps == w.sleeps + Delays(p, k - 1, draw)
  {
    var p := GetPolicy(c, op);
    var be := Backend(outcome, Backoffs(p, draw));
    CallCountIsLeast(c, p, be, 0);
    k := CallCount(c, p, be, 0);
    LoopMeetsSpecification(c, op, be, w, k);
    assert SleepsOf(be, k) == Delays(p, k - 1, draw);
  }

  /** The whole sleep of one operation stays within the backoff bound for its maxAttempts - 1 retries. */
  lemma SleepBound(c: Config, op: Operation, outcome: nat -> Option<Error>, draw: nat -> real, w: World)
    requires var p := GetPolicy(c, op); Sane(p) && Multiplier(p) != 1.0 && p.maxAttempts >= 1
    requires forall i :: IsDraw(draw(i))
    ensures var p := GetPolicy(c, op);
            var n := p.maxAttempts - 1;
            var slept := Loop(c, op, Backend(outcome, Backoffs(p, draw)), w).0.sleeps;
            && w.sleeps <= slept
            && Total(slept[|w.sleeps|..]) as real
               <= Scale(1.0 + Jitter(p), MinReal(Scale(n as real, p.maxDelay as real), Geometric(p, n)))
  {
    var p := GetPolicy(c, op);
    var k := SleepsItsBackoffs(c, op, outcome, draw, w);
    assert (w.sleeps + Delays(p, k - 1, draw))[|w.sleeps|..] == Delays(p, k - 1, draw);
    TotalBackoffBound(p, p.maxAttempts - 1, draw);
    LongerSleepsMore(p, k - 1, p.maxAttempts - 1, draw);
  }

  lemma {:induction false} LongerSleepsMore(p: Policy, m: nat, n: nat, draw: nat -> real)
    requires m <= n
    ensures Total(Delays(p, m, draw)) <= Total(Delays(p, n, draw))
    decreases n
  {
    if m < n {
      LongerSleepsMore(p, m, n - 1, draw);
      assert Delays(p, n, draw)[..n - 1] == Delays(p, n - 1, draw);
      assert Delay(p, n, draw(n)) >= 0;
    }
  }
}
