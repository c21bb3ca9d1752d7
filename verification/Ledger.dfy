/** The metrics ledger of types.go as a value, and the laws its totals obey. */
module Ledger {
  import opened Types
  import opened Counting

  datatype Counts = Counts(attempts: int, retries: int, successes: int, failures: int)

  datatype Ledger = Ledger(total: Counts, errorsByClass: map<ErrorClass, int>, perOperation: map<Operation, Counts>)

  const ZERO := Counts(0, 0, 0, 0)
  const EMPTY := Ledger(ZERO, map[], map[])

  function Get<K>(m: map<K, int>, k: K): int { if k in m then m[k] else 0 }

  function Of(l: Ledger, op: Operation): Counts {
    if op in l.perOperation then l.perOperation[op] else ZERO
  }

  function CountAttempt(c: Counts, isRetry: bool): Counts {
    c.(attempts := c.attempts + 1, retries := c.retries + if isRetry then 1 else 0)
  }

  function RecordAttempt(l: Ledger, op: Operation, isRetry: bool): Ledger {
    l.(total := CountAttempt(l.total, isRetry),
       perOperation := l.perOperation[op := CountAttempt(Of(l, op), isRetry)])
  }

  function RecordSuccess(l: Ledger, op: Operation): Ledger {
    var l' := l.(total := l.total.(successes := l.total.successes + 1));
    if op in l.perOperation then
      var c := l.perOperation[op];
      l'.(perOperation := l.perOperation[op := c.(successes := c.successes + 1)])
    else l'
  }

  function RecordFailure(l: Ledger, op: Operation, class_: ErrorClass): Ledger {
    var l' := l.(total := l.total.(failures := l.total.failures + 1),
                 errorsByClass := l.errorsByClass[class_ := Get(l.errorsByClass, class_) + 1]);
    if op in l.perOperation then
      var c := l.perOperation[op];
      l'.(perOperation := l.perOperation[op := c.(failures := c.failures + 1)])
    else l'
  }

  /** Adding an operation with zero counts first does not show in what RecordAttempt leaves. */
  lemma EnsuringIsInvisible(l: Ledger, op: Operation, isRetry: bool)
    ensures RecordAttempt(l.(perOperation := l.perOperation[op := Of(l, op)]), op, isRetry)
            == RecordAttempt(l, op, isRetry)
  {
    var c := CountAttempt(Of(l, op), isRetry);
    assert l.perOperation[op := Of(l, op)][op := c] == l.perOperation[op := c];
  }

  // ----- Totals and breakdowns -----

  const ATTEMPTS := (c: Counts) => c.attempts
  const RETRIES := (c: Counts) => c.retries
  const SUCCESSES := (c: Counts) => c.successes
  const FAILURES := (c: Counts) => c.failures

  /** The sum of one field over the operations. */
  ghost function Over(m: map<Operation, Counts>, field: Counts -> int): int {
    Sum(map op | op in m :: field(m[op]))
  }

  /** Every total equals the sum of its breakdowns, but that the operations miss `gap` failures. */
  ghost predicate BalancedBut(l: Ledger, gap: int) {
    && l.total.attempts == Over(l.perOperation, ATTEMPTS)
    && l.total.retries == Over(l.perOperation, RETRIES)
    && l.total.successes == Over(l.perOperation, SUCCESSES)
    && l.total.failures == Over(l.perOperation, FAILURES) + gap
    && l.total.failures == Sum(l.errorsByClass)
  }

  /** Every total equals the sum of its breakdowns. */
  ghost predicate Balanced(l: Ledger) { BalancedBut(l, 0) }

  lemma OverUpdate(m: map<Operation, Counts>, op: Operation, c: Counts, field: Counts -> int)
    ensures Over(m[op := c], field) == Over(m, field) + field(c) - if op in m then field(m[op]) else 0
  {
    var column := map o | o in m :: field(m[o]);
    var m' := m[op := c];
    assert (map o | o in m' :: field(m'[o])) == column[op := field(c)];
    SumUpdate(column, op, field(c));
  }

  lemma UpdateCounts(l: Ledger, op: Operation, c: Counts)
    ensures var m, old_ := l.perOperation[op := c], Of(l, op);
            && Over(m, ATTEMPTS) == Over(l.perOperation, ATTEMPTS) + c.attempts - old_.attempts
            && Over(m, RETRIES) == Over(l.perOperation, RETRIES) + c.retries - old_.retries
            && Over(m, SUCCESSES) == Over(l.perOperation, SUCCESSES) + c.successes - old_.successes
            && Over(m, FAILURES) == Over(l.perOperation, FAILURES) + c.failures - old_.failures
  {
    OverUpdate(l.perOperation, op, c, ATTEMPTS);
    OverUpdate(l.perOperation, op, c, RETRIES);
    OverUpdate(l.perOperation, op, c, SUCCESSES);
    OverUpdate(l.perOperation, op, c, FAILURES);
  }

  lemma AttemptKeepsBalance(l: Ledger, op: Operation, isRetry: bool, gap: int)
    requires BalancedBut(l, gap)
    ensures BalancedBut(RecordAttempt(l, op, isRetry), gap)
  {
    UpdateCounts(l, op, CountAttempt(Of(l, op), isRetry));
  }

  /** Recording a success keeps the balance exactly when the operation has been attempted before. */
  lemma SuccessKeepsBalance(l: Ledger, op: Operation, gap: int)
    requires BalancedBut(l, gap)
    ensures BalancedBut(RecordSuccess(l, op), gap) <==> op in l.perOperation
  {
    UpdateCounts(l, op, Of(l, op).(successes := Of(l, op).successes + 1));
  }

  /** Recording a failure leaves the operations one failure short exactly when the operation has never
      been attempted; the breakdown by error class stays exact even then. */
  lemma FailureKeepsBalance(l: Ledger, op: Operation, class_: ErrorClass, gap: int)
    requires BalancedBut(l, gap)
    ensures BalancedBut(RecordFailure(l, op, class_), gap + if op in l.perOperation then 0 else 1)
    ensures BalancedBut(RecordFailure(l, op, class_), gap) <==> op in l.perOperation
    ensures RecordFailure(l, op, class_).total.failures == Sum(RecordFailure(l, op, class_).errorsByClass)
  {
    SumUpdate(l.errorsByClass, class_, Get(l.errorsByClass, class_) + 1);
    if op in l.perOperation {
      UpdateCounts(l, op, l.perOperation[op].(failures := l.perOperation[op].failures + 1));
    }
  }
}
