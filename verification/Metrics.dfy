/** The metrics of types.go as the heap of counters they are. */
module MetricsObjects {
  import opened Types
  import L = Ledger

  class OperationMetrics {
    var attempts: int
    var retries: int
    var successes: int
    var failures: int
    ghost const owner: Operation

    function Value(): L.Counts
      reads this
    {
      L.Counts(attempts, retries, successes, failures)
    }

    constructor (ghost owner: Operation)
      ensures Value() == L.ZERO && this.owner == owner
    {
      this.owner := owner;
      attempts, retries, successes, failures := 0, 0, 0, 0;
    }
  }

  class Metrics {
    var totalAttempts: int
    var totalRetries: int
    var totalSuccesses: int
    var totalFailures: int
    var errorsByClass: map<ErrorClass, int>
    var operationMetrics: map<Operation, OperationMetrics>

    ghost var ledger: L.Ledger  // what the counters amount to
    ghost var Repr: set<object>

    /** Each operation owns its counters, so distinct operations have distinct ones. */
    ghost predicate Valid()
      reads this, Repr
      ensures Valid() ==> this in Repr
    {
      && this in Repr
      && ledger.total == L.Counts(totalAttempts, totalRetries, totalSuccesses, totalFailures)
      && ledger.errorsByClass == errorsByClass
      && ledger.perOperation.Keys == operationMetrics.Keys
      && forall op :: op in operationMetrics ==>
                        var om := operationMetrics[op];
                        om in Repr && om.owner == op && ledger.perOperation[op] == om.Value()
    }

    constructor ()
      ensures Valid() && ledger == L.EMPTY && Repr == {this}
    {
      totalAttempts, totalRetries, totalSuccesses, totalFailures := 0, 0, 0, 0;
      errorsByClass, operationMetrics := map[], map[];
      ledger, Repr := L.EMPTY, {this};
    }

    /** First part of RecordAttempt: the operation's own counters, created on its first attempt. */
    method EnsureCounters(op: Operation)
      requires Valid()
      modifies this`operationMetrics, this`Repr, this`ledger
      ensures Valid() && forall o :: o in Repr ==> o in old(Repr) || fresh(o)
      ensures op in operationMetrics
      ensures ledger == old(ledger).(perOperation := old(ledger).perOperation[op := L.Of(old(ledger), op)])
    {
      if op !in operationMetrics {
        var created := new OperationMetrics(op);
        operationMetrics := operationMetrics[op := created];
        Repr := Repr + {created};
      }
      ledger := ledger.(perOperation := ledger.perOperation[op := L.Of(ledger, op)]);
    }

    /** Second part of RecordAttempt: the totals and the operation's counters. */
    method CountAttempt(op: Operation, isRetry: bool)
      requires Valid() && op in operationMetrics
      modifies Repr
      ensures Valid() && Repr == old(Repr)
      ensures ledger == L.RecordAttempt(old(ledger), op, isRetry)
    {
      totalAttempts := totalAttempts + 1;
      if isRetry {
        totalRetries := totalRetries + 1;
      }
      var om := operationMetrics[op];
      om.attempts := om.attempts + 1;
      if isRetry {
        om.retries := om.retries + 1;
      }
      ledger := L.RecordAttempt(ledger, op, isRetry);
    }

    method RecordAttempt(op: Operation, isRetry: bool)
      requires Valid()
      modifies Repr
      ensures Valid() && forall o :: o in Repr ==> o in old(Repr) || fresh(o)
      ensures ledger == L.RecordAttempt(old(ledger), op, isRetry)
    {
      EnsureCounters(op);
      CountAttempt(op, isRetry);
      L.EnsuringIsInvisible(old(ledger), op, isRetry);
    }

    method RecordSuccess(op: Operation)
      requires Valid()
      modifies Repr
      ensures Valid() && Repr == old(Repr)
      ensures ledger == L.RecordSuccess(old(ledger), op)
    {
      totalSuccesses := totalSuccesses + 1;
      if op in operationMetrics {
        var om := operationMetrics[op];
        om.successes := om.successes + 1;
      }
      ledger := L.RecordSuccess(ledger, op);
    }

    method RecordFailure(op: Operation, class_: ErrorClass)
      requires Valid()
      modifies Repr
      ensures Valid() && Repr == old(Repr)
      ensures ledger == L.RecordFailure(old(ledger), op, class_)
    {
      totalFailures := totalFailures + 1;
      errorsByClass := errorsByClass[class_ := L.Get(errorsByClass, class_) + 1];
      if op in operationMetrics {
        var om := operationMetrics[op];
        om.failures := om.failures + 1;
      }
      ledger := L.RecordFailure(ledger, op, class_);
    }
  }
}
