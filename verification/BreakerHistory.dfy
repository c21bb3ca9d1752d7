/** What every interleaving of callers tells us about one breaker: the counters are functions of
    the history, the open window cannot be shortened, half-open probes are rate limited, and the
    announced changes form a path. */
module BreakerHistory {
  import opened Types
  import opened Breaker

  // ----- The counters are suffix counts of the history -----

  predicate Clears(e: Event) { Succeeds(e) || e.ResetAll? }

  /** The failures recorded since the last recorded success or Reset. */
  ghost function FailureStreak(es: seq<Event>): set<int> {
    set i | 0 <= i < |es| && Fails(es[i]) && forall j :: i < j < |es| ==> !Clears(es[j])
  }

  /** The successes recorded since the last recorded failure. */
  ghost function SuccessStreak(es: seq<Event>): set<int> {
    set i | 0 <= i < |es| && Succeeds(es[i]) && forall j :: i < j < |es| ==> !Fails(es[j])
  }

  /** Event `i` is the most recent failure. */
  ghost predicate LastFailureAt(es: seq<Event>, i: int) {
    0 <= i < |es| && Fails(es[i]) && forall j :: i < j < |es| ==> !Fails(es[j])
  }

  /** The counters of `b` when `failures` and `successes` are the lengths of the two streaks. */
  predicate Counts(s: Settings, b: Breaker, failures: nat, successes: nat) {
    && b.errors == failures
    && b.successes == (if b.state == Closed then 0 else successes)
    && (b.state == Closed ==> failures < Max(1, s.failureThreshold))
  }

  ghost predicate KnowsLastFailure(b: Breaker, es: seq<Event>) {
    && (b.state != Closed ==> exists i :: LastFailureAt(es, i))
    && (forall i :: LastFailureAt(es, i) ==> b.lastFailure == es[i].at)
  }

  lemma FailureStreakSnoc(es: seq<Event>, e: Event)
    ensures FailureStreak(es + [e]) ==
            if Clears(e) then {} else if Fails(e) then FailureStreak(es) + {|es|} else FailureStreak(es)
  {
    var all := es + [e];
    assert all[|es|] == e;
    forall i | 0 <= i < |es|
      ensures i in FailureStreak(all) <==> i in FailureStreak(es) && !Clears(e)
    {
      if i in FailureStreak(es) && !Clears(e) {
        assert forall j :: i < j < |all| ==> !Clears(all[j]);
      }
      if i in FailureStreak(all) {
        assert forall j :: i < j < |es| ==> !Clears(all[j]) && all[j] == es[j];
      }
    }
  }

  lemma SuccessStreakSnoc(es: seq<Event>, e: Event)
    ensures SuccessStreak(es + [e]) ==
            if Fails(e) then {} else if Succeeds(e) then SuccessStreak(es) + {|es|} else SuccessStreak(es)
  {
    var all := es + [e];
    assert all[|es|] == e;
    forall i | 0 <= i < |es|
      ensures i in SuccessStreak(all) <==> i in SuccessStreak(es) && !Fails(e)
    {
      if i in SuccessStreak(es) && !Fails(e) {
        assert forall j :: i < j < |all| ==> !Fails(all[j]);
      }
      if i in SuccessStreak(all) {
        assert forall j :: i < j < |es| ==> !Fails(all[j]) && all[j] == es[j];
      }
    }
  }

  lemma LastFailureSnoc(es: seq<Event>, e: Event)
    ensures forall i :: LastFailureAt(es + [e], i) <==> (if Fails(e) then i == |es| else LastFailureAt(es, i))
  {
    var all := es + [e];
    forall i
      ensures LastFailureAt(all, i) <==> (if Fails(e) then i == |es| else LastFailureAt(es, i))
    {
      if LastFailureAt(es, i) && !Fails(e) {
        assert forall j :: i < j < |all| ==> !Fails(all[j]);
      }
      if LastFailureAt(all, i) && i < |es| {
        assert all[|es|] == e;
        assert forall j :: i < j < |es| ==> !Fails(all[j]) && all[j] == es[j];
      }
    }
  }

  lemma StreaksSnoc(es: seq<Event>, e: Event)
    ensures |FailureStreak(es + [e])| ==
            if Clears(e) then 0 else if Fails(e) then |FailureStreak(es)| + 1 else |FailureStreak(es)|
    ensures |SuccessStreak(es + [e])| ==
            if Fails(e) then 0 else if Succeeds(e) then |SuccessStreak(es)| + 1 else |SuccessStreak(es)|
  {
    FailureStreakSnoc(es, e);
    SuccessStreakSnoc(es, e);
    assert |es| !in FailureStreak(es) && |es| !in SuccessStreak(es);
  }

  /** In every interleaving the counters are exactly the history's suffix counts, and a closed
      breaker is below its threshold. */
  lemma {:induction false} CountersEqualHistory(s: Settings, es: seq<Event>)
    ensures Counts(s, Run(s, FRESH, es), |FailureStreak(es)|, |SuccessStreak(es)|)
  {
    if es == [] {
      assert FailureStreak(es) == {} && SuccessStreak(es) == {};
    } else {
      var pre, e := es[..|es| - 1], es[|es| - 1];
      assert es == pre + [e];
      CountersEqualHistory(s, pre);
      StreaksSnoc(pre, e);
      RunSnoc(s, FRESH, pre, e);
    }
  }

  /** In every interleaving `lastFailure` is the time of the latest recorded failure, and a breaker
      that is not closed has seen one. */
  lemma {:induction false} LastFailureEqualsHistory(s: Settings, es: seq<Event>)
    ensures KnowsLastFailure(Run(s, FRESH, es), es)
  {
    if es != [] {
      var pre, e := es[..|es| - 1], es[|es| - 1];
      assert es == pre + [e];
      LastFailureEqualsHistory(s, pre);
      LastFailureSnoc(pre, e);
      RunSnoc(s, FRESH, pre, e);
      var before, after := Run(s, FRESH, pre), Run(s, FRESH, es);
      if Fails(e) {
        assert LastFailureAt(es, |pre|);
      } else if after.state != Closed {
        assert before.state != Closed;
        var i :| LastFailureAt(pre, i);
        assert LastFailureAt(es, i);
      }
    }
  }

  /** The breaker opens on event `e` exactly when it is closed and `e` completes a failure streak of
      the threshold length, and it leaves the open and half-open states for Closed exactly on Reset
      or on a half-open success that completes a success streak of the threshold length. */
  lemma {:induction false} ThresholdsAreExact(s: Settings, es: seq<Event>, e: Event)
    ensures var before, after := Run(s, FRESH, es).state, Run(s, FRESH, es + [e]).state;
            && (before == Closed ==>
                  (after == Open <==> Fails(e) && |FailureStreak(es + [e])| == Max(1, s.failureThreshold)))
            && (before == HalfOpen ==>
                  (after == Closed <==>
                   e.ResetAll? || (Succeeds(e) && |SuccessStreak(es + [e])| >= s.successThreshold)))
            && (before == Open ==> (after == Closed <==> e.ResetAll?))
            && (before == HalfOpen ==> (after == Open <==> Fails(e)))
  {
    CountersEqualHistory(s, es);
    StreaksSnoc(es, e);
    RunSnoc(s, FRESH, es, e);
  }

  /** Admission is refused exactly while the breaker is open and the latest recorded failure of the
      whole history is less than the timeout ago. */
  lemma {:induction false} AdmissionByHistory(s: Settings, es: seq<Event>, now: int)
    ensures var b := Run(s, FRESH, es);
            AllowCall(s, b, now).1 <==>
            b.state != Open || exists i :: LastFailureAt(es, i) && now - es[i].at >= s.timeout
  {
    LastFailureEqualsHistory(s, es);
  }

  // ----- The open window -----

  lemma {:induction false} StaysOpen(s: Settings, es: seq<Event>, i: nat, k: nat)
    requires Timed(es) && i < k <= |es| && Fails(es[i]) && At(s, es, i + 1).state == Open
    requires forall j :: i < j < k ==> !es[j].ResetAll?
    requires forall j :: i < j < k ==> es[j].at < es[i].at + s.timeout
    ensures At(s, es, k).state == Open && At(s, es, k).lastFailure >= es[i].at
    ensures forall j :: i < j < k ==> !Admitted(s, es, j)
    decreases k
  {
    AtStep(s, es, k - 1);
    if k - 1 > i {
      StaysOpen(s, es, i, k - 1);
    }
  }

  /** Fail fast: once a failure recorded at time t leaves the breaker open, no interleaving of late
      successes, late failures and refused callers admits anybody before t + timeout, unless Reset
      is called; the breaker is still open when the window ends. */
  lemma FailFastWindow(s: Settings, es: seq<Event>, i: nat, k: nat)
    requires Timed(es) && i < k < |es| && Fails(es[i]) && At(s, es, i + 1).state == Open
    requires forall j :: i < j <= k ==> !es[j].ResetAll?
    requires es[k].at < es[i].at + s.timeout
    ensures At(s, es, k).state == Open && At(s, es, k + 1).state == Open && !Admitted(s, es, k)
  {
    StaysOpen(s, es, i, k + 1);
    StaysOpen(s, es, i, k);
  }

  // ----- Flapping -----

  /** Event `i` moves the breaker from Open to HalfOpen. */
  predicate Flap(s: Settings, es: seq<Event>, i: nat) {
    i < |es| && At(s, es, i).state == Open && At(s, es, i + 1).state == HalfOpen
  }

  lemma {:induction false} ReopenedLater(s: Settings, es: seq<Event>, i: nat, k: nat)
    requires Timed(es) && Flap(s, es, i) && i < k <= |es|
    ensures At(s, es, k).state == Open ==> At(s, es, k).lastFailure >= es[i].at
    decreases k
  {
    AtStep(s, es, k - 1);
    if k - 1 > i {
      ReopenedLater(s, es, i, k - 1);
    }
  }

  /** Two half-open transitions are at least the timeout apart, whatever arrives in between. */
  lemma FlapGap(s: Settings, es: seq<Event>, i: nat, j: nat)
    requires Timed(es) && Flap(s, es, i) && Flap(s, es, j) && i < j
    ensures es[j].at - es[i].at >= s.timeout
  {
    ReopenedLater(s, es, i, j);
    AtStep(s, es, j);
  }

  /** Hence n + 1 half-open transitions take at least n timeouts, in every run. */
  lemma {:induction false} FlapRate(s: Settings, es: seq<Event>, flaps: seq<nat>)
    requires Timed(es) && |flaps| > 0
    requires forall i :: 0 <= i < |flaps| ==> Flap(s, es, flaps[i])
    requires forall i, j :: 0 <= i < j < |flaps| ==> flaps[i] < flaps[j]
    ensures Flap(s, es, flaps[0]) && Flap(s, es, flaps[|flaps| - 1])
    ensures es[flaps[|flaps| - 1]].at - es[flaps[0]].at >= (|flaps| - 1) * s.timeout
  {
    var n := |flaps| - 1;
    if n > 0 {
      FlapRate(s, es, flaps[..n]);
      FlapGap(s, es, flaps[n - 1], flaps[n]);
      OneMoreGap(n, s.timeout);
    }
  }

  lemma OneMoreGap(n: int, gap: int)
    ensures n * gap == (n - 1) * gap + gap
  {
  }

  // ----- The announced changes -----

  /** The events that may cause a change of state. */
  predicate Causes(e: Event, c: Change) {
    match (c.from, c.to)
    case (Closed, Open) => Fails(e)
    case (Open, HalfOpen) => e.Admit?
    case (HalfOpen, Open) => Fails(e)
    case (HalfOpen, Closed) => Succeeds(e) || e.ResetAll?
    case (Open, Closed) => e.ResetAll?
    case _ => false
  }

  ghost predicate IsPath(changes: seq<Change>, last: State) {
    && (changes == [] ==> last == Closed)
    && (changes != [] ==> changes[0].from == Closed && changes[|changes| - 1].to == last)
    && (forall i :: 0 <= i < |changes| ==> changes[i].from != changes[i].to)
    && (forall i :: 0 <= i < |changes| - 1 ==> changes[i].to == changes[i + 1].from)
  }

  /** Every event announces at most one change, namely the one it made, and only a cause of that
      change can make it: Open to Closed takes a Reset. */
  lemma AnnouncesItsChange(s: Settings, es: seq<Event>, i: nat)
    requires i < |es|
    ensures var before, after := At(s, es, i), At(s, es, i + 1);
            if before.state == after.state then after.changes == before.changes
            else
              && after.changes == before.changes + [Change(before.state, after.state)]
              && Causes(es[i], Change(before.state, after.state))
  {
    AtStep(s, es, i);
  }

  /** The announced changes form a path from Closed to the current state. */
  lemma {:induction false} ChangesFormAPath(s: Settings, es: seq<Event>)
    ensures IsPath(Run(s, FRESH, es).changes, Run(s, FRESH, es).state)
  {
    if es != [] {
      var n := |es| - 1;
      ChangesFormAPath(s, es[..n]);
      AnnouncesItsChange(s, es, n);
      assert es[..n + 1] == es;
    }
  }

  // ----- Serial callers -----

  /** A call that is not overlapped by any other. */
  datatype SerialCall = SerialCall(ok: bool, start: int, end: int)

  function CallOnce(s: Settings, b: Breaker, c: SerialCall): Breaker {
    var (admitted, allowed) := AllowCall(s, b, c.start);
    if allowed then RecordResult(s, admitted, c.ok, c.end) else b
  }

  function Calls(s: Settings, b: Breaker, cs: seq<SerialCall>): Breaker {
    if cs == [] then b else CallOnce(s, Calls(s, b, cs[..|cs| - 1]), cs[|cs| - 1])
  }

  /** The critical sections of serial calls: an admission each, and a report after the admitted ones. */
  function SectionsOf(s: Settings, b: Breaker, cs: seq<SerialCall>): seq<Event> {
    if cs == [] then []
    else
      var c := cs[|cs| - 1];
      var before := SectionsOf(s, b, cs[..|cs| - 1]);
      var admitted := AllowCall(s, Run(s, b, before), c.start).1;
      before + [Admit(c.start)] + if admitted then [Record(c.ok, c.end)] else []
  }

  /** Serial calls are runs: a call that is refused asks for admission and reports nothing. */
  lemma {:induction false} SerialCallsAreRuns(s: Settings, b: Breaker, cs: seq<SerialCall>)
    ensures Calls(s, b, cs) == Run(s, b, SectionsOf(s, b, cs))
  {
    if cs != [] {
      var c, before := cs[|cs| - 1], SectionsOf(s, b, cs[..|cs| - 1]);
      SerialCallsAreRuns(s, b, cs[..|cs| - 1]);
      RunSnoc(s, b, before, Admit(c.start));
      RunSnoc(s, b, before + [Admit(c.start)], Record(c.ok, c.end));
      assert before + [Admit(c.start)] + [] == before + [Admit(c.start)];
    }
  }

  /** However many callers knock inside the window, the breaker stays as it was, and the first one past
      it is admitted. */
  lemma {:induction false} KnockingChangesNothing(s: Settings, b: Breaker, cs: seq<SerialCall>, next: SerialCall)
    requires b.state == Open && next.start - b.lastFailure >= s.timeout
    requires forall i :: 0 <= i < |cs| ==> cs[i].start - b.lastFailure < s.timeout
    ensures Calls(s, b, cs) == b
    ensures AllowCall(s, Calls(s, b, cs), next.start).1
    ensures CallOnce(s, Calls(s, b, cs), next).state
            == if !next.ok then Open else if b.successes + 1 >= s.successThreshold then Closed else HalfOpen
  {
    if cs != [] {
      KnockingChangesNothing(s, b, cs[..|cs| - 1], next);
    }
  }

  /** From any reachable closed breaker it takes exactly threshold - errors failing calls to open. */
  lemma {:induction false} ExactTrip(s: Settings, es: seq<Event>, cs: seq<SerialCall>)
    requires Run(s, FRESH, es).state == Closed
    requires forall i :: 0 <= i < |cs| ==> !cs[i].ok
    ensures var b, needed := Run(s, FRESH, es), Max(1, s.failureThreshold) - Run(s, FRESH, es).errors;
            var after := Calls(s, b, cs);
            && needed > 0
            && (|cs| < needed ==> after.state == Closed && after.errors == b.errors + |cs|)
            && (|cs| == needed ==> after.state == Open && after.lastFailure == cs[|cs| - 1].end)
  {
    CountersEqualHistory(s, es);
    if cs != [] {
      ExactTrip(s, es, cs[..|cs| - 1]);
    }
  }

  /** From any reachable open breaker past its timeout it takes exactly
      max(1, threshold - successes) successful calls to close; successes that arrived late, while
      the breaker was open, count towards the threshold. */
  lemma {:induction false} ExactRecovery(s: Settings, b: Breaker, cs: seq<SerialCall>)
    requires b.state == Open && |cs| > 0 && cs[0].start - b.lastFailure >= s.timeout
    requires forall i :: 0 <= i < |cs| ==> cs[i].ok
    ensures var needed := Max(1, s.successThreshold - b.successes);
            var after := Calls(s, b, cs);
            && (|cs| < needed ==> after.state == HalfOpen && after.successes == b.successes + |cs|)
            && (|cs| == needed ==> after.state == Closed && after.errors == 0 && after.successes == 0)
  {
    var n := |cs| - 1;
    if n > 0 {
      assert cs[..n][0] == cs[0];
      ExactRecovery(s, b, cs[..n]);
    } else {
      assert Calls(s, b, cs[..n]) == b;
    }
  }

  /** With serial callers no success arrives while the breaker is open, so the documented success
      threshold is met exactly: ExactRecovery then counts from zero. */
  lemma {:induction false} SerialOpenHasNoSuccesses(s: Settings, cs: seq<SerialCall>)
    ensures var b := Calls(s, FRESH, cs); b.state == Open ==> b.successes == 0
  {
    if cs != [] {
      SerialOpenHasNoSuccesses(s, cs[..|cs| - 1]);
    }
  }

  /** The history decides: starting after the timeout of a breaker left open, no number of successful
      serial calls below the documented threshold closes it exactly when no success has been recorded
      since the last failure, or when the threshold is one success anyway. */
  lemma {:induction false} DocumentedRecoveryIff(s: Settings, es: seq<Event>)
    requires Run(s, FRESH, es).state == Open
    ensures (forall cs :: Recovery(s, Run(s, FRESH, es), cs) && |cs| < s.successThreshold ==>
                            Calls(s, Run(s, FRESH, es), cs).state != Closed)
            <==> SuccessStreak(es) == {} || s.successThreshold <= 1
  {
    var b := Run(s, FRESH, es);
    CountersEqualHistory(s, es);
    if SuccessStreak(es) == {} || s.successThreshold <= 1 {
      forall cs | Recovery(s, b, cs) && |cs| < s.successThreshold
        ensures Calls(s, b, cs).state != Closed
      {
        ExactRecovery(s, b, cs);
      }
    } else {
      assert b.successes > 0;
      var c := SerialCall(true, b.lastFailure + s.timeout, b.lastFailure + s.timeout);
      var cs := seq(Max(1, s.successThreshold - b.successes), j => c);
      assert Recovery(s, b, cs);
      ExactRecovery(s, b, cs);
    }
  }

  /** Successful serial calls, the first of them past the timeout of the open breaker b. */
  ghost predicate Recovery(s: Settings, b: Breaker, cs: seq<SerialCall>) {
    |cs| > 0 && cs[0].start - b.lastFailure >= s.timeout && forall j :: 0 <= j < |cs| ==> cs[j].ok
  }

  /** Such a success is possible: of two callers admitted together the one fails and opens the breaker,
      the other then succeeds. One success, not two, closes this breaker. */
  lemma LateSuccessIsReachable(timeout: nat)
    ensures var s := Settings(1, 2, timeout);
            var es := [Admit(0), Admit(0), Record(false, 0), Record(true, 0)];
            var b := Run(s, FRESH, es);
            && Timed(es) && b.state == Open && b.successes == 1
            && Calls(s, b, [SerialCall(true, timeout, timeout)]).state == Closed
  {
    var s, e, f, g := Settings(1, 2, timeout), Admit(0), Record(false, 0), Record(true, 0);
    RunSnoc(s, FRESH, [], e);
    RunSnoc(s, FRESH, [e], e);
    RunSnoc(s, FRESH, [e, e], f);
    RunSnoc(s, FRESH, [e, e, f], g);
    assert [] + [e] == [e] && [e] + [e] == [e, e] && [e, e] + [f] == [e, e, f] && [e, e, f] + [g] == [e, e, f, g];
    ExactRecovery(s, Run(s, FRESH, [e, e, f, g]), [SerialCall(true, timeout, timeout)]);
  }

  // ----- Half-open is not a single probe -----

  /** Between events i and k nothing happens that ends a half-open period: no failure, no Reset, and no
      success that completes the success threshold. */
  ghost predicate Undisturbed(s: Settings, es: seq<Event>, i: nat, k: nat)
    requires k <= |es|
  {
    forall j: nat :: i < j < k ==> !Ends(s, es, j)
  }

  ghost predicate Ends(s: Settings, es: seq<Event>, j: nat)
    requires j < |es|
  {
    Fails(es[j]) || es[j].ResetAll? || (Succeeds(es[j]) && |SuccessStreak(es[..j + 1])| >= s.successThreshold)
  }

  lemma EndsHalfOpen(s: Settings, es: seq<Event>, j: nat)
    requires j < |es| && At(s, es, j).state == HalfOpen
    ensures At(s, es, j + 1).state == HalfOpen <==> !Ends(s, es, j)
  {
    AtStep(s, es, j);
    assert es[..j + 1] == es[..j] + [es[j]];
    ThresholdsAreExact(s, es[..j], es[j]);
  }

  /** A half-open period lasts exactly until an event that ends it, and throughout it every caller that
      arrives is admitted, however many are under way and whatever successes have come in. */
  lemma {:induction false} HalfOpenAdmitsEveryone(s: Settings, es: seq<Event>, i: nat, k: nat)
    requires Flap(s, es, i) && i < k <= |es|
    ensures Undisturbed(s, es, i, k) <==> forall j: nat :: i < j <= k ==> At(s, es, j).state == HalfOpen
    ensures Undisturbed(s, es, i, k) ==> forall j: nat :: i <= j < k ==> (Admitted(s, es, j) <==> es[j].Admit?)
    decreases k
  {
    AtStep(s, es, i);
    if k - 1 > i {
      HalfOpenAdmitsEveryone(s, es, i, k - 1);
      if Undisturbed(s, es, i, k - 1) {
        assert At(s, es, k - 1).state == HalfOpen;
        EndsHalfOpen(s, es, k - 1);
      } else {
        var j: nat :| i < j < k - 1 && Ends(s, es, j);
        assert !Undisturbed(s, es, i, k);
      }
    }
  }

  /** Hence the documented single request is met over a half-open period exactly when nobody else asks:
      the breaker itself never refuses. */
  lemma {:induction false} SingleProbeIff(s: Settings, es: seq<Event>, i: nat, k: nat)
    requires Flap(s, es, i) && i < k <= |es| && Undisturbed(s, es, i, k)
    ensures (forall j: nat :: i < j < k ==> !Admitted(s, es, j)) <==> (forall j: nat :: i < j < k ==> !es[j].Admit?)
  {
    HalfOpenAdmitsEveryone(s, es, i, k);
  }

  /** Two probes in flight at once, and a third after the first success. */
  lemma SeveralProbes(timeout: nat)
    ensures var s := Settings(1, 2, timeout);
            var es := [Admit(0), Record(false, 0), Admit(timeout), Admit(timeout),
                       Record(true, timeout), Admit(timeout)];
            Timed(es) && Flap(s, es, 2) && Admitted(s, es, 2) && Admitted(s, es, 3) && Admitted(s, es, 5)
  {
    var s := Settings(1, 2, timeout);
    var es := [Admit(0), Record(false, 0), Admit(timeout), Admit(timeout), Record(true, timeout), Admit(timeout)];
    assert At(s, es, 0) == FRESH;
    AtStep(s, es, 0);
    AtStep(s, es, 1);
    AtStep(s, es, 2);
    AtStep(s, es, 3);
    AtStep(s, es, 4);
  }
}
