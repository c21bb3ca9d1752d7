/** The registry of per-operation breakers as a value: runs over any mix of operations, and why each
    operation's breaker behaves as if it were alone. */
module Registry {
  import opened Types
  import B = Breaker

  type Breakers = map<Operation, B.Breaker>

  /** A critical section of one operation's breaker, or the registry-wide Reset. */
  datatype RegistryEvent = On(op: Operation, event: B.Event) | ResetEvery(at: int)

  /** The breaker of `op`; one that does not exist yet will be created fresh. */
  function Get(bs: Breakers, op: Operation): B.Breaker {
    if op in bs then bs[op] else B.FRESH
  }

  /** A reset touches existing breakers only, everything else creates its breaker first. */
  function Step(s: B.Settings, bs: Breakers, e: RegistryEvent): Breakers {
    match e
    case On(op, event) =>
      if event.ResetAll? && op !in bs then bs else bs[op := B.Step(s, Get(bs, op), event)]
    case ResetEvery(_) => map op | op in bs :: B.Reset(bs[op])
  }

  /** One uninterrupted call through the registry touches one entry. */
  lemma AdmitThenRecord(s: B.Settings, bs: Breakers, op: Operation, start: int, ok: bool, end: int)
    ensures Step(s, Step(s, bs, On(op, B.Admit(start))), On(op, B.Record(ok, end)))
            == bs[op := B.RecordResult(s, B.AllowCall(s, Get(bs, op), start).0, ok, end)]
  {
  }

  function Run(s: B.Settings, es: seq<RegistryEvent>): Breakers {
    if es == [] then map[] else Step(s, Run(s, es[..|es| - 1]), es[|es| - 1])
  }

  /** The events of `op` alone; the registry-wide Reset becomes one Reset of its breaker if that
      exists by then. */
  function Project(s: B.Settings, es: seq<RegistryEvent>, op: Operation): seq<B.Event> {
    if es == [] then []
    else
      var n := |es| - 1;
      Project(s, es[..n], op) + Seen(Run(s, es[..n]), es[n], op)
  }

  /** What the breaker of `op` sees of one event. */
  function Seen(bs: Breakers, e: RegistryEvent, op: Operation): seq<B.Event> {
    match e
    case On(o, event) => if o == op then [event] else []
    case ResetEvery(at) => if op in bs then [B.ResetAll(at)] else []
  }

  lemma OneEvent(s: B.Settings, bs: Breakers, e: RegistryEvent, op: Operation, before: seq<B.Event>)
    requires Get(bs, op) == B.Run(s, B.FRESH, before)
    ensures Get(Step(s, bs, e), op) == B.Run(s, B.FRESH, before + Seen(bs, e, op))
  {
    var seen := Seen(bs, e, op);
    if seen == [] {
      assert before + seen == before;
    } else {
      B.RunSnoc(s, B.FRESH, before, seen[0]);
      assert before + seen == before + [seen[0]];
    }
  }

  /** Per-operation projection: after any interleaving over any operations, the breaker of each is
      the one its own events leave when run alone. */
  lemma {:induction false} EachRunsAlone(s: B.Settings, es: seq<RegistryEvent>, op: Operation)
    ensures Get(Run(s, es), op) == B.Run(s, B.FRESH, Project(s, es, op))
  {
    if es != [] {
      var n := |es| - 1;
      EachRunsAlone(s, es[..n], op);
      OneEvent(s, Run(s, es[..n]), es[n], op, Project(s, es[..n], op));
    }
  }

  /** Hence what other operations do is invisible: two runs with the same events of `op` leave it in
      the same state. */
  lemma OthersDoNotInterfere(s: B.Settings, es: seq<RegistryEvent>, fs: seq<RegistryEvent>, op: Operation)
    requires Project(s, es, op) == Project(s, fs, op)
    ensures Get(Run(s, es), op) == Get(Run(s, fs), op)
  {
    EachRunsAlone(s, es, op);
    EachRunsAlone(s, fs, op);
  }

  // ----- Double-checked creation -----

  /** A caller of GetCircuitBreaker: before its lookup, after a lookup that missed, or holding the
      breaker with the given identity. */
  datatype Caller = Starting(op: Operation) | Missed(op: Operation) | Holding(op: Operation, id: nat)

  /** `next` is the identity of the next breaker to be allocated. */
  datatype Creation = Creation(installed: map<Operation, nat>, next: nat, callers: map<nat, Caller>)

  datatype Action = Arrive(caller: nat, op: Operation) | LookUp(caller: nat) | Install(caller: nat)

  /** An action out of turn changes nothing. */
  function Act(c: Creation, a: Action): Creation {
    match a
    case Arrive(i, op) => if i in c.callers then c else c.(callers := c.callers[i := Starting(op)])
    case LookUp(i) =>
      if i !in c.callers || !c.callers[i].Starting? then c
      else
        var op := c.callers[i].op;
        c.(callers := c.callers[i := if op in c.installed then Holding(op, c.installed[op]) else Missed(op)])
    case Install(i) =>
      if i !in c.callers || !c.callers[i].Missed? then c
      else
        var op := c.callers[i].op;
        if op in c.installed then c.(callers := c.callers[i := Holding(op, c.installed[op])])
        else Creation(c.installed[op := c.next], c.next + 1, c.callers[i := Holding(op, c.next)])
  }

  const UNUSED := Creation(map[], 0, map[])

  function Acts(actions: seq<Action>): Creation {
    if actions == [] then UNUSED else Act(Acts(actions[..|actions| - 1]), actions[|actions| - 1])
  }

  ghost predicate Consistent(c: Creation) {
    && (forall i :: i in c.callers && c.callers[i].Holding? ==>
                      c.callers[i].op in c.installed && c.installed[c.callers[i].op] == c.callers[i].id)
    && (forall op :: op in c.installed ==> c.installed[op] < c.next)
    && (forall o, p :: o in c.installed && p in c.installed && o != p ==> c.installed[o] != c.installed[p])
  }

  lemma {:induction false} AlwaysConsistent(actions: seq<Action>)
    ensures Consistent(Acts(actions))
  {
    if actions != [] {
      AlwaysConsistent(actions[..|actions| - 1]);
    }
  }

  lemma {:induction false} NeverReplaced(actions: seq<Action>, n: nat)
    requires n <= |actions|
    ensures forall op :: op in Acts(actions[..n]).installed ==>
                           && op in Acts(actions).installed
                           && Acts(actions).installed[op] == Acts(actions[..n]).installed[op]
    decreases |actions|
  {
    if n < |actions| {
      var m := |actions| - 1;
      NeverReplaced(actions[..m], n);
      assert actions[..m][..n] == actions[..n];
    } else {
      assert actions[..n] == actions;
    }
  }

  lemma ActsSnoc(actions: seq<Action>, n: nat)
    requires n < |actions|
    ensures Acts(actions[..n + 1]) == Act(Acts(actions[..n]), actions[n])
  {
    assert actions[..n + 1][..n] == actions[..n];
  }

  /** How far a caller has come. */
  function Stage(c: Creation, i: nat): nat {
    if i !in c.callers then 0
    else
      match c.callers[i]
      case Starting(_) => 1
      case Missed(_) => 2
      case Holding(_, _) => 3
  }

  lemma {:induction false} StagesGrow(actions: seq<Action>, m: nat, n: nat, i: nat)
    requires m <= n <= |actions|
    ensures Stage(Acts(actions[..m]), i) <= Stage(Acts(actions[..n]), i)
    ensures i in Acts(actions[..m]).callers ==>
              i in Acts(actions[..n]).callers && Acts(actions[..n]).callers[i].op == Acts(actions[..m]).callers[i].op
    decreases n
  {
    if m < n {
      StagesGrow(actions, m, n - 1, i);
      ActsSnoc(actions, n - 1);
    }
  }

  /** Each step of a caller brings it at least one stage further. */
  lemma StagesOfCaller(c: Creation, i: nat, op: Operation)
    ensures i !in c.callers ==> Act(c, Arrive(i, op)).callers == c.callers[i := Starting(op)]
    ensures Stage(c, i) >= 1 ==> Stage(Act(c, LookUp(i)), i) >= 2
    ensures Stage(c, i) >= 2 ==> Stage(Act(c, Install(i)), i) == 3
  {
  }

  lemma {:induction false} Arrived(actions: seq<Action>, i: nat, op: Operation, a: nat)
    requires a < |actions| && i !in Acts(actions[..a]).callers && actions[a] == Arrive(i, op)
    ensures i in Acts(actions).callers && Acts(actions).callers[i].op == op
  {
    StagesOfCaller(Acts(actions[..a]), i, op);
    ActsSnoc(actions, a);
    StagesGrow(actions, a + 1, |actions|, i);
    assert actions[..|actions|] == actions;
  }

  lemma {:induction false} Served(actions: seq<Action>, i: nat, b: nat, c: nat)
    requires b < c < |actions| && Stage(Acts(actions[..b]), i) >= 1
    requires actions[b] == LookUp(i) && actions[c] == Install(i)
    ensures Stage(Acts(actions), i) == 3
  {
    StagesOfCaller(Acts(actions[..b]), i, "");
    ActsSnoc(actions, b);
    StagesGrow(actions, b + 1, c, i);
    StagesOfCaller(Acts(actions[..c]), i, "");
    ActsSnoc(actions, c);
    StagesGrow(actions, c + 1, |actions|, i);
    assert actions[..|actions|] == actions;
  }

  /** A caller that has arrived, looked up and, after a miss, installed holds the breaker it asked for,
      whatever others do in between. */
  lemma {:induction false} EveryCallerIsServed(actions: seq<Action>, i: nat, op: Operation, a: nat, b: nat, c: nat)
    requires a < b < c < |actions| && i !in Acts(actions[..a]).callers
    requires actions[a] == Arrive(i, op) && actions[b] == LookUp(i) && actions[c] == Install(i)
    ensures var end := Acts(actions);
            && i in end.callers && end.callers[i].Holding? && end.callers[i].op == op
            && op in end.installed && end.installed[op] == end.callers[i].id
  {
    assert actions[..b][..a] == actions[..a];
    Arrived(actions[..b], i, op, a);
    Arrived(actions, i, op, a);
    Served(actions, i, b, c);
    AlwaysConsistent(actions);
  }

  /** Under every interleaving of lookups and installs, at any two moments of a run: two callers
      hold the same breaker exactly when they asked for the same operation, the breaker a caller
      holds is the installed one, and an installed breaker is never replaced. */
  lemma {:induction false} DoubleCheckedCreation(actions: seq<Action>, n: nat, i: nat, j: nat)
    requires n <= |actions|
    requires i in Acts(actions[..n]).callers && Acts(actions[..n]).callers[i].Holding?
    requires j in Acts(actions).callers && Acts(actions).callers[j].Holding?
    ensures var early, late := Acts(actions[..n]).callers[i], Acts(actions).callers[j];
            && (early.op == late.op <==> early.id == late.id)
            && early.op in Acts(actions).installed && Acts(actions).installed[early.op] == early.id
  {
    AlwaysConsistent(actions[..n]);
    AlwaysConsistent(actions);
    NeverReplaced(actions, n);
  }
}
