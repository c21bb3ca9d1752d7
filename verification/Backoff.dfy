/** The backoff arithmetic of retryfs.go over the reals, with the random draw as an adversary and
    the truncation to a whole duration at the end. */
module Backoff {
  datatype Policy = Policy(maxAttempts: int, baseDelay: int, maxDelay: int, jitter: real, multiplier: real)

  const DEFAULT_POLICY := Policy(5, 100_000_000, 30_000_000_000, 0.25, 2.0)

  function Scale(factor: real, x: real): real { factor * x }

  function Pow(m: real, n: nat): real {
    if n == 0 then 1.0 else Scale(m, Pow(m, n - 1))
  }

  function Multiplier(p: Policy): real {
    if p.multiplier <= 0.0 then 2.0 else p.multiplier
  }

  /** The exponential delay before `attempt`, not yet capped. */
  function Exponential(p: Policy, attempt: int): real
    requires attempt > 0
  {
    Scale(p.baseDelay as real, Pow(Multiplier(p), attempt - 1))
  }

  function MinReal(a: real, b: real): real { if a <= b then a else b }

  /** The delay before jitter. */
  function Nominal(p: Policy, attempt: int): real
    requires attempt > 0
  {
    MinReal(Exponential(p, attempt), p.maxDelay as real)
  }

  /** Jitter above zero is applied, anything else counts as none. */
  function Jitter(p: Policy): real {
    if p.jitter > 0.0 then p.jitter else 0.0
  }

  /** A draw of the random generator, scaled as the code scales it. */
  predicate IsDraw(r: real) { -1.0 <= r < 1.0 }

  function Spread(nominal: real, jitter: real, draw: real): real {
    nominal + Scale(draw, Scale(nominal, jitter))
  }

  /** The delay in whole nanoseconds; converting a nonnegative real truncates. */
  function Delay(p: Policy, attempt: int, draw: real): int {
    if attempt <= 0 then 0
    else
      var nominal := Nominal(p, attempt);
      var delay := if p.jitter > 0.0 then Spread(nominal, p.jitter, draw) else nominal;
      if delay < 0.0 then 0 else delay.Floor
  }

  predicate Sane(p: Policy) { p.baseDelay >= 0 && p.maxDelay >= 0 }

  // ----- Real arithmetic -----

  lemma Times(a: real, b: real)
    requires a >= 0.0 && b >= 0.0
    ensures Scale(a, b) >= 0.0
  {
  }

  lemma TimesPositive(a: real, b: real)
    requires a > 0.0 && b > 0.0
    ensures Scale(a, b) > 0.0
  {
  }

  lemma TimesMono(a: real, b: real, c: real)
    requires a <= b && c >= 0.0
    ensures Scale(a, c) <= Scale(b, c) && Scale(c, a) <= Scale(c, b)
  {
    Times(b - a, c);
    assert (b - a) * c == b * c - a * c;
  }

  lemma {:induction false} PowPositive(m: real, n: nat)
    requires m > 0.0
    ensures Pow(m, n) > 0.0
    ensures m >= 1.0 ==> Pow(m, n) >= 1.0
  {
    if n > 0 {
      PowPositive(m, n - 1);
      if m >= 1.0 {
        TimesMono(1.0, m, Pow(m, n - 1));
      }
    }
  }

  lemma NominalBounds(p: Policy, attempt: int)
    requires Sane(p) && attempt > 0
    ensures 0.0 <= Nominal(p, attempt) <= p.maxDelay as real
    ensures Nominal(p, attempt) <= Exponential(p, attempt)
  {
    PowPositive(Multiplier(p), attempt - 1);
    Times(p.baseDelay as real, Pow(Multiplier(p), attempt - 1));
  }

  lemma Grows(p: Policy, a: int, b: int)
    requires Sane(p) && 0 < a <= b && Multiplier(p) >= 1.0
    ensures Exponential(p, a) <= Exponential(p, b)
    decreases b
  {
    if a < b {
      Grows(p, a, b - 1);
      var m, base, pow := Multiplier(p), p.baseDelay as real, Pow(Multiplier(p), b - 2);
      PowPositive(m, b - 2);
      TimesMono(1.0, m, pow);
      TimesMono(pow, Scale(m, pow), base);
    }
  }

  // ----- The delay in terms of the policy's own fields -----

  /** The uncapped delay starts at BaseDelay and grows by the policy's own multiplier, or doubles if that
      is not positive; the nominal one is the lesser of it and MaxDelay. */
  lemma NominalOfPolicy(p: Policy, attempt: int)
    requires attempt > 0
    ensures Exponential(p, 1) == p.baseDelay as real
    ensures p.multiplier > 0.0 ==> Exponential(p, attempt + 1) == p.multiplier * Exponential(p, attempt)
    ensures p.multiplier <= 0.0 ==> Exponential(p, attempt + 1) == 2.0 * Exponential(p, attempt)
    ensures Nominal(p, attempt) <= Exponential(p, attempt) && Nominal(p, attempt) <= p.maxDelay as real
    ensures Nominal(p, attempt) == Exponential(p, attempt) || Nominal(p, attempt) == p.maxDelay as real
  {
    var m, pow, base := Multiplier(p), Pow(Multiplier(p), attempt - 1), p.baseDelay as real;
    assert Pow(m, 0) == 1.0;
    assert base * (m * pow) == m * (base * pow);
  }

  /** With jitter j and draw r the delay is 1 + r * j times the nominal one, at least 0, truncated; without
      jitter it is the nominal one, and before the first attempt there is none. */
  lemma JitterIsExact(p: Policy, attempt: int, draw: real)
    ensures attempt <= 0 ==> Delay(p, attempt, draw) == 0
    ensures attempt > 0 && p.jitter <= 0.0 && Nominal(p, attempt) >= 0.0 ==>
              Delay(p, attempt, draw) == Nominal(p, attempt).Floor
    ensures attempt > 0 && p.jitter > 0.0 ==>
              var d := Scale(1.0 + Scale(draw, p.jitter), Nominal(p, attempt));
              Delay(p, attempt, draw) == if d < 0.0 then 0 else d.Floor
  {
    if attempt > 0 {
      SpreadIsFactor(Nominal(p, attempt), p.jitter, draw);
    }
  }

  lemma SpreadIsFactor(c: real, j: real, draw: real)
    ensures Spread(c, j, draw) == Scale(1.0 + Scale(draw, j), c)
  {
    var f := draw * j;
    assert f * c == draw * (c * j);
    assert (1.0 + f) * c == c + f * c;
  }

  /** Every delay strictly inside the band is slept for some draw. */
  lemma JitterReaches(p: Policy, attempt: int, target: real) returns (draw: real)
    requires Sane(p) && attempt > 0 && p.jitter > 0.0 && target >= 0.0
    requires Scale(1.0 - p.jitter, Nominal(p, attempt)) < target < Scale(1.0 + p.jitter, Nominal(p, attempt))
    ensures IsDraw(draw) && Delay(p, attempt, draw) == target.Floor
  {
    var c, j := Nominal(p, attempt), p.jitter;
    var range := Scale(c, j);
    assert (1.0 + j) * c == c + range && (1.0 - j) * c == c - range;
    draw := 0.0;
    if target > c {
      draw := HittingDraw(range, target - c);
    } else if target < c {
      var opposite := HittingDraw(range, c - target);
      draw := -opposite;
      assert -opposite * range == -(opposite * range);
    }
    assert Spread(c, j, draw) == target;
  }

  // ----- Shape -----

  /** Without jitter the delay is min(MaxDelay, BaseDelay * m^(attempt-1)), truncated: nondecreasing
      in the attempt when m >= 1, and constant from the attempt at which the cap is reached. */
  lemma ShapeWithoutJitter(p: Policy, a: int, b: int, r: real, r': real)
    requires Sane(p) && 0 < a <= b && p.jitter <= 0.0 && Multiplier(p) >= 1.0
    ensures Delay(p, a, r) == Nominal(p, a).Floor
    ensures p.multiplier > 0.0 ==>
              Delay(p, a, r) == MinReal(Scale(p.baseDelay as real, Pow(p.multiplier, a - 1)), p.maxDelay as real).Floor
    ensures Delay(p, a, r) <= Delay(p, b, r')
    ensures Exponential(p, a) >= p.maxDelay as real ==> Delay(p, a, r) == Delay(p, b, r') == p.maxDelay
  {
    NominalBounds(p, a);
    NominalBounds(p, b);
    Grows(p, a, b);
  }

  lemma SpreadBounds(c: real, j: real, draw: real)
    requires c >= 0.0 && j >= 0.0 && IsDraw(draw)
    ensures Scale(1.0 - j, c) <= Spread(c, j, draw) <= Scale(1.0 + j, c)
    ensures j == 0.0 ==> Spread(c, j, draw) == c
  {
    Times(c, j);
    TimesMono(draw, 1.0, Scale(c, j));
    TimesMono(-1.0, draw, Scale(c, j));
    assert (1.0 + j) * c == c + c * j && (1.0 - j) * c == c - c * j;
  }

  /** With jitter j the delay lies within (1 - j) and (1 + j) times the nominal one, up to truncation. */
  lemma JitterBand(p: Policy, attempt: int, draw: real)
    requires Sane(p) && attempt > 0 && IsDraw(draw)
    ensures Scale(1.0 - Jitter(p), Nominal(p, attempt)) - 1.0 < Delay(p, attempt, draw) as real
    ensures 0 <= Delay(p, attempt, draw)
    ensures Delay(p, attempt, draw) as real <= Scale(1.0 + Jitter(p), Nominal(p, attempt))
  {
    NominalBounds(p, attempt);
    SpreadBounds(Nominal(p, attempt), Jitter(p), draw);
    Times(1.0 + Jitter(p), Nominal(p, attempt));
  }

  /** The ceiling that holds for every draw is (1 + j) * MaxDelay. */
  lemma TrueCeiling(p: Policy, attempt: int, draw: real)
    requires Sane(p) && attempt > 0 && IsDraw(draw)
    ensures Delay(p, attempt, draw) as real <= Scale(1.0 + Jitter(p), p.maxDelay as real)
  {
    JitterBand(p, attempt, draw);
    NominalBounds(p, attempt);
    TimesMono(Nominal(p, attempt), p.maxDelay as real, 1.0 + Jitter(p));
  }

  lemma BelowRange(range: real, draw: real)
    requires range > 0.0 && IsDraw(draw)
    ensures Scale(draw, range) < range
  {
    TimesPositive(1.0 - draw, range);
    assert (1.0 - draw) * range == range - draw * range;
  }

  lemma {:induction false} HittingDraw(range: real, target: real) returns (draw: real)
    requires 0.0 < target < range
    ensures IsDraw(draw) && Scale(draw, range) == target
  {
    draw := target / range;
    assert draw * range == target;
    if draw >= 1.0 {
      TimesMono(1.0, draw, range);
    }
    if draw < 0.0 {
      TimesPositive(-draw, range);
    }
  }

  /** Every spread stays below `top` exactly when the widest one, which no draw attains, does not pass it. */
  lemma SpreadsBelowIff(c: real, j: real, top: real)
    requires 0.0 <= c <= top - 1.0 && j >= 0.0
    ensures (forall r :: IsDraw(r) ==> Spread(c, j, r) < top) <==> Scale(1.0 + j, c) <= top
  {
    var range := Scale(c, j);
    Times(c, j);
    assert (1.0 + j) * c == c + range;
    if c + range <= top {
      forall r | IsDraw(r)
        ensures Spread(c, j, r) < top
      {
        if range > 0.0 {
          BelowRange(range, r);
        } else {
          assert Scale(r, range) == 0.0;
        }
      }
    } else {
      var r := HittingDraw(range, top - c);
      assert Spread(c, j, r) == top;
    }
  }

  /** MaxDelay itself is a ceiling for every draw exactly when the jittered nominal delay exceeds it
      by at most the nanosecond that truncation takes away. */
  lemma MaxDelayIsCeilingIff(p: Policy, attempt: int)
    requires Sane(p) && attempt > 0
    ensures (forall r :: IsDraw(r) ==> Delay(p, attempt, r) <= p.maxDelay)
            <==> Scale(1.0 + Jitter(p), Nominal(p, attempt)) <= p.maxDelay as real + 1.0
  {
    var c, j, top := Nominal(p, attempt), Jitter(p), p.maxDelay as real + 1.0;
    NominalBounds(p, attempt);
    SpreadsBelowIff(c, j, top);
    forall r | IsDraw(r)
      ensures Delay(p, attempt, r) <= p.maxDelay <==> Spread(c, j, r) < top
    {
      SpreadBounds(c, j, r);
    }
  }

  /** The default policy allows five attempts, 100, 200, 400 and 800 milliseconds apart, give or take a
      quarter. */
  lemma DefaultPolicyBacksOff()
    ensures var p := DEFAULT_POLICY;
            && p.maxAttempts == 5 && Jitter(p) == 0.25 && p.maxDelay == 30_000_000_000
            && Nominal(p, 1) == 100_000_000.0 && Nominal(p, 2) == 200_000_000.0
            && Nominal(p, 3) == 400_000_000.0 && Nominal(p, 4) == 800_000_000.0
  {
    assert Pow(2.0, 1) == 2.0 && Pow(2.0, 2) == 4.0;
    assert Pow(2.0, 3) == 8.0;
  }

  /** The default policy, allowed twelve attempts, exceeds its MaxDelay of 30 seconds: it can sleep 33.75
      before its tenth retry. */
  lemma MaxDelayIsExceeded()
    ensures var p := DEFAULT_POLICY.(maxAttempts := 12);
            p.maxDelay == 30_000_000_000 && IsDraw(0.5) && Delay(p, 10, 0.5) == 33_750_000_000
  {
    assert Pow(2.0, 2) == 4.0;
    assert Pow(2.0, 4) == 16.0;
    assert Pow(2.0, 6) == 64.0;
    assert Pow(2.0, 8) == 256.0;
    assert Pow(2.0, 9) == 512.0;
  }

  /** A policy literal that leaves MaxDelay unset never sleeps, whatever its other fields say. */
  lemma UnsetMaxDelayNeverSleeps(p: Policy, attempt: int, draw: real)
    requires Sane(p) && p.maxDelay == 0 && IsDraw(draw)
    ensures Delay(p, attempt, draw) == 0
  {
    if attempt > 0 {
      TrueCeiling(p, attempt, draw);
      JitterBand(p, attempt, draw);
    }
  }

  /** A policy never sleeps exactly when its MaxDelay or its BaseDelay is 0. */
  lemma NeverSleepsIff(p: Policy)
    requires Sane(p)
    ensures (forall attempt: int, draw: real :: attempt > 0 && IsDraw(draw) ==> Delay(p, attempt, draw) == 0)
            <==> p.maxDelay == 0 || p.baseDelay == 0
  {
    if p.maxDelay == 0 || p.baseDelay == 0 {
      forall attempt: int, draw: real | attempt > 0 && IsDraw(draw)
        ensures Delay(p, attempt, draw) == 0
      {
        NominalBounds(p, attempt);
        JitterBand(p, attempt, draw);
      }
    } else {
      assert Nominal(p, 1) >= 1.0;
      SpreadAtZero(Nominal(p, 1), p.jitter);
      assert IsDraw(0.0) && Delay(p, 1, 0.0) >= 1;
    }
  }

  lemma SpreadAtZero(c: real, j: real)
    ensures Spread(c, j, 0.0) == c
  {
  }

  // ----- The sleep of one whole operation -----

  /** The delays before attempts 1..n. */
  function Delays(p: Policy, n: nat, draw: nat -> real): seq<int> {
    seq(n, i requires 0 <= i < n => Delay(p, i + 1, draw(i + 1)))
  }

  function Total(delays: seq<int>): int {
    if delays == [] then 0 else Total(delays[..|delays| - 1]) + delays[|delays| - 1]
  }

  ghost function ExponentialTotal(p: Policy, n: nat): real {
    if n == 0 then 0.0 else ExponentialTotal(p, n - 1) + Exponential(p, n)
  }

  function Series(base: real, m: real, pow: real): real
    requires m != 1.0
  {
    base * ((pow - 1.0) / (m - 1.0))
  }

  /** BaseDelay * (m^n - 1) / (m - 1). */
  function Geometric(p: Policy, n: nat): real
    requires Multiplier(p) != 1.0
  {
    Series(p.baseDelay as real, Multiplier(p), Pow(Multiplier(p), n))
  }

  lemma EmptySeries(base: real, m: real)
    requires m != 1.0
    ensures Series(base, m, 1.0) == 0.0
  {
    var d := m - 1.0;
    var q := (1.0 - 1.0) / d;
    assert q * d == 0.0;
    NoZeroDivisors(q, d);
  }

  lemma NoZeroDivisors(q: real, d: real)
    requires q * d == 0.0 && d != 0.0
    ensures q == 0.0
  {
    if q != 0.0 {
      TimesPositive(if q > 0.0 then q else -q, if d > 0.0 then d else -d);
    }
  }

  lemma Quotient(q: real, d: real, n: real)
    requires d != 0.0 && q * d == n
    ensures q == n / d
  {
    var r := n / d;
    assert r * d == n;
    assert (q - r) * d == q * d - r * d;
    NoZeroDivisors(q - r, d);
  }

  lemma SeriesStep(base: real, m: real, pow: real)
    requires m != 1.0
    ensures Series(base, m, pow) + Scale(base, pow) == Series(base, m, Scale(m, pow))
  {
    var d, q := m - 1.0, (pow - 1.0) / (m - 1.0);
    assert q * d == pow - 1.0;
    assert (q + pow) * d == q * d + pow * d == m * pow - 1.0;
    Quotient(q + pow, d, m * pow - 1.0);
    assert base * q + base * pow == base * (q + pow);
  }

  /** The uncapped delays sum to the geometric series exactly. */
  lemma {:induction false} UncappedTotalIsGeometric(p: Policy, n: nat)
    requires Multiplier(p) != 1.0
    ensures ExponentialTotal(p, n) == Geometric(p, n)
    ensures p.multiplier > 0.0 ==>
              ExponentialTotal(p, n) == Series(p.baseDelay as real, p.multiplier, Pow(p.multiplier, n))
  {
    var base, m := p.baseDelay as real, Multiplier(p);
    if n == 0 {
      EmptySeries(base, m);
    } else {
      UncappedTotalIsGeometric(p, n - 1);
      SeriesStep(base, m, Pow(m, n - 1));
    }
  }

  /** Hence a run without jitter whose delays stay below the cap sleeps the geometric series, but for the
      nanosecond that truncation takes from each delay. */
  lemma {:induction false} UncappedRunSleepsGeometric(p: Policy, n: nat, draw: nat -> real)
    requires Sane(p) && Multiplier(p) != 1.0 && p.jitter <= 0.0
    requires forall a: nat :: 0 < a <= n ==> Exponential(p, a) <= p.maxDelay as real
    ensures Geometric(p, n) - n as real <= Total(Delays(p, n, draw)) as real <= Geometric(p, n)
  {
    UncappedTotalIsGeometric(p, n);
    if n > 0 {
      UncappedRunSleepsGeometric(p, n - 1, draw);
      UncappedTotalIsGeometric(p, n - 1);
      NominalBounds(p, n);
      assert Delays(p, n, draw)[..n - 1] == Delays(p, n - 1, draw);
      assert Delay(p, n, draw(n)) == Exponential(p, n).Floor;
    }
  }

  lemma AddScaled(f: real, a: real, b: real, sum: real, x: real, y: real)
    requires x <= Scale(f, a) && y <= Scale(f, b) && sum == a + b
    ensures x + y <= Scale(f, sum)
  {
    assert f * (a + b) == f * a + f * b;
  }

  /** The recursion shared by the two bounds: one more delay, bounded by `b`, on top of a sum bounded by `a`. */
  lemma {:induction false} OneMoreDelay(p: Policy, n: nat, draw: nat -> real, f: real, a: real, b: real, sum: real)
    requires n > 0 && sum == a + b
    requires Total(Delays(p, n - 1, draw)) as real <= Scale(f, a) && Delay(p, n, draw(n)) as real <= Scale(f, b)
    ensures Total(Delays(p, n, draw)) as real <= Scale(f, sum)
  {
    assert Delays(p, n, draw)[..n - 1] == Delays(p, n - 1, draw);
    AddScaled(f, a, b, sum, Total(Delays(p, n - 1, draw)) as real, Delay(p, n, draw(n)) as real);
  }

  lemma {:induction false} BelowGeometric(p: Policy, n: nat, draw: nat -> real)
    requires Sane(p) && forall i :: IsDraw(draw(i))
    ensures Total(Delays(p, n, draw)) as real <= Scale(1.0 + Jitter(p), ExponentialTotal(p, n))
  {
    if n > 0 {
      BelowGeometric(p, n - 1, draw);
      JitterBand(p, n, draw(n));
      NominalBounds(p, n);
      TimesMono(Nominal(p, n), Exponential(p, n), 1.0 + Jitter(p));
      OneMoreDelay(p, n, draw, 1.0 + Jitter(p), ExponentialTotal(p, n - 1), Exponential(p, n), ExponentialTotal(p, n));
    }
  }

  lemma ScaleOneMore(n: int, x: real)
    ensures Scale(n as real, x) == Scale((n - 1) as real, x) + x
  {
    assert n as real == (n - 1) as real + 1.0;
  }

  lemma {:induction false} BelowCaps(p: Policy, n: nat, draw: nat -> real)
    requires Sane(p) && forall i :: IsDraw(draw(i))
    ensures Total(Delays(p, n, draw)) as real <= Scale(1.0 + Jitter(p), Scale(n as real, p.maxDelay as real))
  {
    if n > 0 {
      BelowCaps(p, n - 1, draw);
      TrueCeiling(p, n, draw(n));
      var top := p.maxDelay as real;
      ScaleOneMore(n, top);
      OneMoreDelay(p, n, draw, 1.0 + Jitter(p), Scale((n - 1) as real, top), top, Scale(n as real, top));
    }
  }

  lemma ScaledMin(f: real, a: real, b: real, x: real)
    requires x <= Scale(f, a) && x <= Scale(f, b)
    ensures x <= Scale(f, MinReal(a, b))
  {
  }

  /** One operation sleeps at most (1 + j) * min(n * MaxDelay, BaseDelay * (m^n - 1) / (m - 1)) over
      its n backoffs, whatever the random generator draws. */
  lemma TotalBackoffBound(p: Policy, n: nat, draw: nat -> real)
    requires Sane(p) && Multiplier(p) != 1.0 && forall i :: IsDraw(draw(i))
    ensures Total(Delays(p, n, draw)) as real
            <= Scale(1.0 + Jitter(p), MinReal(Scale(n as real, p.maxDelay as real), Geometric(p, n)))
    ensures p.multiplier > 0.0 ==>
              Total(Delays(p, n, draw)) as real
              <= Scale(1.0 + Jitter(p),
                       MinReal(Scale(n as real, p.maxDelay as real),
                               Series(p.baseDelay as real, p.multiplier, Pow(p.multiplier, n))))
  {
    BelowGeometric(p, n, draw);
    BelowCaps(p, n, draw);
    UncappedTotalIsGeometric(p, n);
    ScaledMin(1.0 + Jitter(p), Scale(n as real, p.maxDelay as real), Geometric(p, n),
              Total(Delays(p, n, draw)) as real);
  }
}
