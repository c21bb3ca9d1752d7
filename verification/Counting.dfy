/** Sums over maps and counts over the calls of a system. */
module Counting {

  /** The sum of the values of a finite map. */
  ghost function Sum<K(!new)>(m: map<K, int>): int {
    if m == map[] then 0
    else
      var k :| k in m;
      m[k] + Sum(m - {k})
  }

  /** The sum does not depend on the order in which keys are visited. */
  lemma {:induction false} SumRemove<K(!new)>(m: map<K, int>, k: K)
    requires k in m
    ensures Sum(m) == m[k] + Sum(m - {k})
    decreases |m|
  {
    assert m != map[];
    var first :| first in m && Sum(m) == m[first] + Sum(m - {first});
    if first != k {
      SumRemove(m - {first}, k);
      SumRemove(m - {k}, first);
      assert (m - {first}) - {k} == (m - {k}) - {first};
    }
  }

  lemma SumUpdate<K(!new)>(m: map<K, int>, k: K, v: int)
    ensures Sum(m[k := v]) == Sum(m) + v - if k in m then m[k] else 0
  {
    SumRemove(m[k := v], k);
    if k in m {
      SumRemove(m, k);
      assert m[k := v] - {k} == m - {k};
    } else {
      assert m[k := v] - {k} == m;
    }
  }

  lemma OneMore(n: int, a: int)
    ensures (n + 1) * a == n * a + a
  {
  }

  /** A sum is at most `bound` times the number of its positive entries. */
  lemma {:induction false} SumBound<K(!new)>(m: map<K, int>, positive: set<K>, bound: nat)
    requires forall k :: k in m ==> m[k] <= bound && (m[k] > 0 ==> k in positive)
    ensures Sum(m) <= |positive| * bound
    decreases |m|, 1
  {
    if m == map[] {
      assert 0 <= |positive| * bound;
    } else {
      var k :| k in m;
      SumRemove(m, k);
      SumBoundStep(m, k, positive, bound);
    }
  }

  lemma {:induction false} SumBoundStep<K(!new)>(m: map<K, int>, k: K, positive: set<K>, bound: nat)
    requires k in m && forall j :: j in m ==> m[j] <= bound && (m[j] > 0 ==> j in positive)
    ensures m[k] + Sum(m - {k}) <= |positive| * bound
    decreases |m|, 0
  {
    if k in positive {
      SumBound(m - {k}, positive - {k}, bound);
      OneMore(|positive - {k}|, bound);
      assert |positive| == |positive - {k}| + 1;
    } else {
      SumBound(m - {k}, positive, bound);
    }
  }

  /** The keys of the entries that satisfy `p`. */
  function Where<V>(m: map<nat, V>, p: V -> bool): set<nat> {
    set k | k in m && p(m[k])
  }

  /** How one update of the map changes such a count. */
  lemma CountUpdate<V>(m: map<nat, V>, k: nat, v: V, p: V -> bool)
    ensures |Where(m[k := v], p)| == |Where(m, p)| + (if p(v) then 1 else 0) - (if k in m && p(m[k]) then 1 else 0)
  {
    var others := Where(m, p) - {k};
    assert Where(m[k := v], p) == if p(v) then others + {k} else others;
    assert Where(m, p) == if k in m && p(m[k]) then others + {k} else others;
  }

  /** A count is the sum of the counts of two predicates that split it. */
  lemma CountSplit<V>(m: map<nat, V>, p: V -> bool, q: V -> bool, r: V -> bool)
    requires forall k :: k in m ==> (p(m[k]) <==> q(m[k]) || r(m[k])) && !(q(m[k]) && r(m[k]))
    ensures |Where(m, p)| == |Where(m, q)| + |Where(m, r)|
  {
    assert Where(m, p) == Where(m, q) + Where(m, r);
    assert Where(m, q) !! Where(m, r);
  }
}
