/** The sum of a measure over the values of a finite map. */
module Sums {
  ghost function Sum<K, V>(m: map<K, V>, w: V -> nat): nat {
    if m == map[] then 0
    else
      var k :| k in m;
      w(m[k]) + Sum(m - {k}, w)
  }

  /** Any key may be taken out first. */
  lemma {:induction false} SumWithout<K, V>(m: map<K, V>, w: V -> nat, k: K)
    requires k in m
    ensures Sum(m, w) == w(m[k]) + Sum(m - {k}, w)
    decreases |m|
  {
    var j :| j in m && Sum(m, w) == w(m[j]) + Sum(m - {j}, w);
    if j != k {
      SumWithout(m - {j}, w, k);
      SumWithout(m - {k}, w, j);
      assert m - {j} - {k} == m - {k} - {j};
    }
  }

  lemma {:induction false} SumUpdate<K, V>(m: map<K, V>, w: V -> nat, k: K, v: V)
    ensures Sum(m[k := v], w) == w(v) + Sum(m - {k}, w)
  {
    SumWithout(m[k := v], w, k);
    assert m[k := v] - {k} == m - {k};
  }

  /** Sums that agree key by key are equal. */
  lemma {:induction false} SumSame<K, V>(m: map<K, V>, n: map<K, V>, w: V -> nat)
    requires m.Keys == n.Keys
    requires forall k :: k in m ==> w(m[k]) == w(n[k])
    ensures Sum(m, w) == Sum(n, w)
    decreases |m|
  {
    if m != map[] {
      var k :| k in m;
      SumWithout(m, w, k);
      SumWithout(n, w, k);
      SumSame(m - {k}, n - {k}, w);
    } else {
      assert n == map[];
    }
  }

  function Within<K, V>(m: map<K, V>, part: set<K>): map<K, V> { map k | k in m && k in part :: m[k] }

  /** A sum is the sum over a part and the sum over the rest. */
  lemma {:induction false} SumParts<K, V>(m: map<K, V>, w: V -> nat, part: set<K>)
    requires part <= m.Keys
    ensures Sum(m, w) == Sum(Within(m, part), w) + Sum(m - part, w)
    decreases part
  {
    if part == {} {
      assert Within(m, part) == map[] && m - part == m;
    } else {
      var k :| k in part;
      SumWithout(m, w, k);
      SumWithout(Within(m, part), w, k);
      PartsWithout(m, part, k);
      SumParts(m - {k}, w, part - {k});
    }
  }

  lemma {:induction false} PartsWithout<K, V>(m: map<K, V>, part: set<K>, k: K)
    requires k in part
    ensures Within(m - {k}, part - {k}) == Within(m, part) - {k}
    ensures (m - {k}) - (part - {k}) == m - part
  {
  }
}
