/** Sums over the values of a map, in any order. */
module MapTotals {
  ghost function Total<K(!new), V>(m: map<K, V>, f: V -> nat): nat
    decreases |m|
  {
    if m == map[] then 0
    else
      var k :| k in m;
      f(m[k]) + Total(m - {k}, f)
  }

  lemma {:induction false} TotalWithout<K(!new), V>(m: map<K, V>, f: V -> nat, k: K)
    requires k in m
    ensures Total(m, f) == f(m[k]) + Total(m - {k}, f)
    decreases |m|
  {
    var first :| first in m && Total(m, f) == f(m[first]) + Total(m - {first}, f);
    if first != k {
      TotalWithout(m - {first}, f, k);
      TotalWithout(m - {k}, f, first);
      assert m - {first} - {k} == m - {k} - {first};
    }
  }

  lemma TotalWith<K(!new), V>(m: map<K, V>, f: V -> nat, k: K, v: V)
    ensures Total(m[k := v], f) == f(v) + Total(m - {k}, f)
  {
    TotalWithout(m[k := v], f, k);
    assert m[k := v] - {k} == m - {k};
  }

  /** Replacing one value changes the total by the difference. */
  lemma TotalReplaced<K(!new), V>(m: map<K, V>, f: V -> nat, k: K, v: V)
    requires k in m
    ensures Total(m[k := v], f) + f(m[k]) == Total(m, f) + f(v)
  {
    TotalWith(m, f, k, v);
    TotalWithout(m, f, k);
  }

  /** Putting a value adds it, and loses the value it overwrites. */
  lemma TotalPut<K(!new), V>(m: map<K, V>, f: V -> nat, k: K, v: V)
    ensures Total(m[k := v], f) + (if k in m then f(m[k]) else 0) == Total(m, f) + f(v)
  {
    TotalWith(m, f, k, v);
    if k in m {
      TotalWithout(m, f, k);
    } else {
      assert m - {k} == m;
    }
  }

  lemma PartsWithout<K, V>(m: map<K, V>, kept: map<K, V>, dropped: map<K, V>, k: K)
    requires kept.Keys !! dropped.Keys && m == kept + dropped && k in dropped
    ensures k in m && m[k] == dropped[k] && m - {k} == kept + (dropped - {k})
    ensures kept.Keys !! (dropped - {k}).Keys
  {
  }

  /** The total of a map is the total of its parts. */
  lemma {:induction false} TotalParts<K(!new), V>(m: map<K, V>, kept: map<K, V>, dropped: map<K, V>, f: V -> nat)
    requires kept.Keys !! dropped.Keys && m == kept + dropped
    ensures Total(m, f) == Total(kept, f) + Total(dropped, f)
    decreases dropped.Keys
  {
    if dropped.Keys == {} {
      assert m == kept && dropped == map[];
    } else {
      var k :| k in dropped.Keys;
      PartsWithout(m, kept, dropped, k);
      TotalParts(m - {k}, kept, dropped - {k}, f);
      TotalWithout(m, f, k);
      TotalWithout(dropped, f, k);
    }
  }

  /** Shifting weight between two values keeps the total, also when the one left empty is removed. */
  lemma TotalShifted<K(!new), V>(m: map<K, V>, f: V -> nat, a: K, b: K, a': V, b': V)
    requires a in m && b in m && a != b && f(a') + f(b') == f(m[a]) + f(m[b])
    ensures Total((m - {a})[b := b'][a := a'], f) == Total(m, f)
    ensures Total((m - {a})[b := b'], f) + f(a') == Total(m, f)
  {
    TotalWithout(m, f, a);
    TotalReplaced(m - {a}, f, b, b');
    TotalPut((m - {a})[b := b'], f, a, a');
  }

  /** Larger values have a larger total. */
  lemma {:induction false} TotalMonotone<K(!new), V>(m: map<K, V>, n: map<K, V>, f: V -> nat)
    requires m.Keys == n.Keys && forall k :: k in m ==> f(m[k]) <= f(n[k])
    ensures Total(m, f) <= Total(n, f)
    decreases |m|
  {
    if m == map[] {
      assert n == map[];
    } else {
      var k :| k in m;
      TotalWithout(m, f, k);
      TotalWithout(n, f, k);
      TotalMonotone(m - {k}, n - {k}, f);
    }
  }
}
