/** Sums over the values of a finite map. */
module MapSums {
  function At<K>(m: map<K, nat>, k: K): nat { if k in m then m[k] else 0 }

  ghost function SumOf<K>(m: map<K, nat>): nat
    decreases |m|
  {
    if m == map[] then 0 else
      assert m.Keys != {};
      var k :| k in m;
      assert |m.Keys - {k}| < |m.Keys|;
      m[k] + SumOf(m - {k})
  }

  lemma {:induction false} SumOfRemove<K>(m: map<K, nat>, k: K)
    requires k in m
    ensures SumOf(m) == m[k] + SumOf(m - {k})
    decreases |m|
  {
    assert m.Keys != {};
    var c :| c in m && SumOf(m) == m[c] + SumOf(m - {c});
    if c != k {
      assert |m.Keys - {c}| < |m.Keys|;
      assert |m.Keys - {k}| < |m.Keys|;
      SumOfRemove(m - {c}, k);
      SumOfRemove(m - {k}, c);
      assert m - {c} - {k} == m - {k} - {c};
    }
  }

  /** Changing one value changes the sum by the same amount. */
  lemma {:induction false} SumOfUpdate<K>(m: map<K, nat>, k: K, v: nat)
    ensures SumOf(m[k := v]) == SumOf(m) - At(m, k) + v
  {
    SumOfRemove(m[k := v], k);
    assert m[k := v] - {k} == m - {k};
    if k in m { SumOfRemove(m, k); } else { assert m - {k} == m; }
  }
}
