/**
 Sums over the values of a finite map.

 A map has no order, so the definition picks any entry first. That the sum
 does not depend on the pick is the first thing to prove; that changing one
 entry changes the sum by as much, and that a positive sum has a positive
 entry, is what the accounts of the relay need.
 */

module Totals {

  ghost function Total<K>(m: map<K, nat>): nat
    decreases |m|
  {
    if m == map[] then 0 else
      var k :| k in m;
      Smaller(m, k);
      m[k] + Total(m - {k})
  }

  lemma {:induction false} Smaller<K>(m: map<K, nat>, k: K)
    requires k in m
    ensures |m - {k}| == |m| - 1
  {
    assert m.Keys == (m - {k}).Keys + {k};
  }

  lemma {:induction false} TotalSplit<K>(m: map<K, nat>, k: K)
    requires k in m
    ensures Total(m) == m[k] + Total(m - {k})
    decreases |m|
  {
    var l :| l in m && Total(m) == m[l] + Total(m - {l});
    if l != k {
      var without_l, without_k := m - {l}, m - {k};
      Smaller(m, k);
      Smaller(m, l);
      TotalSplit(without_l, k);
      TotalSplit(without_k, l);
      assert without_l[k] == m[k] && without_k[l] == m[l];
      assert without_l - {k} == without_k - {l};
      assert Total(without_l) == m[k] + Total(without_l - {k});
      assert Total(without_k) == m[l] + Total(without_k - {l});
      assert Total(m) == m[l] + Total(without_l);
      assert Total(without_l - {k}) == Total(without_k - {l});
    } else {
      assert Total(m) == m[k] + Total(m - {k});
    }
  }

  /** Changing one entry changes the total by as much. */
  lemma {:induction false} TotalUpdate<K>(m: map<K, nat>, k: K, v: nat)
    ensures Total(m[k := v]) == Total(m - {k}) + v
    ensures k in m ==> Total(m) == Total(m - {k}) + m[k]
    ensures k !in m ==> m - {k} == m
  {
    TotalSplit(m[k := v], k);
    assert m[k := v] - {k} == m - {k};
    if k in m {
      TotalSplit(m, k);
    }
  }

  lemma {:induction false} PositiveTotal<K>(m: map<K, nat>) returns (k: K)
    requires Total(m) > 0
    ensures k in m && m[k] > 0
    decreases |m|
  {
    var l :| l in m && Total(m) == m[l] + Total(m - {l});
    Smaller(m, l);
    if m[l] > 0 {
      k := l;
    } else {
      k := PositiveTotal(m - {l});
    }
  }
}
