/** The sum of a map's values, which is how money held in a table is counted. */
module Sums {

  ghost function Total<K>(m: map<K, nat>): nat
    decreases |m.Keys|
  {
    if m.Keys == {} then 0
    else
      var k :| k in m.Keys;
      assert (m - {k}).Keys == m.Keys - {k};
      m[k] + Total(m - {k})
  }

  lemma {:induction false} TotalRemove<K>(m: map<K, nat>, k: K)
    requires k in m
    ensures Total(m) == m[k] + Total(m - {k})
    decreases |m.Keys|
  {
    var j :| j in m.Keys && Total(m) == m[j] + Total(m - {j});
    if j != k {
      assert (m - {j}).Keys == m.Keys - {j};
      assert (m - {k}).Keys == m.Keys - {k};
      TotalRemove(m - {j}, k);
      TotalRemove(m - {k}, j);
      assert m - {j} - {k} == m - {k} - {j};
    }
  }

  lemma TotalUpdate<K>(m: map<K, nat>, k: K, v: nat)
    ensures Total(m[k := v]) == Total(m) - (if k in m then m[k] else 0) + v
  {
    TotalRemove(m[k := v], k);
    if k in m {
      TotalRemove(m, k);
      assert m[k := v] - {k} == m - {k};
    } else {
      assert m[k := v] - {k} == m;
    }
  }
}
