/** Sums of a finite map's values: balances, pools and stakes are all held in such maps. */
module Sums {

  function Get<K>(m: map<K, nat>, k: K): nat { if k in m then m[k] else 0 }

  /** A write of zero deletes the key, as SetAccount and SetPool do. */
  function Put<K>(m: map<K, nat>, k: K, v: nat): map<K, nat> {
    if v == 0 then m - {k} else m[k := v]
  }

  ghost function Sum<K>(m: map<K, nat>): nat
    decreases |m|
  {
    if m.Keys == {} then 0 else
      var k :| k in m.Keys;
      assert |m - {k}| < |m| by { Shrinks(m, k); }
      m[k] + Sum(m - {k})
  }

  lemma Shrinks<K>(m: map<K, nat>, k: K)
    requires k in m
    ensures |m - {k}| < |m|
  {
    assert (m - {k}).Keys == m.Keys - {k};
    assert |(m - {k}).Keys| < |m.Keys|;
  }

  /** The sum does not depend on the order in which the keys are visited. */
  lemma {:induction false} SumRemove<K>(m: map<K, nat>, k: K)
    requires k in m
    ensures Sum(m) == m[k] + Sum(m - {k})
    decreases |m|
  {
    var j :| j in m.Keys && Sum(m) == m[j] + Sum(m - {j});
    if j != k {
      Shrinks(m, j);
      Shrinks(m, k);
      SumRemove(m - {j}, k);
      SumRemove(m - {k}, j);
      assert m - {j} - {k} == m - {k} - {j};
    }
  }

  /** One write changes the sum by exactly the change at that key. */
  lemma {:induction false} SumPut<K>(m: map<K, nat>, k: K, v: nat)
    ensures Sum(Put(m, k, v)) == Sum(m) - Get(m, k) + v
    ensures Get(m, k) <= Sum(m)
    ensures Get(Put(m, k, v), k) == v
    ensures forall j :: j != k ==> Get(Put(m, k, v), j) == Get(m, j)
  {
    if k in m { SumRemove(m, k); } else { assert m - {k} == m; }
    if v != 0 {
      SumRemove(m[k := v], k);
      assert m[k := v] - {k} == m - {k};
    }
  }

  /** The same for a write that keeps the key. */
  lemma SumSet<K>(m: map<K, nat>, k: K, v: nat)
    ensures Sum(m[k := v]) == Sum(m) - Get(m, k) + v && Get(m, k) <= Sum(m)
  {
    if k in m { SumRemove(m, k); } else { assert m - {k} == m; }
    SumRemove(m[k := v], k);
    assert m[k := v] - {k} == m - {k};
  }

  lemma {:induction false} SumAtLeastTwo<K>(m: map<K, nat>, j: K, k: K)
    requires j != k
    ensures Get(m, j) + Get(m, k) <= Sum(m)
  {
    if j in m {
      SumRemove(m, j);
      if k in m { SumRemove(m - {j}, k); }
    } else if k in m {
      SumRemove(m, k);
    }
  }
}
