/** Sums over the entries of a finite map, and how one update changes them. */
module MapSums {
  import opened Clarity

  ghost function SumIf<K(!new)>(m: map<K, nat>, p: K -> bool): nat
    decreases |m|
  {
    if m == map[] then 0
    else
      var k :| k in m;
      (if p(k) then m[k] else 0) + SumIf(m - {k}, p)
  }

  lemma {:induction false} SumIfRemove<K(!new)>(m: map<K, nat>, p: K -> bool, k: K)
    requires k in m
    ensures SumIf(m, p) == (if p(k) then m[k] else 0) + SumIf(m - {k}, p)
    decreases |m|
  {
    var first :| first in m && SumIf(m, p) == (if p(first) then m[first] else 0) + SumIf(m - {first}, p);
    if first != k {
      SumIfRemove(m - {first}, p, k);
      SumIfRemove(m - {k}, p, first);
      assert m - {first} - {k} == m - {k} - {first};
    }
  }

  /** Writing `v` at `k` moves the sum by exactly the change at `k`. */
  lemma SumIfUpdate<K(!new)>(m: map<K, nat>, p: K -> bool, k: K, v: nat)
    ensures SumIf(m[k := v], p) == SumIf(m, p) + (if p(k) then v - Lookup(m, k) else 0)
  {
    SumIfRemove(m[k := v], p, k);
    assert m[k := v] - {k} == m - {k};
    if k in m {
      SumIfRemove(m, p, k);
    } else {
      assert m - {k} == m;
    }
  }

  /** No entry counted by the sum exceeds it. */
  lemma SumIfBounds<K(!new)>(m: map<K, nat>, p: K -> bool, k: K)
    requires p(k)
    ensures Lookup(m, k) <= SumIf(m, p)
  {
    if k in m {
      SumIfRemove(m, p, k);
    }
  }

  /** Two different entries counted by the sum do not exceed it together. */
  lemma SumIfBoundsTwo<K(!new)>(m: map<K, nat>, p: K -> bool, j: K, k: K)
    requires p(j) && p(k) && j != k
    ensures Lookup(m, j) + Lookup(m, k) <= SumIf(m, p)
  {
    if j in m {
      SumIfRemove(m, p, j);
      SumIfBounds(m - {j}, p, k);
    } else {
      SumIfBounds(m, p, k);
    }
  }

  lemma {:induction false} SumIfZero<K(!new)>(m: map<K, nat>, p: K -> bool)
    requires forall k :: k in m && p(k) ==> m[k] == 0
    ensures SumIf(m, p) == 0
    decreases |m|
  {
    if m != map[] {
      var k :| k in m && SumIf(m, p) == (if p(k) then m[k] else 0) + SumIf(m - {k}, p);
      SumIfZero(m - {k}, p);
    }
  }

  /** Counting more entries gives no smaller sum. */
  lemma {:induction false} SumIfWider<K(!new)>(m: map<K, nat>, p: K -> bool, q: K -> bool)
    requires forall k :: p(k) ==> q(k)
    ensures SumIf(m, p) <= SumIf(m, q)
    decreases |m|
  {
    if m != map[] {
      var k :| k in m && SumIf(m, p) == (if p(k) then m[k] else 0) + SumIf(m - {k}, p);
      SumIfRemove(m, q, k);
      SumIfWider(m - {k}, p, q);
    }
  }
}
