/** Sums of the values of a finite map. */
module MapSums {

  ghost function Sum<K(!new)>(m: map<K, int>): int {
    if m == map[] then 0
    else
      var k :| k in m;
      m[k] + Sum(m - {k})
  }

  lemma {:induction false} SumEmpty<K(!new)>()
    ensures Sum<K>(map[]) == 0
  {
  }

  lemma {:induction false} SumRemove<K(!new)>(m: map<K, int>, k: K)
    requires k in m
    ensures Sum(m) == m[k] + Sum(m - {k})
    decreases |m|
  {
    var j :| j in m && Sum(m) == m[j] + Sum(m - {j});
    if j != k {
      SumRemove(m - {j}, k);
      SumRemove(m - {k}, j);
      assert m - {j} - {k} == m - {k} - {j};
    }
  }

  lemma {:induction false} SumSet<K(!new)>(m: map<K, int>, k: K, v: int)
    ensures Sum(m[k := v]) == Sum(m) - (if k in m then m[k] else 0) + v
  {
    SumRemove(m[k := v], k);
    assert m[k := v] - {k} == m - {k};
    if k in m {
      SumRemove(m, k);
    } else {
      assert m - {k} == m;
    }
  }

  lemma {:induction false} SumNonNegative<K(!new)>(m: map<K, int>)
    requires forall k :: k in m ==> 0 <= m[k]
    ensures 0 <= Sum(m)
    decreases |m|
  {
    if m != map[] {
      var k :| k in m;
      SumRemove(m, k);
      SumNonNegative(m - {k});
    }
  }

  /** A pointwise bound on a smaller domain bounds the sum. */
  lemma {:induction false} SumBelow<K(!new)>(m: map<K, int>, n: map<K, int>)
    requires m.Keys <= n.Keys
    requires forall k :: k in m ==> m[k] <= n[k]
    requires forall k :: k in n ==> 0 <= n[k]
    ensures Sum(m) <= Sum(n)
    decreases |n|
  {
    if n != map[] {
      var k :| k in n;
      SumRemove(n, k);
      SumBelow(m - {k}, n - {k});
      if k in m {
        SumRemove(m, k);
      } else {
        assert m - {k} == m;
      }
    }
  }

  lemma {:induction false} MergeOne<K(!new)>(m: map<K, int>, n: map<K, int>, k: K)
    requires k in n
    ensures m + n == (m + (n - {k}))[k := n[k]]
    ensures k in m + (n - {k}) <==> k in m
    ensures k in m ==> (m + (n - {k}))[k] == m[k]
  {
  }

  /** Merging non-negative maps adds at most both sums. */
  lemma {:induction false} SumMerge<K(!new)>(m: map<K, int>, n: map<K, int>)
    requires forall k :: k in m ==> 0 <= m[k]
    requires forall k :: k in n ==> 0 <= n[k]
    ensures Sum(m + n) <= Sum(m) + Sum(n)
    decreases |n|
  {
    if n == map[] {
      assert m + n == m;
    } else {
      hide Sum;
      var k :| k in n;
      var rest := n - {k};
      SumRemove(n, k);
      SumMerge(m, rest);
      MergeOne(m, n, k);
      SumSet(m + rest, k, n[k]);
      assert k in m + rest ==> k in m;
    }
  }

  lemma {:induction false} SumNothing<K(!new)>(m: map<K, int>, n: map<K, int>)
    requires n == map[]
    ensures Sum(m + n) == Sum(m) + Sum(n)
  {
    assert m + n == m;
  }

  /** Maps on different keys add up. */
  lemma {:induction false} SumDisjoint<K(!new)>(m: map<K, int>, n: map<K, int>)
    requires m.Keys !! n.Keys
    ensures Sum(m + n) == Sum(m) + Sum(n)
    decreases |n|
  {
    if n == map[] {
      SumNothing(m, n);
    } else {
      hide Sum;
      var k :| k in n;
      var rest := n - {k};
      SumRemove(n, k);
      SumDisjoint(m, rest);
      MergeOne(m, n, k);
      SumSet(m + rest, k, n[k]);
    }
  }
}
