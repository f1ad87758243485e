/** Sums over finite maps, in any order. */
module Sums {
  import opened Counts

  ghost function Sum<K>(m: map<K, int>): int
    decreases |m|
  {
    if m == map[] then 0
    else
      var k :| k in m;
      m[k] + Sum(m - {k})
  }

  lemma {:induction false} SumRemove<K>(m: map<K, int>, k: K)
    requires k in m
    ensures Sum(m) == m[k] + Sum(m - {k})
    decreases |m|
  {
    var j :| j in m && Sum(m) == m[j] + Sum(m - {j});
    if j != k {
      SumRemove(m - {j}, k);
      SumRemove(m - {k}, j);
      assert m - {j} - {k} == m - {k} - {j};
    }
  }

  lemma SumPut<K>(m: map<K, int>, k: K, v: int)
    ensures Sum(m[k := v]) == Sum(m) - Count(m, k) + v
  {
    SumRemove(m[k := v], k);
    assert m[k := v] - {k} == m - {k};
    if k in m {
      SumRemove(m, k);
    } else {
      assert m - {k} == m;
    }
  }

  /** Adding one to the count of every element of s adds |s| to the sum. */
  lemma {:induction false} SumIncAll<K>(m: map<K, int>, s: set<K>)
    ensures Sum(IncAll(m, s)) == Sum(m) + |s|
  {
    if s == {} {
      assert IncAll(m, s) == m;
    } else {
      var k :| k in s;
      var rest := s - {k};
      assert s == rest + {k};
      SumIncAll(m, rest);
      IncStep(m, rest, k);
      SumPut(IncAll(m, rest), k, Count(IncAll(m, rest), k) + 1);
    }
  }

  /** A sum of counts that are all positive is at least their number, and equal to it exactly
      when every count is one. */
  lemma {:induction false} SumOfPositive<K>(m: map<K, int>)
    requires forall k | k in m :: m[k] >= 1
    ensures Sum(m) >= |m|
    ensures Sum(m) == |m| <==> forall k | k in m :: m[k] == 1
    decreases |m|
  {
    if m != map[] {
      var k :| k in m;
      SumRemove(m, k);
      SumOfPositive(m - {k});
      assert |m - {k}| == |m| - 1 by {
        assert (m - {k}).Keys == m.Keys - {k};
      }
      if forall j | j in m - {k} :: m[j] == 1 {
        assert forall j | j in m - {k} :: (m - {k})[j] == 1;
      }
    }
  }
}
