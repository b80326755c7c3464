/** The sum of the values of a finite map, whatever order the entries are visited in. */
module MapSum {
  ghost function Sum<K>(m: map<K, int>): (total: int)
    decreases |m|
  {
    if m == map[] then 0 else
      var k :| k in m;
      m[k] + Sum(m - {k})
  }

  lemma {:induction false} SumSplit<K>(m: map<K, int>, k: K)
    requires k in m
    ensures Sum(m) == m[k] + Sum(m - {k})
    decreases |m|
  {
    var j :| j in m && Sum(m) == m[j] + Sum(m - {j});
    if j != k {
      SumSplit(m - {j}, k);
      SumSplit(m - {k}, j);
      assert m - {j} - {k} == m - {k} - {j};
    }
  }

  lemma SumUpdate<K>(m: map<K, int>, k: K, v: int)
    ensures Sum(m[k := v]) == Sum(m) - (if k in m then m[k] else 0) + v
  {
    var m' := m[k := v];
    SumSplit(m', k);
    assert m' - {k} == m - {k};
    if k in m {
      SumSplit(m, k);
    } else {
      assert m - {k} == m;
    }
  }

  lemma {:induction false} SumNonNegative<K>(m: map<K, int>)
    requires forall k :: k in m ==> m[k] >= 0
    ensures Sum(m) >= 0
    decreases |m|
  {
    if m != map[] {
      var k :| k in m;
      SumSplit(m, k);
      SumNonNegative(m - {k});
    }
  }

  lemma {:induction false} SumDropZeros<K>(m: map<K, int>, some: map<K, int>)
    requires some.Keys <= m.Keys && forall k :: k in some ==> some[k] == m[k]
    requires forall k :: k in m && k !in some ==> m[k] == 0
    ensures Sum(m) == Sum(some)
    decreases |m|
  {
    if m != map[] {
      var k :| k in m;
      SumSplit(m, k);
      if k in some {
        SumSplit(some, k);
        SumDropZeros(m - {k}, some - {k});
      } else {
        assert some.Keys <= (m - {k}).Keys;
        SumDropZeros(m - {k}, some);
      }
    } else {
      assert some == map[];
    }
  }

  lemma {:induction false} SumAtMost<K>(a: map<K, int>, b: map<K, int>)
    requires a.Keys <= b.Keys && forall k :: k in a ==> a[k] <= b[k]
    requires forall k :: k in b && k !in a ==> b[k] >= 0
    ensures Sum(a) <= Sum(b)
    decreases |b|
  {
    if b != map[] {
      var k :| k in b;
      SumSplit(b, k);
      if k in a {
        SumSplit(a, k);
        SumAtMost(a - {k}, b - {k});
      } else {
        assert a.Keys <= (b - {k}).Keys;
        SumAtMost(a, b - {k});
      }
    } else {
      assert a == map[];
    }
  }
}
