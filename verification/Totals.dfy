/** Sums over finite maps, the arithmetic behind "the four views agree". */
module Totals {

  ghost function Total<K(!new)>(m: map<K, int>): int
  {
    if m == map[] then 0 else
      var k :| k in m;
      m[k] + Total(m - {k})
  }

  // The sum does not depend on which key is taken out first.
  lemma {:induction false} TotalRemove<K(!new)>(m: map<K, int>, k: K)
    requires k in m
    ensures Total(m) == m[k] + Total(m - {k})
    decreases |m|
  {
    var first: K :| first in m && Total(m) == m[first] + Total(m - {first});
    if first != k {
      TotalRemove(m - {first}, k);
      TotalRemove(m - {k}, first);
      assert m - {first} - {k} == m - {k} - {first};
    }
  }

  lemma TotalSet<K(!new)>(m: map<K, int>, k: K, v: int)
    ensures Total(m[k := v]) == Total(m) + v - (if k in m then m[k] else 0)
  {
    TotalRemove(m[k := v], k);
    if k in m {
      TotalRemove(m, k);
      assert m[k := v] - {k} == m - {k};
    } else {
      assert m[k := v] - {k} == m;
    }
  }

  lemma {:induction false} TotalNonNegative<K(!new)>(m: map<K, int>)
    requires forall k :: k in m ==> 0 <= m[k]
    ensures 0 <= Total(m)
    ensures forall k :: k in m ==> m[k] <= Total(m)
    decreases |m|
  {
    forall k | k in m
      ensures m[k] <= Total(m)
    {
      TotalRemove(m, k);
      TotalNonNegative(m - {k});
    }
  }

  // Entries worth nothing can be left out.
  lemma {:induction false} TotalDropZeros<K(!new)>(m: map<K, int>, keep: set<K>)
    requires keep <= m.Keys
    requires forall k :: k in m && k !in keep ==> m[k] == 0
    ensures Total(m) == Total(map k | k in keep :: m[k])
    decreases |m|
  {
    if m.Keys == keep {
      assert m == map k | k in keep :: m[k];
    } else {
      var k :| k in m && k !in keep;
      TotalRemove(m, k);
      TotalDropZeros(m - {k}, keep);
      assert (map i | i in keep :: (m - {k})[i]) == (map i | i in keep :: m[i]);
    }
  }

  lemma TotalUnionStep<K(!new)>(a: map<K, int>, b: map<K, int>, k: K)
    requires k in b && k !in a
    ensures Total(a + b) == b[k] + Total(a + (b - {k}))
  {
    TotalRemove(a + b, k);
    assert (a + b) - {k} == a + (b - {k});
  }

  lemma {:induction false} TotalUnion<K(!new)>(a: map<K, int>, b: map<K, int>)
    requires forall k :: k in b ==> k !in a
    ensures Total(a + b) == Total(a) + Total(b)
    decreases |b|
  {
    if |b| == 0 {
      assert a + b == a;
    } else {
      var k :| k in b;
      TotalUnionStep(a, b, k);
      TotalRemove(b, k);
      TotalUnion(a, b - {k});
    }
  }

  // A part weighs no more than the whole.
  lemma TotalPart<K(!new)>(part: map<K, int>, whole: map<K, int>)
    requires forall k :: k in part ==> k in whole && part[k] == whole[k]
    requires forall k :: k in whole ==> 0 <= whole[k]
    ensures 0 <= Total(part) <= Total(whole)
  {
    var rest := whole - part.Keys;
    assert part + rest == whole;
    TotalUnion(part, rest);
    TotalNonNegative(part);
    TotalNonNegative(rest);
  }
}
