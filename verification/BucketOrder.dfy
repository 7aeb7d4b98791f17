/** The order in which buckets are consumed: earliest expiry first, buckets that
    never expire last, then older first, then smaller id. */
module BucketOrder {
  import opened Wrappers
  import opened Credits

  // The "less" function handed to the stable sort.
  predicate Before(left: Bucket, right: Bucket) {
    if left.expiresAt.None? && right.expiresAt.Some? then false
    else if left.expiresAt.Some? && right.expiresAt.None? then true
    else if left.expiresAt.Some? && right.expiresAt.Some? && left.expiresAt.value != right.expiresAt.value then
      left.expiresAt.value < right.expiresAt.value
    else if left.createdAt != right.createdAt then left.createdAt < right.createdAt
    else left.id < right.id
  }

  predicate Sorted(s: seq<Bucket>) {
    forall i, j :: 0 <= i < j < |s| ==> Before(s[i], s[j])
  }

  predicate DistinctIds(s: seq<Bucket>) {
    forall i, j :: 0 <= i < j < |s| ==> s[i].id != s[j].id
  }

  // Expires at or before the horizon; no horizon means every bucket.
  predicate Within(b: Bucket, horizon: Option<Time>) {
    horizon.None? || PastExpiry(b, horizon.value)
  }

  // Stable insertion: x came before everything in s.
  function Insert(x: Bucket, s: seq<Bucket>): (r: seq<Bucket>)
    ensures multiset(r) == multiset{x} + multiset(s)
  {
    if s == [] then [x]
    else if Before(s[0], x) then
      assert s == [s[0]] + s[1..];
      [s[0]] + Insert(x, s[1..])
    else [x] + s
  }

  function Sort(s: seq<Bucket>): (r: seq<Bucket>)
    ensures multiset(r) == multiset(s)
  {
    if s == [] then []
    else
      assert s == [s[0]] + s[1..];
      Insert(s[0], Sort(s[1..]))
  }

  lemma MultisetMember(s: seq<Bucket>, t: seq<Bucket>, x: Bucket)
    requires multiset(s) == multiset(t)
    ensures x in s <==> x in t
  {
    assert x in s <==> x in multiset(s);
    assert x in t <==> x in multiset(t);
  }

  lemma {:induction false} InsertKeepsSorted(x: Bucket, s: seq<Bucket>)
    requires Sorted(s)
    requires forall i :: 0 <= i < |s| ==> s[i].id != x.id
    ensures Sorted(Insert(x, s))
  {
    if s != [] && Before(s[0], x) {
      InsertKeepsSorted(x, s[1..]);
      var r := Insert(x, s[1..]);
      forall i | 0 <= i < |r|
        ensures Before(s[0], r[i])
      {
        assert r[i] in multiset(r);
        assert r[i] == x || r[i] in multiset(s[1..]);
        assert r[i] == x || r[i] in s[1..];
      }
    }
  }

  lemma {:induction false} SortSorts(s: seq<Bucket>)
    requires DistinctIds(s)
    ensures Sorted(Sort(s))
    ensures forall x :: x in Sort(s) <==> x in s
  {
    if s != [] {
      SortSorts(s[1..]);
      forall i | 0 <= i < |Sort(s[1..])|
        ensures Sort(s[1..])[i].id != s[0].id
      {
        assert Sort(s[1..])[i] in s[1..];
      }
      InsertKeepsSorted(s[0], Sort(s[1..]));
    }
    forall x
      ensures x in Sort(s) <==> x in s
    {
      MultisetMember(s, Sort(s), x);
    }
  }

  // A sorted listing of given buckets is unique, so however the store
  // enumerates them the consumption order is the same.
  lemma {:induction false} SortedUnique(p: seq<Bucket>, q: seq<Bucket>)
    requires Sorted(p) && Sorted(q) && multiset(p) == multiset(q)
    ensures p == q
  {
    assert |p| == |multiset(p)| == |multiset(q)| == |q|;
    if p != [] {
      MultisetMember(p, q, p[0]);
      MultisetMember(p, q, q[0]);
      assert p[0] in p && q[0] in q;
      assert p[0] == q[0];
      assert p == [p[0]] + p[1..] && q == [q[0]] + q[1..];
      assert multiset(p[1..]) == multiset(p) - multiset{p[0]};
      assert multiset(q[1..]) == multiset(q) - multiset{q[0]};
      SortedUnique(p[1..], q[1..]);
    }
  }
}
