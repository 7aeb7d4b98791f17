/** What the bucket queries return, and what a sweep leaves behind. */
module WalletListing {
  import opened Wrappers
  import opened Totals
  import opened Credits
  import opened BucketOrder
  import opened Allocations
  import opened WalletSpec

  ghost predicate Keyed(buckets: map<BucketId, Bucket>) {
    forall b :: b in buckets ==> buckets[b].id == b
  }

  ghost function RemainingOf(buckets: map<BucketId, Bucket>, ids: set<BucketId>): map<BucketId, int>
    requires ids <= buckets.Keys
  {
    map b | b in ids :: buckets[b].remaining
  }

  lemma {:induction false} EnumerateMembers(buckets: map<BucketId, Bucket>, ids: set<BucketId>)
    requires Keyed(buckets) && ids <= buckets.Keys
    ensures var rows := Enumerate(buckets, ids);
            && |rows| == |ids|
            && DistinctIds(rows)
            && (forall x :: x in rows <==> x.id in ids && x == buckets[x.id])
  {
    if ids != {} {
      var b :| b in ids && Enumerate(buckets, ids) == [buckets[b]] + Enumerate(buckets, ids - {b});
      EnumerateMembers(buckets, ids - {b});
    }
  }

  // The listing holds exactly the rows asked for, each once, in order.
  lemma ListingMembers(buckets: map<BucketId, Bucket>, ids: set<BucketId>)
    requires Keyed(buckets) && ids <= buckets.Keys
    ensures var rows := Listing(buckets, ids);
            && |rows| == |ids|
            && Sorted(rows) && DistinctIds(rows)
            && (forall x :: x in rows <==> x.id in ids && x == buckets[x.id])
  {
    var rows := Enumerate(buckets, ids);
    EnumerateMembers(buckets, ids);
    SortSorts(rows);
    SortKeepsDistinct(rows);
    assert |Sort(rows)| == |multiset(Sort(rows))| == |rows|;
  }

  lemma {:induction false} EnumerateCapacity(buckets: map<BucketId, Bucket>, ids: set<BucketId>, now: Time)
    requires ids <= buckets.Keys
    requires forall b :: b in ids ==> Available(buckets[b], now)
    ensures Capacity(Enumerate(buckets, ids), now, None) == Total(RemainingOf(buckets, ids))
  {
    if ids != {} {
      var b :| b in ids && Enumerate(buckets, ids) == [buckets[b]] + Enumerate(buckets, ids - {b});
      EnumerateCapacity(buckets, ids - {b}, now);
      TotalRemove(RemainingOf(buckets, ids), b);
      assert RemainingOf(buckets, ids) - {b} == RemainingOf(buckets, ids - {b});
    }
  }

  lemma ListingCapacity(buckets: map<BucketId, Bucket>, ids: set<BucketId>, now: Time)
    requires ids <= buckets.Keys
    requires forall b :: b in ids ==> Available(buckets[b], now)
    ensures Capacity(Listing(buckets, ids), now, None) == Total(RemainingOf(buckets, ids))
  {
    EnumerateCapacity(buckets, ids, now);
    SumsOverSort(Enumerate(buckets, ids), [], now, None);
  }

  // The plan spends min(amount, what is available), in positive parts, out of
  // the user's own available buckets.
  lemma PlanTotals(s: State, user: UserId, amount: int, now: Time)
    requires Keyed(s.buckets) && 0 < amount
    ensures var plan := Plan(s, user, amount, now);
            && AllPositive(plan)
            && TotalAllocated(plan) == Min(amount, Total(RemainingOf(s.buckets, AvailableIds(s.buckets, user, now))))
            && forall a :: a in plan ==> a.bucket in AvailableIds(s.buckets, user, now)
  {
    var ids := AvailableIds(s.buckets, user, now);
    var rows := Listing(s.buckets, ids);
    var sorted := Sort(Eligible(rows, now));
    ListingMembers(s.buckets, ids);
    EligibleMembers(rows, now);
    SortSorts(Eligible(rows, now));
    GreedyTotal(sorted, amount, now);
    SumsOverSort(Eligible(rows, now), [], now, None);
    SumsOverEligible(rows, [], now, None);
    ListingCapacity(s.buckets, ids, now);
    GreedyStaysInside(sorted, amount);
    forall a | a in Plan(s, user, amount, now)
      ensures a.bucket in ids
    {
      var i :| 0 <= i < |sorted| && sorted[i].id == a.bucket;
      assert sorted[i] in sorted;
      assert sorted[i] in rows;
    }
  }

  // ---------------------------------------------------------------- sweeps

  function Ids(rows: seq<Bucket>): set<BucketId> {
    set x | x in rows :: x.id
  }

  // The buckets once the given ones have been swept.
  function Swept(buckets: map<BucketId, Bucket>, ids: set<BucketId>): map<BucketId, Bucket> {
    map b | b in buckets :: if b in ids then buckets[b].(remaining := 0, status := Expired) else buckets[b]
  }

  lemma ExpireOneBucket(s: State, b: BucketId, now: Time)
    requires PostExpire(s, b, now).Success?
    ensures var r := PostExpire(s, b, now).value;
            && r.buckets == Swept(s.buckets, {b}) && b in s.buckets
            && r.accounts.Keys == s.accounts.Keys
            && r.reservations == s.reservations && r.users == s.users
  {
  }

  lemma SweptTwice(buckets: map<BucketId, Bucket>, rows: seq<Bucket>)
    requires rows != []
    ensures Swept(Swept(buckets, {rows[0].id}), Ids(rows[1..])) == Swept(buckets, Ids(rows))
  {
    assert rows == [rows[0]] + rows[1..];
    assert Ids(rows) == {rows[0].id} + Ids(rows[1..]);
  }

  // A successful sweep empties and expires exactly the listed buckets.
  lemma {:induction false} ExpireAllBuckets(s: State, rows: seq<Bucket>, now: Time)
    requires ExpireAll(s, rows, now).Success?
    ensures var r := ExpireAll(s, rows, now).value;
            && r.buckets == Swept(s.buckets, Ids(rows))
            && r.accounts.Keys == s.accounts.Keys
            && r.reservations == s.reservations && r.users == s.users
    decreases |rows|
  {
    if rows == [] {
      assert Swept(s.buckets, {}) == s.buckets;
    } else {
      var s1 := PostExpire(s, rows[0].id, now).value;
      ExpireOneBucket(s, rows[0].id, now);
      ExpireAllBuckets(s1, rows[1..], now);
      SweptTwice(s.buckets, rows);
    }
  }

  lemma ListingIds(buckets: map<BucketId, Bucket>, ids: set<BucketId>)
    requires Keyed(buckets) && ids <= buckets.Keys
    ensures Ids(Listing(buckets, ids)) == ids
  {
    ListingMembers(buckets, ids);
    forall b | b in ids
      ensures b in Ids(Listing(buckets, ids))
    {
      assert buckets[b] in Listing(buckets, ids);
    }
  }

  // After the sweep nothing of the user's is due, and what was not due is intact.
  lemma SweepLeavesNoneDue(s: State, user: UserId, now: Time)
    requires Keyed(s.buckets)
    requires SweepUser(s, user, now).Success?
    ensures var r := SweepUser(s, user, now).value;
            && r.buckets == Swept(s.buckets, DueIds(s.buckets, Some(user), now))
            && r.accounts.Keys == s.accounts.Keys
            && r.reservations == s.reservations && r.users == s.users
            && DueIds(r.buckets, Some(user), now) == {}
            && AvailableIds(r.buckets, user, now) == AvailableIds(s.buckets, user, now)
  {
    var ids := DueIds(s.buckets, Some(user), now);
    ListingIds(s.buckets, ids);
    ExpireAllBuckets(s, Listing(s.buckets, ids), now);
  }
}
