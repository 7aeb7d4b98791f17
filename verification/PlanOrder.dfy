/** In which order a plan uses up the buckets. */
module PlanOrder {
  import opened Wrappers
  import opened Credits
  import opened BucketOrder
  import opened Allocations
  import opened WalletSpec
  import opened WalletListing

  // Sooner to expire, never last; of the same expiry the older, then the smaller id.
  predicate UsedFirst(a: Bucket, b: Bucket) {
    || (a.expiresAt.Some? && (b.expiresAt.None? || a.expiresAt.value < b.expiresAt.value))
    || (a.expiresAt == b.expiresAt && (a.createdAt < b.createdAt || (a.createdAt == b.createdAt && a.id < b.id)))
  }

  lemma BeforeIsUsedFirst(a: Bucket, b: Bucket)
    ensures Before(a, b) <==> UsedFirst(a, b)
  {
  }

  lemma {:induction false} GreedyDrains(eligible: seq<Bucket>, amount: int, i: nat, j: nat)
    requires i < j < |eligible| && DistinctIds(eligible) && forall k :: 0 <= k < |eligible| ==> eligible[k].remaining > 0
    requires AllocatedTo(Greedy(eligible, amount), eligible[j].id) > 0
    ensures AllocatedTo(Greedy(eligible, amount), eligible[i].id) == eligible[i].remaining
    decreases |eligible|
  {
    var first, rest := eligible[0], eligible[1..];
    var used := Min(first.remaining, amount);
    assert forall k :: 0 <= k < |rest| ==> rest[k] == eligible[k + 1];
    if i > 0 {
      GreedyDrains(rest, amount - used, i - 1, j - 1);
    } else {
      OnlyEligible(rest, amount - used, first.id);
    }
  }

  lemma {:induction false} OnlyEligible(eligible: seq<Bucket>, amount: int, id: BucketId)
    requires forall k :: 0 <= k < |eligible| ==> eligible[k].id != id
    ensures AllocatedTo(Greedy(eligible, amount), id) == 0
    decreases |eligible|
  {
    if eligible != [] && amount > 0 {
      assert forall k :: 0 <= k < |eligible[1..]| ==> eligible[1..][k] == eligible[k + 1];
      var used := Min(eligible[0].remaining, amount);
      OnlyEligible(eligible[1..], if used <= 0 then amount else amount - used, id);
    }
  }

  lemma SortedDrains(sorted: seq<Bucket>, amount: int, a: Bucket, b: Bucket)
    requires Sorted(sorted) && DistinctIds(sorted) && a in sorted && b in sorted && Before(a, b) && !Before(b, a)
    requires forall k :: 0 <= k < |sorted| ==> sorted[k].remaining > 0
    requires AllocatedTo(Greedy(sorted, amount), b.id) > 0
    ensures AllocatedTo(Greedy(sorted, amount), a.id) == a.remaining
  {
    var i: nat :| i < |sorted| && sorted[i] == a;
    var j: nat :| j < |sorted| && sorted[j] == b;
    assert i < j;
    GreedyDrains(sorted, amount, i, j);
  }

  lemma SortedAvailable(buckets: seq<Bucket>, now: Time)
    requires DistinctIds(buckets)
    ensures var sorted := Sort(Eligible(buckets, now));
            && Sorted(sorted) && DistinctIds(sorted)
            && forall x :: x in sorted <==> x in buckets && Available(x, now)
  {
    var eligible := Eligible(buckets, now);
    EligibleMembers(buckets, now);
    SortSorts(eligible);
    SortKeepsDistinct(eligible);
  }

  // Main result: a bucket is only drawn from once every available one that is used first
  // is drained.
  lemma DrainedInOrder(buckets: seq<Bucket>, amount: int, now: Time, a: Bucket, b: Bucket)
    requires DistinctIds(buckets) && a in buckets && b in buckets && Available(a, now) && Available(b, now)
    requires UsedFirst(a, b) && AllocatedTo(AllocateSpec(buckets, amount, now), b.id) > 0
    ensures AllocatedTo(AllocateSpec(buckets, amount, now), a.id) == a.remaining
  {
    var sorted := Sort(Eligible(buckets, now));
    SortedAvailable(buckets, now);
    BeforeIsUsedFirst(a, b);
    BeforeIsUsedFirst(b, a);
    assert forall k :: 0 <= k < |sorted| ==> sorted[k] in sorted;
    SortedDrains(sorted, amount, a, b);
  }

  // So of a user's buckets in the wallet.
  lemma PlanDrainsInOrder(s: State, user: UserId, amount: int, now: Time, a: BucketId, b: BucketId)
    requires Keyed(s.buckets) && a in AvailableIds(s.buckets, user, now) && b in AvailableIds(s.buckets, user, now)
    requires UsedFirst(s.buckets[a], s.buckets[b]) && AllocatedTo(Plan(s, user, amount, now), b) > 0
    ensures AllocatedTo(Plan(s, user, amount, now), a) == s.buckets[a].remaining
  {
    ListingMembers(s.buckets, AvailableIds(s.buckets, user, now));
    DrainedInOrder(Listing(s.buckets, AvailableIds(s.buckets, user, now)), amount, now, s.buckets[a], s.buckets[b]);
  }
}
