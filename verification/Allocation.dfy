/** Earliest-expiring-first allocation: sort, then take greedily. */
module Allocations {
  import opened Wrappers
  import opened Credits
  import opened BucketOrder

  function Eligible(buckets: seq<Bucket>, now: Time): seq<Bucket> {
    if buckets == [] then []
    else (if Available(buckets[0], now) then [buckets[0]] else []) + Eligible(buckets[1..], now)
  }

  function Greedy(eligible: seq<Bucket>, amount: int): seq<Allocation> {
    if amount <= 0 || eligible == [] then []
    else
      var used := Min(eligible[0].remaining, amount);
      if used <= 0 then Greedy(eligible[1..], amount)
      else [Allocation(eligible[0].id, used)] + Greedy(eligible[1..], amount - used)
  }

  function AllocateSpec(buckets: seq<Bucket>, amount: int, now: Time): seq<Allocation> {
    if amount <= 0 then [] else Greedy(Sort(Eligible(buckets, now)), amount)
  }

  // Sum of what the available buckets expiring within the horizon still hold.
  function Capacity(buckets: seq<Bucket>, now: Time, horizon: Option<Time>): int {
    if buckets == [] then 0
    else (if Available(buckets[0], now) && Within(buckets[0], horizon) then buckets[0].remaining else 0)
         + Capacity(buckets[1..], now, horizon)
  }

  // How much of a plan falls on available buckets expiring within the horizon.
  function Taken(buckets: seq<Bucket>, plan: seq<Allocation>, now: Time, horizon: Option<Time>): int {
    if buckets == [] then 0
    else (if Available(buckets[0], now) && Within(buckets[0], horizon) then AllocatedTo(plan, buckets[0].id) else 0)
         + Taken(buckets[1..], plan, now, horizon)
  }

  // Any other way of spending at most the amount out of the available buckets.
  ghost predicate Feasible(buckets: seq<Bucket>, plan: seq<Allocation>, amount: int, now: Time) {
    && (forall i :: 0 <= i < |buckets| && Available(buckets[i], now) ==>
          0 <= AllocatedTo(plan, buckets[i].id) <= buckets[i].remaining)
    && Taken(buckets, plan, now, None) <= amount
  }

  method Allocate(buckets: seq<Bucket>, amount: int, now: Time) returns (allocations: seq<Allocation>)
    ensures allocations == AllocateSpec(buckets, amount, now)
  {
    if amount <= 0 {
      return [];
    }
    var eligible := KeepAvailable(buckets, now);
    allocations := TakeInOrder(Sort(eligible), amount);
  }

  method KeepAvailable(buckets: seq<Bucket>, now: Time) returns (eligible: seq<Bucket>)
    ensures eligible == Eligible(buckets, now)
  {
    eligible := [];
    for i := 0 to |buckets|
      invariant eligible + Eligible(buckets[i..], now) == Eligible(buckets, now)
    {
      assert buckets[i..][1..] == buckets[i + 1..];
      if Available(buckets[i], now) {
        eligible := eligible + [buckets[i]];
      }
    }
  }

  method TakeInOrder(eligible: seq<Bucket>, amount: int) returns (allocations: seq<Allocation>)
    ensures allocations == Greedy(eligible, amount)
  {
    var remaining := amount;
    allocations := [];
    for i := 0 to |eligible|
      invariant allocations + Greedy(eligible[i..], remaining) == Greedy(eligible, amount)
    {
      if remaining <= 0 {
        break;
      }
      assert eligible[i..][1..] == eligible[i + 1..];
      var used := Min(eligible[i].remaining, remaining);
      if used <= 0 {
        continue;
      }
      allocations := allocations + [Allocation(eligible[i].id, used)];
      remaining := remaining - used;
    }
  }

  // ---------------------------------------------------------------- listing order

  lemma {:induction false} EligibleMembers(buckets: seq<Bucket>, now: Time)
    ensures forall x :: x in Eligible(buckets, now) <==> x in buckets && Available(x, now)
    ensures DistinctIds(buckets) ==> DistinctIds(Eligible(buckets, now))
    ensures |Eligible(buckets, now)| <= |buckets|
  {
    if buckets != [] {
      assert buckets == [buckets[0]] + buckets[1..];
      EligibleMembers(buckets[1..], now);
      if DistinctIds(buckets) {
        assert forall x :: x in Eligible(buckets[1..], now) ==> x.id != buckets[0].id;
      }
    }
  }

  lemma {:induction false} EligibleMultiset(p: seq<Bucket>, now: Time, x: Bucket)
    ensures multiset(Eligible(p, now))[x] == if Available(x, now) then multiset(p)[x] else 0
  {
    if p != [] {
      assert p == [p[0]] + p[1..];
      EligibleMultiset(p[1..], now, x);
    }
  }

  // The plan does not depend on the order in which the store lists buckets.
  lemma AllocationIgnoresListingOrder(p: seq<Bucket>, q: seq<Bucket>, amount: int, now: Time)
    requires multiset(p) == multiset(q) && DistinctIds(p) && DistinctIds(q)
    ensures AllocateSpec(p, amount, now) == AllocateSpec(q, amount, now)
  {
    forall x
      ensures multiset(Eligible(p, now))[x] == multiset(Eligible(q, now))[x]
    {
      EligibleMultiset(p, now, x);
      EligibleMultiset(q, now, x);
    }
    assert multiset(Eligible(p, now)) == multiset(Eligible(q, now));
    EligibleMembers(p, now);
    EligibleMembers(q, now);
    SortSorts(Eligible(p, now));
    SortSorts(Eligible(q, now));
    SortedUnique(Sort(Eligible(p, now)), Sort(Eligible(q, now)));
  }

  // ---------------------------------------------------------------- optimality

  lemma {:induction false} GreedyStaysInside(eligible: seq<Bucket>, amount: int)
    ensures AllPositive(Greedy(eligible, amount))
    ensures forall a :: a in Greedy(eligible, amount) ==> exists i :: 0 <= i < |eligible| && eligible[i].id == a.bucket
  {
    if amount > 0 && eligible != [] {
      var used := Min(eligible[0].remaining, amount);
      var rest := Greedy(eligible[1..], if used <= 0 then amount else amount - used);
      GreedyStaysInside(eligible[1..], if used <= 0 then amount else amount - used);
      forall a | a in rest
        ensures exists i :: 0 <= i < |eligible| && eligible[i].id == a.bucket
      {
        var i :| 0 <= i < |eligible[1..]| && eligible[1..][i].id == a.bucket;
        assert eligible[i + 1].id == a.bucket;
      }
    }
  }

  lemma {:induction false} AllocatedToOther(plan: seq<Allocation>, bucket: BucketId)
    requires forall a :: a in plan ==> a.bucket != bucket
    ensures AllocatedTo(plan, bucket) == 0
  {
    if plan != [] {
      AllocatedToOther(plan[1..], bucket);
    }
  }

  lemma {:induction false} TakenIgnoresOthers(buckets: seq<Bucket>, a: Allocation, plan: seq<Allocation>, now: Time, horizon: Option<Time>)
    requires forall i :: 0 <= i < |buckets| ==> buckets[i].id != a.bucket
    ensures Taken(buckets, [a] + plan, now, horizon) == Taken(buckets, plan, now, horizon)
  {
    if buckets != [] {
      TakenIgnoresOthers(buckets[1..], a, plan, now, horizon);
    }
  }

  lemma {:induction false} NothingWithin(buckets: seq<Bucket>, plan: seq<Allocation>, now: Time, horizon: Option<Time>)
    requires forall i :: 0 <= i < |buckets| ==> !Within(buckets[i], horizon)
    ensures Taken(buckets, plan, now, horizon) == 0 == Capacity(buckets, now, horizon)
  {
    if buckets != [] {
      NothingWithin(buckets[1..], plan, now, horizon);
    }
  }

  lemma {:induction false} CapacityNonNegative(buckets: seq<Bucket>, now: Time, horizon: Option<Time>)
    ensures 0 <= Capacity(buckets, now, horizon)
  {
    if buckets != [] {
      CapacityNonNegative(buckets[1..], now, horizon);
    }
  }

  // On a sorted listing the buckets within a horizon come first, so taking
  // greedily fills them before anything later is touched.
  lemma {:induction false} GreedyFillsHorizon(eligible: seq<Bucket>, amount: int, now: Time, horizon: Option<Time>)
    requires 0 <= amount
    requires Sorted(eligible) && DistinctIds(eligible)
    requires forall i :: 0 <= i < |eligible| ==> Available(eligible[i], now)
    ensures Taken(eligible, Greedy(eligible, amount), now, horizon) == Min(amount, Capacity(eligible, now, horizon))
    ensures forall i :: 0 <= i < |eligible| ==> 0 <= AllocatedTo(Greedy(eligible, amount), eligible[i].id) <= eligible[i].remaining
  {
    CapacityNonNegative(eligible, now, horizon);
    if amount == 0 {
      TakenNothing(eligible, now, horizon);
    } else if eligible != [] {
      var head, rest := eligible[0], eligible[1..];
      var used := Min(head.remaining, amount);
      var plan := Greedy(rest, amount - used);
      assert Greedy(eligible, amount) == [Allocation(head.id, used)] + plan;
      assert forall i :: 0 <= i < |rest| ==> rest[i] == eligible[i + 1];
      GreedyFillsHorizon(rest, amount - used, now, horizon);
      CapacityNonNegative(rest, now, horizon);
      HeadOnly(head, rest, used, amount, now, horizon);
    }
  }

  // The first allocation lands on the first bucket only.
  lemma HeadOnly(head: Bucket, rest: seq<Bucket>, used: int, amount: int, now: Time, horizon: Option<Time>)
    requires forall i :: 0 <= i < |rest| ==> rest[i].id != head.id && Before(head, rest[i])
    ensures var plan := Greedy(rest, amount - used);
            var whole := [Allocation(head.id, used)] + plan;
            && AllocatedTo(whole, head.id) == used
            && (forall i :: 0 <= i < |rest| ==> AllocatedTo(whole, rest[i].id) == AllocatedTo(plan, rest[i].id))
            && Taken(rest, whole, now, horizon) == Taken(rest, plan, now, horizon)
            && (!Within(head, horizon) ==> Taken(rest, plan, now, horizon) == 0 == Capacity(rest, now, horizon))
  {
    var plan := Greedy(rest, amount - used);
    GreedyStaysInside(rest, amount - used);
    AllocatedToOther(plan, head.id);
    TakenIgnoresOthers(rest, Allocation(head.id, used), plan, now, horizon);
    if !Within(head, horizon) {
      NothingWithin(rest, plan, now, horizon);
    }
  }

  // A greedy plan spends the whole amount when the buckets cover it.
  lemma {:induction false} GreedyTotal(eligible: seq<Bucket>, amount: int, now: Time)
    requires 0 <= amount
    requires forall i :: 0 <= i < |eligible| ==> Available(eligible[i], now)
    ensures TotalAllocated(Greedy(eligible, amount)) == Min(amount, Capacity(eligible, now, None))
  {
    CapacityNonNegative(eligible, now, None);
    if amount > 0 && eligible != [] {
      CapacityNonNegative(eligible[1..], now, None);
      GreedyTotal(eligible[1..], amount - Min(eligible[0].remaining, amount), now);
    }
  }

  lemma {:induction false} TakenNothing(buckets: seq<Bucket>, now: Time, horizon: Option<Time>)
    ensures Taken(buckets, [], now, horizon) == 0
  {
    if buckets != [] {
      TakenNothing(buckets[1..], now, horizon);
    }
  }

  // No feasible plan can beat the capacity inside a horizon, nor the amount.
  lemma {:induction false} FeasibleBound(buckets: seq<Bucket>, plan: seq<Allocation>, now: Time, horizon: Option<Time>)
    requires forall i :: 0 <= i < |buckets| && Available(buckets[i], now) ==>
               0 <= AllocatedTo(plan, buckets[i].id) <= buckets[i].remaining
    ensures Taken(buckets, plan, now, horizon) <= Capacity(buckets, now, horizon)
    ensures Taken(buckets, plan, now, horizon) <= Taken(buckets, plan, now, None)
  {
    if buckets != [] {
      FeasibleBound(buckets[1..], plan, now, horizon);
    }
  }

  // Both sums only depend on the available buckets, in any order.
  lemma {:induction false} SumsOverInsert(x: Bucket, s: seq<Bucket>, plan: seq<Allocation>, now: Time, horizon: Option<Time>)
    ensures Capacity(Insert(x, s), now, horizon) == Capacity([x] + s, now, horizon)
    ensures Taken(Insert(x, s), plan, now, horizon) == Taken([x] + s, plan, now, horizon)
  {
    if s != [] && Before(s[0], x) {
      SumsOverInsert(x, s[1..], plan, now, horizon);
      assert ([x] + s)[1..] == s && ([x] + s[1..])[1..] == s[1..];
    } else {
      assert s == [] ==> [x] + s == [x];
    }
  }

  lemma {:induction false} SumsOverSort(s: seq<Bucket>, plan: seq<Allocation>, now: Time, horizon: Option<Time>)
    ensures Capacity(Sort(s), now, horizon) == Capacity(s, now, horizon)
    ensures Taken(Sort(s), plan, now, horizon) == Taken(s, plan, now, horizon)
  {
    if s != [] {
      SumsOverSort(s[1..], plan, now, horizon);
      SumsOverInsert(s[0], Sort(s[1..]), plan, now, horizon);
      assert ([s[0]] + Sort(s[1..]))[1..] == Sort(s[1..]);
    }
  }

  lemma {:induction false} SumsOverEligible(s: seq<Bucket>, plan: seq<Allocation>, now: Time, horizon: Option<Time>)
    ensures Capacity(Eligible(s, now), now, horizon) == Capacity(s, now, horizon)
    ensures Taken(Eligible(s, now), plan, now, horizon) == Taken(s, plan, now, horizon)
  {
    if s != [] {
      SumsOverEligible(s[1..], plan, now, horizon);
      if Available(s[0], now) {
        assert Eligible(s, now) == [s[0]] + Eligible(s[1..], now);
        assert Eligible(s, now)[1..] == Eligible(s[1..], now);
      } else {
        assert Eligible(s, now) == Eligible(s[1..], now);
      }
    }
  }

  // Main result. Up to every horizon the chosen plan takes as much as the amount
  // and the buckets allow, it is itself feasible, and no feasible plan takes more.
  lemma AllocationIsOptimal(buckets: seq<Bucket>, amount: int, now: Time, horizon: Option<Time>)
    requires 0 <= amount && DistinctIds(buckets)
    ensures var chosen := AllocateSpec(buckets, amount, now);
            && Taken(buckets, chosen, now, horizon) == Min(amount, Capacity(buckets, now, horizon))
            && Feasible(buckets, chosen, amount, now)
            && forall plan :: Feasible(buckets, plan, amount, now) ==>
                 Taken(buckets, plan, now, horizon) <= Taken(buckets, chosen, now, horizon)
  {
    var chosen := AllocateSpec(buckets, amount, now);
    var sorted := Sort(Eligible(buckets, now));
    EligibleMembers(buckets, now);
    SortSorts(Eligible(buckets, now));
    SortKeepsDistinct(Eligible(buckets, now));
    if amount == 0 {
      TakenNothing(buckets, now, horizon);
      TakenNothing(buckets, now, None);
      CapacityNonNegative(buckets, now, horizon);
      assert forall i :: 0 <= i < |buckets| ==> AllocatedTo([], buckets[i].id) == 0;
      assert forall i :: 0 <= i < |buckets| && Available(buckets[i], now) ==> buckets[i].remaining > 0;
    } else {
      var horizons := [horizon, None];
      forall h | h in horizons
        ensures Taken(buckets, chosen, now, h) == Min(amount, Capacity(buckets, now, h))
      {
        GreedyFillsHorizon(sorted, amount, now, h);
        SumsOverSort(Eligible(buckets, now), chosen, now, h);
        SumsOverEligible(buckets, chosen, now, h);
      }
      assert horizons[0] == horizon && horizons[1] == None;
      GreedyFillsHorizon(sorted, amount, now, None);
      forall i | 0 <= i < |buckets| && Available(buckets[i], now)
        ensures 0 <= AllocatedTo(chosen, buckets[i].id) <= buckets[i].remaining
      {
        assert buckets[i] in sorted;
      }
    }
    forall plan | Feasible(buckets, plan, amount, now)
      ensures Taken(buckets, plan, now, horizon) <= Taken(buckets, chosen, now, horizon)
    {
      FeasibleBound(buckets, plan, now, horizon);
    }
  }

  lemma {:induction false} SortKeepsDistinct(s: seq<Bucket>)
    requires DistinctIds(s)
    ensures DistinctIds(Sort(s))
  {
    if s != [] {
      SortKeepsDistinct(s[1..]);
      SortSorts(s[1..]);
      InsertKeepsDistinct(s[0], Sort(s[1..]));
    }
  }

  lemma {:induction false} InsertKeepsDistinct(x: Bucket, s: seq<Bucket>)
    requires DistinctIds(s) && forall y :: y in s ==> y.id != x.id
    ensures DistinctIds(Insert(x, s))
    ensures forall y :: y in Insert(x, s) <==> y == x || y in s
  {
    if s != [] && Before(s[0], x) {
      InsertKeepsDistinct(x, s[1..]);
      var r := Insert(x, s[1..]);
      forall i | 0 <= i < |r|
        ensures r[i].id != s[0].id
      {
        assert r[i] in r;
      }
    }
  }
}
