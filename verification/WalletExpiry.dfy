/** Expiring due buckets in limited batches comes to the same as one full sweep. */
module WalletExpiry {
  import opened Wrappers
  import opened Totals
  import opened Credits
  import opened BucketOrder
  import opened WalletSpec
  import opened WalletListing
  import opened WalletBalance
  import opened WalletInvariant
  import opened WalletDecisions

  // Two sorted listings of the same rows are the same listing.
  lemma {:induction false} CountOnce(s: seq<Bucket>, x: Bucket)
    requires DistinctIds(s)
    ensures multiset(s)[x] == if x in s then 1 else 0
  {
    if s != [] {
      assert s == [s[0]] + s[1..];
      CountOnce(s[1..], x);
      assert forall y :: y in s[1..] ==> y.id != s[0].id;
    }
  }

  lemma SameRowsSameListing(p: seq<Bucket>, q: seq<Bucket>)
    requires Sorted(p) && Sorted(q) && DistinctIds(p) && DistinctIds(q)
    requires forall x :: x in p <==> x in q
    ensures p == q
  {
    forall x
      ensures multiset(p)[x] == multiset(q)[x]
    {
      CountOnce(p, x);
      CountOnce(q, x);
    }
    assert multiset(p) == multiset(q);
    SortedUnique(p, q);
  }

  lemma {:induction false} ExpireAllAppend(s: State, first: seq<Bucket>, second: seq<Bucket>, now: Time)
    requires ExpireAll(s, first, now).Success?
    ensures ExpireAll(s, first + second, now) == ExpireAll(ExpireAll(s, first, now).value, second, now)
    decreases |first|
  {
    if first == [] {
      assert first + second == second;
    } else {
      var s1 := PostExpire(s, first[0].id, now).value;
      var whole := first + second;
      assert whole[0] == first[0] && whole[1..] == first[1..] + second;
      ExpireAllAppend(s1, first[1..], second, now);
      assert ExpireAll(s, whole, now) == ExpireAll(s1, whole[1..], now);
    }
  }

  function BatchSize(due: nat, limit: int): nat {
    if 0 < limit < due then limit else due
  }

  lemma RestById(rows: seq<Bucket>, n: nat, x: Bucket)
    requires n <= |rows| && DistinctIds(rows)
    ensures x in rows[n..] <==> x in rows && x.id !in Ids(rows[..n])
  {
    assert rows == rows[..n] + rows[n..];
    if x in rows && x.id !in Ids(rows[..n]) {
      assert x !in rows[..n];
    }
    if x in rows[n..] && x.id in Ids(rows[..n]) {
      var y :| y in rows[..n] && y.id == x.id;
      PrefixApart(rows, n, y, x);
    }
  }

  lemma PrefixApart(rows: seq<Bucket>, n: nat, y: Bucket, x: Bucket)
    requires n <= |rows| && DistinctIds(rows) && y in rows[..n] && x in rows[n..]
    ensures y.id != x.id
  {
    var i :| 0 <= i < n && rows[i] == y;
    var j :| n <= j < |rows| && rows[j] == x;
  }

  lemma LeftAfterSweep(buckets: map<BucketId, Bucket>, ids: set<BucketId>, now: Time)
    ensures DueIds(Swept(buckets, ids), None, now) == DueIds(buckets, None, now) - ids
  {
  }

  lemma RowsAfterSweep(buckets: map<BucketId, Bucket>, due: set<BucketId>, swept: set<BucketId>)
    requires Keyed(buckets) && due <= buckets.Keys
    ensures var after := Swept(buckets, swept);
            && Keyed(after) && due - swept <= after.Keys
            && forall x :: x in Listing(after, due - swept) <==> x in Listing(buckets, due) && x.id !in swept
  {
    ListingMembers(buckets, due);
    ListingMembers(Swept(buckets, swept), due - swept);
  }

  // The listing of what is left is the tail of the original listing.
  lemma ListingOfRest(buckets: map<BucketId, Bucket>, n: nat, now: Time)
    requires Keyed(buckets) && n <= |Listing(buckets, DueIds(buckets, None, now))|
    ensures var rows := Listing(buckets, DueIds(buckets, None, now));
            var after := Swept(buckets, Ids(rows[..n]));
            && Keyed(after)
            && Listing(after, DueIds(after, None, now)) == rows[n..]
  {
    var due := DueIds(buckets, None, now);
    var rows := Listing(buckets, due);
    var swept := Ids(rows[..n]);
    LeftAfterSweep(buckets, swept, now);
    RowsAfterSweep(buckets, due, swept);
    ListingMembers(buckets, due);
    ListingMembers(Swept(buckets, swept), due - swept);
    var rest := Listing(Swept(buckets, swept), due - swept);
    forall x
      ensures x in rest <==> x in rows[n..]
    {
      RestById(rows, n, x);
    }
    SameRowsSameListing(rest, rows[n..]);
  }

  // What a batch leaves to be done is the rest of the listing, unchanged.
  lemma BatchLeavesRest(s: State, limit: int, now: Time)
    requires Keyed(s.buckets) && ExpireBuckets(s, limit, now).Success?
    ensures var r := ExpireBuckets(s, limit, now).value;
            var rows := Listing(s.buckets, DueIds(s.buckets, None, now));
            var n := BatchSize(|rows|, limit);
            && Keyed(r.buckets)
            && |rows| == |DueIds(s.buckets, None, now)|
            && Limited(rows, limit) == rows[..n]
            && |DueIds(r.buckets, None, now)| == |rows| - n
            && Listing(r.buckets, DueIds(r.buckets, None, now)) == rows[n..]
  {
    var due := DueIds(s.buckets, None, now);
    var rows := Listing(s.buckets, due);
    var n := BatchSize(|rows|, limit);
    ListingMembers(s.buckets, due);
    assert Limited(rows, limit) == rows[..n];
    ExpireAllBuckets(s, rows[..n], now);
    ListingOfRest(s.buckets, n, now);
    var after := Swept(s.buckets, Ids(rows[..n]));
    ListingMembers(after, DueIds(after, None, now));
  }

  lemma SweepTail(s: State, rows: seq<Bucket>, n: nat, now: Time)
    requires n <= |rows| && ExpireAll(s, rows[..n], now).Success?
    ensures ExpireAll(ExpireAll(s, rows[..n], now).value, rows[n..], now) == ExpireAll(s, rows, now)
  {
    assert rows == rows[..n] + rows[n..];
    ExpireAllAppend(s, rows[..n], rows[n..], now);
  }

  // Main result: a limited batch followed by a full sweep at the same moment ends
  // in exactly the state of the full sweep alone, ledger included.
  lemma BatchThenRest(s: State, limit: int, now: Time)
    requires Keyed(s.buckets) && ExpireBuckets(s, limit, now).Success?
    ensures ExpireBuckets(ExpireBuckets(s, limit, now).value, 0, now) == ExpireBuckets(s, 0, now)
  {
    var rows := Listing(s.buckets, DueIds(s.buckets, None, now));
    var n := BatchSize(|rows|, limit);
    BatchLeavesRest(s, limit, now);
    SweepTail(s, rows, n, now);
  }

  ghost function Repeated(s: State, limit: int, now: Time, times: nat): Outcome<State>
    decreases times
  {
    if times == 0 then Success(s)
    else
      var next :- ExpireBuckets(s, limit, now);
      Repeated(next, limit, now, times - 1)
  }

  lemma BatchShrinks(s: State, limit: int, now: Time)
    requires Keyed(s.buckets) && 0 < limit && ExpireBuckets(s, limit, now).Success?
    ensures var next := ExpireBuckets(s, limit, now).value;
            && Keyed(next.buckets)
            && |DueIds(next.buckets, None, now)| <= (if |DueIds(s.buckets, None, now)| <= limit then 0 else |DueIds(s.buckets, None, now)| - limit)
  {
    BatchLeavesRest(s, limit, now);
  }

  // times * limit, by repeated addition.
  function Batches(limit: nat, times: nat): nat {
    if times == 0 then 0 else limit + Batches(limit, times - 1)
  }

  lemma {:induction false} BatchesMultiply(limit: nat, times: nat)
    ensures Batches(limit, times) == times * limit
  {
    if times > 0 {
      BatchesMultiply(limit, times - 1);
      assert times * limit == (times - 1) * limit + limit;
    }
  }

  // Batches on end lead from s to r, with at most so many rows due at the start.
  ghost predicate Drains(s: State, limit: nat, now: Time, times: nat, r: State) {
    && Keyed(s.buckets) && |DueIds(s.buckets, None, now)| <= Batches(limit, times)
    && Repeated(s, limit, now, times) == Success(r)
  }

  ghost predicate SweepsTo(s: State, now: Time, r: State) {
    ExpireBuckets(s, 0, now) == Success(r)
  }

  lemma BatchStep(s: State, limit: nat, now: Time, times: nat, r: State) returns (next: State)
    requires 0 < limit && 0 < times && Drains(s, limit, now, times, r)
    ensures Drains(next, limit, now, times - 1, r)
    ensures SweepsTo(next, now, r) ==> SweepsTo(s, now, r)
  {
    next := ExpireBuckets(s, limit, now).value;
    BatchShrinks(s, limit, now);
    BatchThenRest(s, limit, now);
  }

  lemma NothingLeft(s: State, limit: nat, now: Time, r: State)
    requires Drains(s, limit, now, 0, r)
    ensures SweepsTo(s, now, r) && DueIds(r.buckets, None, now) == {}
  {
    NothingDue(s, now);
  }

  lemma {:induction false} DrainByBatches(s: State, limit: nat, now: Time, times: nat, r: State)
    requires 0 < limit && Drains(s, limit, now, times, r)
    ensures SweepsTo(s, now, r) && DueIds(r.buckets, None, now) == {}
    decreases times
  {
    if times == 0 {
      NothingLeft(s, limit, now, r);
    } else {
      var next := BatchStep(s, limit, now, times, r);
      DrainByBatches(next, limit, now, times - 1, r);
    }
  }

  lemma NothingDue(s: State, now: Time)
    requires |DueIds(s.buckets, None, now)| == 0
    ensures DueIds(s.buckets, None, now) == {} && ExpireBuckets(s, 0, now) == Success(s)
  {
  }

  // Main result: enough limited batches drain every due bucket and end exactly
  // where one full sweep does.
  lemma {:induction false} BatchesDrain(s: State, limit: nat, now: Time, times: nat)
    requires Keyed(s.buckets) && 0 < limit
    requires |DueIds(s.buckets, None, now)| <= times * limit
    requires Repeated(s, limit, now, times).Success?
    ensures DueIds(Repeated(s, limit, now, times).value.buckets, None, now) == {}
    ensures Repeated(s, limit, now, times) == ExpireBuckets(s, 0, now)
  {
    BatchesMultiply(limit, times);
    DrainByBatches(s, limit, now, times, Repeated(s, limit, now, times).value);
  }

  // ---------------------------------------------------------------- the amount expired

  ghost function Balances(accounts: map<UserId, Account>): map<UserId, int> {
    map u | u in accounts :: accounts[u].balance
  }

  function RemainingTotal(rows: seq<Bucket>): int {
    if rows == [] then 0 else rows[0].remaining + RemainingTotal(rows[1..])
  }

  lemma BalanceSet(accounts: map<UserId, Account>, user: UserId, a: Account)
    requires user in accounts
    ensures Total(Balances(accounts[user := a])) == Total(Balances(accounts)) + a.balance - accounts[user].balance
  {
    TotalSet(Balances(accounts), user, a.balance);
    assert Balances(accounts[user := a]) == Balances(accounts)[user := a.balance];
  }

  lemma ExpireMovesBalance(s: State, b: BucketId, now: Time)
    requires Balanced(s) && PostExpire(s, b, now).Success?
    ensures var r := PostExpire(s, b, now).value;
            Total(Balances(r.accounts)) == Total(Balances(s.accounts)) - s.buckets[b].remaining
  {
    var r, user := PostExpire(s, b, now).value, s.buckets[b].owner;
    ExpireKeeps(s, b, now);
    BalanceSet(s.accounts, user, r.accounts[user]);
  }

  ghost predicate Current(s: State, rows: seq<Bucket>) {
    forall i :: 0 <= i < |rows| ==> rows[i].id in s.buckets && s.buckets[rows[i].id] == rows[i]
  }

  lemma StaysCurrent(s: State, rows: seq<Bucket>, now: Time)
    requires rows != [] && DistinctIds(rows) && Current(s, rows) && PostExpire(s, rows[0].id, now).Success?
    ensures DistinctIds(rows[1..]) && Current(PostExpire(s, rows[0].id, now).value, rows[1..])
  {
    ExpireOneBucket(s, rows[0].id, now);
    assert forall i :: 0 <= i < |rows[1..]| ==> rows[1..][i] == rows[i + 1];
  }

  // The credits a sweep removes from the buckets are the drop in all balances.
  lemma {:induction false} SweepMovesBalances(s: State, rows: seq<Bucket>, now: Time)
    requires Balanced(s) && DistinctIds(rows) && ExpireAll(s, rows, now).Success? && Current(s, rows)
    ensures Total(Balances(ExpireAll(s, rows, now).value.accounts)) == Total(Balances(s.accounts)) - RemainingTotal(rows)
    decreases |rows|
  {
    if rows != [] {
      var s1 := PostExpire(s, rows[0].id, now).value;
      ExpireKeeps(s, rows[0].id, now);
      ExpireMovesBalance(s, rows[0].id, now);
      StaysCurrent(s, rows, now);
      SweepMovesBalances(s1, rows[1..], now);
    }
  }

  ghost predicate Sweepable(s: State, rows: seq<Bucket>) {
    DistinctIds(rows) && Current(s, rows) && forall i :: 0 <= i < |rows| ==> rows[i].owner in s.accounts
  }

  lemma SweepableAfter(s: State, rows: seq<Bucket>, now: Time)
    requires rows != [] && Sweepable(s, rows) && PostExpire(s, rows[0].id, now).Success?
    ensures Sweepable(PostExpire(s, rows[0].id, now).value, rows[1..])
    ensures var r := PostExpire(s, rows[0].id, now).value;
            forall u :: u in s.accounts && u != rows[0].owner ==> u in r.accounts && r.accounts[u] == s.accounts[u]
  {
    StaysCurrent(s, rows, now);
  }

  // What the batch reports, entry by entry.
  function ExpiredTotal(s: State, rows: seq<Bucket>, now: Time): int
    decreases |rows|
  {
    if rows == [] || PostExpire(s, rows[0].id, now).Failure? then 0
    else
      ExpiredAmount(s.accounts[s.buckets[rows[0].id].owner], s.buckets[rows[0].id])
      + ExpiredTotal(PostExpire(s, rows[0].id, now).value, rows[1..], now)
  }

  // The reported amount is what the listed buckets held, and so - by
  // SweepMovesBalances - the total drop in balances.
  lemma {:induction false} ReportedIsHeld(s: State, rows: seq<Bucket>, now: Time)
    requires Balanced(s) && Sweepable(s, rows) && ExpireAll(s, rows, now).Success?
    ensures ExpiredTotal(s, rows, now) == RemainingTotal(rows)
    decreases |rows|
  {
    if rows != [] {
      ExpireKeeps(s, rows[0].id, now);
      SweepableAfter(s, rows, now);
      ReportedIsHeld(PostExpire(s, rows[0].id, now).value, rows[1..], now);
    }
  }

  // Main result: the amount a batch reports is the drop in all balances together.
  lemma BatchReportsDrop(s: State, limit: int, now: Time)
    requires Balanced(s) && ExpireBuckets(s, limit, now).Success?
    ensures ExpiredTotal(s, Limited(Listing(s.buckets, DueIds(s.buckets, None, now)), limit), now)
         == Total(Balances(s.accounts)) - Total(Balances(ExpireBuckets(s, limit, now).value.accounts))
  {
    var all := Listing(s.buckets, DueIds(s.buckets, None, now));
    ListingCurrent(s, DueIds(s.buckets, None, now));
    PrefixSweepable(s, all, limit);
    ReportedIsHeld(s, Limited(all, limit), now);
    SweepMovesBalances(s, Limited(all, limit), now);
  }

  lemma PrefixSweepable(s: State, rows: seq<Bucket>, limit: int)
    requires Sweepable(s, rows)
    ensures Sweepable(s, Limited(rows, limit))
  {
  }

  lemma ListingCurrent(s: State, ids: set<BucketId>)
    requires Balanced(s) && ids <= s.buckets.Keys
    ensures Sweepable(s, Listing(s.buckets, ids))
  {
    ListingOwners(s, ids);
    BalancedSolvent(s);
    ListingMembers(s.buckets, ids);
    var rows := Listing(s.buckets, ids);
    forall i | 0 <= i < |rows|
      ensures s.buckets[rows[i].id] == rows[i]
    {
      assert rows[i] in rows;
    }
  }
}
