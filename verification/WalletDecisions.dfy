/** When operations succeed, stated without running them, and what undoes what. */
module WalletDecisions {
  import opened Wrappers
  import opened Totals
  import opened Credits
  import opened BucketOrder
  import opened Allocations
  import opened WalletSpec
  import opened WalletListing
  import opened WalletRows
  import opened WalletBalance
  import opened WalletInvariant
  import opened WalletKeys

  // ---------------------------------------------------------------- sweeping

  // A due bucket whose expiry key is already in the ledger: its next sweep would
  // violate the key's uniqueness.
  ghost predicate Stale(s: State, b: BucketId)
    requires b in s.buckets
  {
    SweptBefore(s, b)
  }

  ghost predicate NoneStale(s: State, rows: seq<Bucket>) {
    forall i :: 0 <= i < |rows| ==> rows[i].id in s.buckets && !Stale(s, rows[i].id)
  }

  lemma ExpireStep(s: State, b: BucketId, now: Time)
    requires b in s.buckets && s.buckets[b].owner in s.accounts
    ensures PostExpire(s, b, now).Success? <==> !Stale(s, b)
    ensures Stale(s, b) ==> PostExpire(s, b, now) == Failure(DuplicateKey)
    ensures PostExpire(s, b, now).Success? ==>
              var r := PostExpire(s, b, now).value;
              && r.buckets == Swept(s.buckets, {b}) && r.accounts.Keys == s.accounts.Keys
              && forall c :: c in s.buckets && c != b ==> (Stale(r, c) <==> Stale(s, c))
  {
    if PostExpire(s, b, now).Success? {
      var r := PostExpire(s, b, now).value;
      var t := r.ledger[|s.ledger|];
      assert r.ledger == s.ledger + [t];
      forall c | c in s.buckets && c != b
        ensures Stale(r, c) <==> Stale(s, c)
      {
        FindKeyAppend(s.ledger, t, ExpireKey(c, s.buckets[c].expiresAt));
      }
    }
  }

  lemma RestStale(s: State, r: State, rows: seq<Bucket>)
    requires rows != [] && DistinctIds(rows)
    requires forall i :: 0 <= i < |rows| ==> rows[i].id in s.buckets
    requires r.buckets.Keys == s.buckets.Keys && !Stale(s, rows[0].id)
    requires forall c :: c in s.buckets && c != rows[0].id ==> (Stale(r, c) <==> Stale(s, c))
    ensures NoneStale(r, rows[1..]) <==> NoneStale(s, rows)
  {
    assert forall i :: 0 <= i < |rows[1..]| ==> rows[1..][i] == rows[i + 1];
    if NoneStale(r, rows[1..]) {
      forall i | 0 <= i < |rows|
        ensures !Stale(s, rows[i].id)
      {
        if i > 0 {
          assert rows[1..][i - 1] == rows[i];
        }
      }
    }
  }

  // A sweep goes through exactly when none of its buckets is stale.
  lemma {:induction false} ExpireAllDecided(s: State, rows: seq<Bucket>, now: Time)
    requires DistinctIds(rows)
    requires forall i :: 0 <= i < |rows| ==> rows[i].id in s.buckets && s.buckets[rows[i].id].owner in s.accounts
    ensures ExpireAll(s, rows, now).Success? <==> NoneStale(s, rows)
    ensures ExpireAll(s, rows, now).Failure? ==> ExpireAll(s, rows, now) == Failure(DuplicateKey)
    decreases |rows|
  {
    if rows != [] {
      var b := rows[0].id;
      ExpireStep(s, b, now);
      if !Stale(s, b) {
        var r := PostExpire(s, b, now).value;
        assert forall i :: 0 <= i < |rows[1..]| ==> rows[1..][i] == rows[i + 1];
        ExpireAllDecided(r, rows[1..], now);
        RestStale(s, r, rows);
      } else {
        assert !NoneStale(s, rows);
      }
    }
  }

  ghost predicate UserStale(s: State, user: UserId, now: Time) {
    exists b :: b in DueIds(s.buckets, Some(user), now) && Stale(s, b)
  }

  lemma OwnersKnown(s: State)
    requires Balanced(s)
    ensures Keyed(s.buckets) && forall b :: b in s.buckets ==> s.buckets[b].owner in s.accounts
  {
    BalancedSolvent(s);
    forall b | b in s.buckets
      ensures s.buckets[b].owner in s.accounts
    {
      assert BucketSound(s, b);
    }
  }

  lemma ListingStale(s: State, ids: set<BucketId>)
    requires Keyed(s.buckets) && ids <= s.buckets.Keys && forall b :: b in s.buckets ==> s.buckets[b].owner in s.accounts
    ensures var rows := Listing(s.buckets, ids);
            && DistinctIds(rows)
            && (forall i :: 0 <= i < |rows| ==> rows[i].id in s.buckets && s.buckets[rows[i].id].owner in s.accounts)
            && (NoneStale(s, rows) <==> forall b :: b in ids ==> !Stale(s, b))
  {
    ListingMembers(s.buckets, ids);
    var rows := Listing(s.buckets, ids);
    forall i | 0 <= i < |rows|
      ensures rows[i].id in ids
    {
      assert rows[i] in rows;
    }
    forall b | b in ids
      ensures exists i :: 0 <= i < |rows| && rows[i].id == b
    {
      assert s.buckets[b] in rows;
    }
  }

  lemma ListingOwners(s: State, ids: set<BucketId>)
    requires Balanced(s) && ids <= s.buckets.Keys
    ensures var rows := Listing(s.buckets, ids);
            && DistinctIds(rows)
            && (forall i :: 0 <= i < |rows| ==> rows[i].id in s.buckets && s.buckets[rows[i].id].owner in s.accounts)
            && (NoneStale(s, rows) <==> forall b :: b in ids ==> !Stale(s, b))
  {
    OwnersKnown(s);
    ListingStale(s, ids);
  }

  lemma SweepDecided(s: State, user: UserId, now: Time)
    requires Balanced(s)
    ensures SweepUser(s, user, now).Success? <==> !UserStale(s, user, now)
    ensures SweepUser(s, user, now).Failure? ==> SweepUser(s, user, now) == Failure(DuplicateKey)
    ensures SweepUser(s, user, now).Success? ==> Balanced(SweepUser(s, user, now).value)
  {
    var ids := DueIds(s.buckets, Some(user), now);
    var rows := Listing(s.buckets, ids);
    ListingOwners(s, ids);
    ExpireAllDecided(s, rows, now);
    if SweepUser(s, user, now).Success? {
      BalancedSolvent(s);
      ListingAllDue(s, Some(user), 0, now);
      var posted := ExpireAllIsRows(s, rows, now, true);
      RowsKeep(s, posted, now, SweepUser(s, user, now).value);
    }
  }

  // ---------------------------------------------------------------- reserving

  // What the user could spend at this moment.
  ghost function Spendable(s: State, user: UserId, now: Time): int {
    Total(RemainingOf(s.buckets, AvailableIds(s.buckets, user, now)))
  }

  lemma {:induction false} HoldAllCovered(buckets: map<BucketId, Bucket>, allocations: seq<Allocation>)
    requires AllPositive(allocations)
    requires forall a :: a in allocations ==> a.bucket in buckets
    requires forall a :: a in allocations ==> AllocatedTo(allocations, a.bucket) <= buckets[a.bucket].remaining
    ensures HoldAll(buckets, allocations).Success?
    decreases |allocations|
  {
    if allocations != [] {
      var a := allocations[0];
      assert a in allocations;
      AllocatedNonNegative(allocations[1..], a.bucket);
      var next := buckets[a.bucket := Hold(buckets[a.bucket], a.amount)];
      forall c | c in allocations[1..]
        ensures AllocatedTo(allocations[1..], c.bucket) <= next[c.bucket].remaining
      {
        assert c in allocations;
      }
      HoldAllCovered(next, allocations[1..]);
    }
  }

  lemma PlanFits(s: State, user: UserId, amount: int, now: Time)
    requires Keyed(s.buckets) && 0 < amount
    ensures HoldAll(s.buckets, Plan(s, user, amount, now)).Success?
  {
    var ids := AvailableIds(s.buckets, user, now);
    var rows := Listing(s.buckets, ids);
    var plan := Plan(s, user, amount, now);
    ListingMembers(s.buckets, ids);
    PlanTotals(s, user, amount, now);
    AllocationIsOptimal(rows, amount, now, None);
    forall a | a in plan
      ensures a.bucket in s.buckets && AllocatedTo(plan, a.bucket) <= s.buckets[a.bucket].remaining
    {
      var k := s.buckets[a.bucket];
      assert k in rows;
      var i :| 0 <= i < |rows| && rows[i] == k;
      assert Available(rows[i], now);
    }
    HoldAllCovered(s.buckets, plan);
  }

  lemma ReserveKeyFree(s: State, key: string)
    requires KeysSound(s) && FindReservation(s.reservations, key).None?
    ensures FindKey(s.ledger, ReserveKey(key)).None?
  {
    if FindKey(s.ledger, ReserveKey(key)).Some? {
      assert KeyBacked(s, s.ledger[FindKey(s.ledger, ReserveKey(key)).value].key);
    }
  }

  lemma HoldGoesThrough(s: State, input: ReserveInput, allocations: seq<Allocation>, now: Time)
    requires AllPositive(allocations) && HoldAll(s.buckets, allocations).Success?
    requires input.user in s.accounts && input.amount <= s.accounts[input.user].balance
    requires FindReservation(s.reservations, input.key).None? && FindKey(s.ledger, ReserveKey(input.key)).None?
    ensures PostHold(s, input, allocations, now).Success?
  {
    CompactKeepsPositive(allocations);
  }

  // Once swept, a covered amount can always be held: none of the guards fires.
  lemma HoldSucceeds(s: State, input: ReserveInput, now: Time)
    requires Balanced(s) && KeysSound(s) && input.user in s.accounts && DueIds(s.buckets, Some(input.user), now) == {}
    requires 0 < input.amount <= s.accounts[input.user].balance
    requires FindReservation(s.reservations, input.key).None?
    ensures PostHold(s, input, Plan(s, input.user, input.amount, now), now).Success?
  {
    ReserveKeyFree(s, input.key);
    PlanCoversAmount(s, input.user, input.amount, now);
    BalancedSolvent(s);
    PlanFits(s, input.user, input.amount, now);
    HoldGoesThrough(s, input, Plan(s, input.user, input.amount, now), now);
  }

  lemma SweepKeepsKeys(s: State, user: UserId, now: Time)
    requires KeysSound(s) && SweepUser(s, user, now).Success?
    ensures KeysSound(SweepUser(s, user, now).value)
  {
    var rows := ExpireAllIsRows(s, Listing(s.buckets, DueIds(s.buckets, Some(user), now)), now, false);
    RowsKeepKeys(s, rows, now, SweepUser(s, user, now).value);
  }

  lemma OpenKeepsKeys(s: State, user: UserId)
    requires KeysSound(s)
    ensures KeysSound(Open(s, user))
  {
    RowKeepsKeys(s, OpenRow(user), 0);
  }

  lemma SameRemaining(s: State, r: State, user: UserId, now: Time)
    requires r.buckets == Swept(s.buckets, DueIds(s.buckets, Some(user), now))
    ensures var ids := AvailableIds(s.buckets, user, now);
            RemainingOf(r.buckets, ids) == RemainingOf(s.buckets, ids)
  {
  }

  lemma BalanceIsSpendable(s: State, user: UserId, now: Time)
    requires Balanced(s) && user in s.accounts && DueIds(s.buckets, Some(user), now) == {}
    ensures s.accounts[user].balance == Spendable(s, user, now)
  {
    assert AccountSound(s, user);
    BalancedSolvent(s);
    AvailableIsEverything(s, user, now);
  }

  lemma SpendableAfterSweep(s: State, user: UserId, now: Time)
    requires Balanced(s) && user in s.accounts && SweepUser(s, user, now).Success?
    ensures var r := SweepUser(s, user, now).value;
            && Balanced(r) && user in r.accounts
            && DueIds(r.buckets, Some(user), now) == {}
            && r.reservations == s.reservations
            && r.accounts[user].balance == Spendable(s, user, now)
  {
    SweepDecided(s, user, now);
    BalancedSolvent(s);
    SweepLeavesNoneDue(s, user, now);
    var r := SweepUser(s, user, now).value;
    BalanceIsSpendable(r, user, now);
    SameRemaining(s, r, user, now);
  }

  ghost predicate ValidRequest(s: State, input: ReserveInput, now: Time) {
    && input.user != "" && input.amount > 0 && input.key != "" && input.user in s.users
    && (input.expiresAt.Some? ==> now < input.expiresAt.value)
  }

  // Main result: a new, valid request is granted exactly when what the user can
  // spend now covers it - unless an earlier sweep of a bucket that is due again
  // blocks the account, and that is the only other way to fail.
  lemma ReserveDecided(s: State, input: ReserveInput, now: Time)
    requires Balanced(s) && KeysSound(s)
    requires ValidRequest(s, input, now) && FindReservation(s.reservations, input.key).None?
    ensures Reserve(s, input, now).Success? <==> Spendable(s, input.user, now) >= input.amount && !UserStale(s, input.user, now)
    ensures UserStale(s, input.user, now) ==> Reserve(s, input, now) == Failure(DuplicateKey)
    ensures !UserStale(s, input.user, now) && Spendable(s, input.user, now) < input.amount ==>
              Reserve(s, input, now) == Failure(InsufficientCredits)
  {
    var start := Open(s, input.user);
    OpenKeeps(s, input.user);
    OpenKeepsKeys(s, input.user);
    assert UserStale(start, input.user, now) <==> UserStale(s, input.user, now) by {
      assert forall b :: b in s.buckets ==> (Stale(start, b) <==> Stale(s, b));
    }
    SweepDecided(start, input.user, now);
    if !UserStale(s, input.user, now) {
      SpendableAfterSweep(start, input.user, now);
      SweepKeepsKeys(start, input.user, now);
      if Spendable(s, input.user, now) >= input.amount {
        HoldSucceeds(SweepUser(start, input.user, now).value, input, now);
      }
    }
  }

  // So with a clock that never goes back, covering the amount is all it takes.
  lemma ReserveDecidedMonotone(s: State, input: ReserveInput, now: Time)
    requires Sound(s, now)
    requires ValidRequest(s, input, now) && FindReservation(s.reservations, input.key).None?
    ensures Reserve(s, input, now).Success? <==> Spendable(s, input.user, now) >= input.amount
  {
    ReserveDecided(s, input, now);
    assert !UserStale(s, input.user, now);
  }

  // ---------------------------------------------------------------- finalizing

  lemma {:induction false} SettleAllCovered(buckets: map<BucketId, Bucket>, allocations: seq<Allocation>, finality: Finality, now: Time)
    requires AllPositive(allocations)
    requires forall a :: a in allocations ==> a.bucket in buckets
    requires forall a :: a in allocations ==> AllocatedTo(allocations, a.bucket) <= buckets[a.bucket].reserved
    ensures SettleAll(buckets, allocations, finality, now).Success?
    decreases |allocations|
  {
    if allocations != [] {
      var a := allocations[0];
      assert a in allocations;
      AllocatedNonNegative(allocations[1..], a.bucket);
      var next := buckets[a.bucket := Settle(buckets[a.bucket], a.amount, finality, now)];
      forall c | c in allocations[1..]
        ensures AllocatedTo(allocations[1..], c.bucket) <= next[c.bucket].reserved
      {
        assert c in allocations;
      }
      SettleAllCovered(next, allocations[1..], finality, now);
    }
  }

  lemma {:induction false} AllottedCovers(s: State, n: nat, id: ReservationId, b: BucketId, expiresAt: Option<Time>)
    requires RecordsSound(s) && id < n <= |s.reservations| && s.reservations[id].status == Pending
    ensures AllocatedTo(s.reservations[id].allocations, b) <= Allotted(s.reservations[..n], b, expiresAt, Waiting)
  {
    assert s.reservations[..n][..n - 1] == s.reservations[..n - 1];
    var last := s.reservations[n - 1];
    assert ReservationSound(s, last);
    AllocatedNonNegative(last.allocations, b);
    if id < n - 1 {
      AllottedCovers(s, n - 1, id, b, expiresAt);
    } else {
      AllottedNonNegative(s, n - 1, b, expiresAt, Waiting);
    }
  }

  lemma {:induction false} AllottedNonNegative(s: State, n: nat, b: BucketId, expiresAt: Option<Time>, fate: Fate)
    requires RecordsSound(s) && n <= |s.reservations|
    ensures 0 <= Allotted(s.reservations[..n], b, expiresAt, fate)
  {
    if n > 0 {
      assert s.reservations[..n][..n - 1] == s.reservations[..n - 1];
      assert ReservationSound(s, s.reservations[n - 1]);
      AllocatedNonNegative(s.reservations[n - 1].allocations, b);
      AllottedNonNegative(s, n - 1, b, expiresAt, fate);
    }
  }

  lemma {:induction false} PendingCovers(s: State, n: nat, id: ReservationId)
    requires RecordsSound(s) && id < n <= |s.reservations| && s.reservations[id].status == Pending
    ensures s.reservations[id].amount <= PendingTotal(s.reservations[..n], s.reservations[id].owner)
  {
    assert s.reservations[..n][..n - 1] == s.reservations[..n - 1];
    assert ReservationSound(s, s.reservations[n - 1]);
    if id < n - 1 {
      PendingCovers(s, n - 1, id);
    } else {
      PendingNonNegative(s, n - 1, s.reservations[id].owner);
    }
  }

  lemma {:induction false} PendingNonNegative(s: State, n: nat, user: UserId)
    requires RecordsSound(s) && n <= |s.reservations|
    ensures 0 <= PendingTotal(s.reservations[..n], user)
  {
    if n > 0 {
      assert s.reservations[..n][..n - 1] == s.reservations[..n - 1];
      assert ReservationSound(s, s.reservations[n - 1]);
      PendingNonNegative(s, n - 1, user);
    }
  }

  lemma ReservedCovers(s: State, id: ReservationId)
    requires Balanced(s) && id < |s.reservations| && s.reservations[id].status == Pending
    ensures var x := s.reservations[id];
            && x.owner in s.accounts && x.amount <= s.accounts[x.owner].reserved
            && AllPositive(x.allocations)
            && forall a :: a in x.allocations ==>
                 a.bucket in s.buckets && AllocatedTo(x.allocations, a.bucket) <= s.buckets[a.bucket].reserved
  {
    var x := s.reservations[id];
    var n := |s.reservations|;
    assert s.reservations[..n] == s.reservations;
    assert ReservationSound(s, x);
    assert AccountSound(s, x.owner);
    PendingCovers(s, n, id);
    forall a | a in x.allocations
      ensures AllocatedTo(x.allocations, a.bucket) <= s.buckets[a.bucket].reserved
    {
      assert BucketSound(s, a.bucket);
      AllottedCovers(s, n, id, a.bucket, s.buckets[a.bucket].expiresAt);
    }
  }

  // Main result: with a new key, a reservation can be finalized exactly when it
  // exists, is pending, and - to commit - has not expired; the "reserved too
  // small" guards never fire.
  lemma FinalizeDecided(s: State, id: ReservationId, finality: Finality, key: string, now: Time)
    requires Balanced(s)
    requires key != "" && FindKey(s.ledger, CallerKey(key)).None?
    ensures Finalize(s, id, finality, key, now).Success? <==>
              && id < |s.reservations| && s.reservations[id].status == Pending
              && !(finality.Commit? && s.reservations[id].expiresAt.Some? && s.reservations[id].expiresAt.value <= now)
  {
    if id < |s.reservations| && s.reservations[id].status == Pending {
      PendingSettles(s, id, finality, now);
    }
    FinalizeOnceReady(s, id, finality, key, now);
  }

  ghost predicate Ready(s: State, id: ReservationId, finality: Finality, now: Time)
    requires id < |s.reservations|
  {
    var x := s.reservations[id];
    && AllPositive(x.allocations) && SettleAll(s.buckets, x.allocations, finality, now).Success?
    && x.owner in s.accounts && x.amount <= s.accounts[x.owner].reserved
  }

  lemma FinalizeOnceReady(s: State, id: ReservationId, finality: Finality, key: string, now: Time)
    requires id < |s.reservations| && s.reservations[id].status == Pending ==> Ready(s, id, finality, now)
    requires key != "" && FindKey(s.ledger, CallerKey(key)).None?
    ensures Finalize(s, id, finality, key, now).Success? <==>
              && id < |s.reservations| && s.reservations[id].status == Pending
              && !(finality.Commit? && s.reservations[id].expiresAt.Some? && s.reservations[id].expiresAt.value <= now)
  {
    if id < |s.reservations| && s.reservations[id].status == Pending {
      SettleGoesThrough(s, id, finality, key, now);
    }
  }

  lemma PendingSettles(s: State, id: ReservationId, finality: Finality, now: Time)
    requires Balanced(s) && id < |s.reservations| && s.reservations[id].status == Pending
    ensures Ready(s, id, finality, now)
  {
    ReservedCovers(s, id);
    SettleAllCovered(s.buckets, s.reservations[id].allocations, finality, now);
  }

  lemma SettleGoesThrough(s: State, id: ReservationId, finality: Finality, key: string, now: Time)
    requires id < |s.reservations| && s.reservations[id].status == Pending && Ready(s, id, finality, now)
    requires FindKey(s.ledger, CallerKey(key)).None?
    ensures PostSettle(s, id, finality, key, now).Success? <==>
              !(finality.Commit? && s.reservations[id].expiresAt.Some? && s.reservations[id].expiresAt.value <= now)
  {
    CompactKeepsPositive(s.reservations[id].allocations);
  }
}
