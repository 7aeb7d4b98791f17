/** Every row, and so every operation and every run, keeps the views in balance. */
module WalletInvariant {
  import opened Wrappers
  import opened Totals
  import opened Credits
  import opened WalletSpec
  import opened WalletListing
  import opened WalletRows
  import opened WalletBalance
  import opened Allocations

  // ---------------------------------------------------------------- bucket loops

  ghost predicate Solvent(buckets: map<BucketId, Bucket>) {
    forall b :: b in buckets ==>
      && 0 <= buckets[b].remaining && 0 <= buckets[b].reserved
      && (buckets[b].status != Active ==> buckets[b].remaining == 0)
  }

  ghost predicate OwnedBy(buckets: map<BucketId, Bucket>, allocations: seq<Allocation>, user: UserId) {
    forall a :: a in allocations ==> a.bucket in buckets && buckets[a.bucket].owner == user
  }

  // Holding moves each allocation from remaining to reserved; no bucket is
  // depleted by it.
  lemma {:induction false} HoldAllEffect(buckets: map<BucketId, Bucket>, allocations: seq<Allocation>)
    requires Solvent(buckets) && AllPositive(allocations)
    requires HoldAll(buckets, allocations).Success?
    ensures var r := HoldAll(buckets, allocations).value;
            && Solvent(r) && r.Keys == buckets.Keys
            && forall b :: b in buckets ==>
                 r[b] == buckets[b].(remaining := buckets[b].remaining - AllocatedTo(allocations, b),
                                     reserved := buckets[b].reserved + AllocatedTo(allocations, b))
    decreases |allocations|
  {
    if allocations != [] {
      var a := allocations[0];
      HoldAllEffect(buckets[a.bucket := Hold(buckets[a.bucket], a.amount)], allocations[1..]);
    }
  }

  lemma {:induction false} HoldAllTotals(buckets: map<BucketId, Bucket>, allocations: seq<Allocation>, owner: UserId, user: UserId)
    requires OwnedBy(buckets, allocations, owner)
    requires HoldAll(buckets, allocations).Success?
    ensures var r := HoldAll(buckets, allocations).value;
            var moved := if user == owner then TotalAllocated(allocations) else 0;
            && Total(Remainders(r, user)) == Total(Remainders(buckets, user)) - moved
            && Total(Holdings(r, user)) == Total(Holdings(buckets, user)) + moved
    decreases |allocations|
  {
    if allocations != [] {
      var a := allocations[0];
      assert a in allocations;
      BucketChange(buckets, a.bucket, Hold(buckets[a.bucket], a.amount), user);
      HoldAllTotals(buckets[a.bucket := Hold(buckets[a.bucket], a.amount)], allocations[1..], owner, user);
    }
  }

  // Settling takes each allocation out of reserved, and gives it back to the
  // bucket only on release before the bucket's expiry.
  lemma {:induction false} SettleAllEffect(buckets: map<BucketId, Bucket>, allocations: seq<Allocation>, finality: Finality, now: Time)
    requires Solvent(buckets) && AllPositive(allocations)
    requires SettleAll(buckets, allocations, finality, now).Success?
    ensures var r := SettleAll(buckets, allocations, finality, now).value;
            && Solvent(r.0) && r.0.Keys == buckets.Keys
            && 0 <= r.1 <= TotalAllocated(allocations)
            && (finality.Commit? ==> r.1 == 0)
            && forall b :: b in buckets ==>
                 var back := if Restores(buckets[b], finality, now) then AllocatedTo(allocations, b) else 0;
                 r.0[b] == buckets[b].(remaining := buckets[b].remaining + back,
                                       reserved := buckets[b].reserved - AllocatedTo(allocations, b),
                                       status := r.0[b].status)
    decreases |allocations|
  {
    if allocations != [] {
      var a := allocations[0];
      SettleAllEffect(buckets[a.bucket := Settle(buckets[a.bucket], a.amount, finality, now)], allocations[1..], finality, now);
    }
  }

  lemma {:induction false} SettleAllTotals(buckets: map<BucketId, Bucket>, allocations: seq<Allocation>, finality: Finality, now: Time,
                                           owner: UserId, user: UserId)
    requires OwnedBy(buckets, allocations, owner)
    requires SettleAll(buckets, allocations, finality, now).Success?
    ensures var r := SettleAll(buckets, allocations, finality, now).value;
            && Total(Remainders(r.0, user)) == Total(Remainders(buckets, user)) + (if user == owner then r.1 else 0)
            && Total(Holdings(r.0, user)) == Total(Holdings(buckets, user)) - (if user == owner then TotalAllocated(allocations) else 0)
    decreases |allocations|
  {
    if allocations != [] {
      var a := allocations[0];
      assert a in allocations;
      BucketChange(buckets, a.bucket, Settle(buckets[a.bucket], a.amount, finality, now), user);
      SettleAllTotals(buckets[a.bucket := Settle(buckets[a.bucket], a.amount, finality, now)], allocations[1..], finality, now, owner, user);
    }
  }

  lemma BalancedSolvent(s: State)
    requires Balanced(s)
    ensures Solvent(s.buckets) && Keyed(s.buckets)
  {
    forall b | b in s.buckets
      ensures s.buckets[b].id == b && 0 <= s.buckets[b].remaining && 0 <= s.buckets[b].reserved
      ensures s.buckets[b].status != Active ==> s.buckets[b].remaining == 0
    {
      assert BucketSound(s, b);
    }
  }

  // No bucket holds more than its owner's balance.
  lemma BalanceCoversBucket(s: State, b: BucketId)
    requires Balanced(s) && b in s.buckets
    ensures s.buckets[b].owner in s.accounts
    ensures 0 <= s.buckets[b].remaining <= s.accounts[s.buckets[b].owner].balance
  {
    var user := s.buckets[b].owner;
    assert BucketSound(s, b);
    assert AccountSound(s, user);
    BalancedSolvent(s);
    TotalNonNegative(Remainders(s.buckets, user));
    assert Remainders(s.buckets, user)[b] == s.buckets[b].remaining;
  }

  // ---------------------------------------------------------------- one row at a time

  lemma NothingOwned(s: State, user: UserId)
    requires BucketsSound(s) && user !in s.accounts
    ensures Remainders(s.buckets, user) == map[] && Holdings(s.buckets, user) == map[]
  {
    forall b | b in s.buckets
      ensures s.buckets[b].owner != user
    {
      assert BucketSound(s, b);
    }
  }

  lemma OpenAccounts(s: State, user: UserId)
    requires AccountsSound(s) && user !in s.accounts
    requires Remainders(s.buckets, user) == map[] && Holdings(s.buckets, user) == map[]
    requires PendingTotal(s.reservations, user) == 0
    ensures AccountsSound(Open(s, user))
  {
    var r := Open(s, user);
    forall u | u in r.accounts
      ensures AccountSound(r, u)
    {
      if u != user {
        assert AccountSound(s, u);
      }
    }
  }

  lemma OpenKeeps(s: State, user: UserId)
    requires Balanced(s)
    ensures Balanced(Open(s, user))
  {
    var r := Open(s, user);
    if user !in s.accounts {
      NothingOwned(s, user);
      NothingPending(s, |s.reservations|, user);
      assert s.reservations[..|s.reservations|] == s.reservations;
      OpenAccounts(s, user);
      forall b | b in s.buckets
        ensures BucketSound(r, b) && Audited(r, b)
      {
        assert BucketSound(s, b) && Audited(s, b);
      }
      ReservationsStaySound(s, r);
      forall i | 0 <= i < |r.ledger|
        ensures EntrySound(r, r.ledger[i])
      {
        assert EntrySound(s, s.ledger[i]);
      }
    }
  }

  lemma {:induction false} NothingPending(s: State, n: nat, user: UserId)
    requires n <= |s.reservations| && user !in s.accounts
    requires forall i :: 0 <= i < |s.reservations| ==> ReservationSound(s, s.reservations[i])
    ensures PendingTotal(s.reservations[..n], user) == 0
  {
    if n > 0 {
      NothingPending(s, n - 1, user);
      assert s.reservations[..n][..n - 1] == s.reservations[..n - 1];
      assert ReservationSound(s, s.reservations[n - 1]);
    }
  }

  lemma {:induction false} NeverAllotted(s: State, n: nat, b: BucketId, expiresAt: Option<Time>, fate: Fate)
    requires n <= |s.reservations| && b !in s.buckets
    requires forall i :: 0 <= i < |s.reservations| ==> ReservationSound(s, s.reservations[i])
    ensures Allotted(s.reservations[..n], b, expiresAt, fate) == 0
  {
    if n > 0 {
      NeverAllotted(s, n - 1, b, expiresAt, fate);
      assert s.reservations[..n][..n - 1] == s.reservations[..n - 1];
      assert ReservationSound(s, s.reservations[n - 1]);
      AllocatedToOther(s.reservations[n - 1].allocations, b);
    }
  }

  lemma {:induction false} NeverRemoved(s: State, n: nat, b: BucketId, kind: TransactionKind)
    requires n <= |s.ledger| && b !in s.buckets
    requires forall i :: 0 <= i < |s.ledger| ==> EntrySound(s, s.ledger[i])
    ensures Removed(s.ledger[..n], b, kind) == 0
  {
    if n > 0 {
      NeverRemoved(s, n - 1, b, kind);
      assert s.ledger[..n][..n - 1] == s.ledger[..n - 1];
      assert EntrySound(s, s.ledger[n - 1]);
    }
  }

  // An entry that is neither an expiry nor a clawback removes nothing.
  lemma RemovedAfter(s: State, r: State, t: Transaction)
    requires r.ledger == s.ledger + [t]
    ensures forall b, kind :: Removed(r.ledger, b, kind) == Removed(s.ledger, b, kind) + RemovedBy(t, b, kind)
  {
    forall b, kind
      ensures Removed(r.ledger, b, kind) == Removed(s.ledger, b, kind) + RemovedBy(t, b, kind)
    {
      RemovedAppend(s.ledger, t, b, kind);
    }
  }

  // Records that a row does not touch stay sound as long as bucket and account
  // names and owners persist.
  ghost predicate Extends(s: State, r: State) {
    && s.accounts.Keys <= r.accounts.Keys
    && s.buckets.Keys <= r.buckets.Keys
    && forall b :: b in s.buckets ==> r.buckets[b].owner == s.buckets[b].owner
  }

  lemma ReservationsStaySound(s: State, r: State)
    requires RecordsSound(s) && Extends(s, r)
    ensures forall i :: 0 <= i < |s.reservations| ==> ReservationSound(r, s.reservations[i])
  {
    forall i | 0 <= i < |s.reservations|
      ensures ReservationSound(r, s.reservations[i])
    {
      assert ReservationSound(s, s.reservations[i]);
    }
  }

  lemma EntriesStaySound(s: State, r: State, t: Transaction)
    requires RecordsSound(s) && Extends(s, r)
    requires r.ledger == s.ledger + [t] && EntrySound(r, t)
    ensures forall i :: 0 <= i < |r.ledger| ==> EntrySound(r, r.ledger[i])
  {
    forall i | 0 <= i < |s.ledger|
      ensures EntrySound(r, s.ledger[i])
    {
      assert EntrySound(s, s.ledger[i]);
    }
  }

  // ---- a grant

  // Written out: the state after a grant, field by field.
  ghost predicate GrantedInto(s: State, r: State, k: Bucket, t: Transaction) {
    && k.owner in s.accounts && k.id !in s.buckets
    && r.accounts == s.accounts[k.owner := Account(s.accounts[k.owner].balance + k.remaining, s.accounts[k.owner].reserved)]
    && r.buckets == s.buckets[k.id := k]
    && r.reservations == s.reservations
    && r.ledger == s.ledger + [t]
    && t.kind == GrantEntry && t.bucket == Some(k.id) && t.user == k.owner
  }

  lemma GrantBuckets(s: State, r: State, k: Bucket, t: Transaction)
    requires BucketsSound(s) && RecordsSound(s) && GrantedInto(s, r, k, t)
    requires k.granted == k.remaining > 0 && k.reserved == 0 && k.status == Active
    ensures BucketsSound(r)
  {
    RemovedAfter(s, r, t);
    forall b | b in r.buckets
      ensures BucketSound(r, b) && Audited(r, b)
    {
      if b == k.id {
        forall fate {
          NeverAllotted(s, |s.reservations|, b, k.expiresAt, fate);
        }
        forall kind {
          NeverRemoved(s, |s.ledger|, b, kind);
        }
        assert s.reservations[..|s.reservations|] == s.reservations && s.ledger[..|s.ledger|] == s.ledger;
      } else {
        assert BucketSound(s, b) && Audited(s, b);
      }
    }
  }

  lemma GrantAccounts(s: State, r: State, k: Bucket, t: Transaction)
    requires AccountsSound(s) && GrantedInto(s, r, k, t) && k.reserved == 0
    ensures AccountsSound(r)
  {
    forall u | u in r.accounts
      ensures AccountSound(r, u)
    {
      assert AccountSound(s, u);
      BucketAdded(s.buckets, k, u);
    }
  }

  lemma GrantShape(s: State, bucket: Bucket, key: string, now: Time)
    requires PostGrant(s, bucket.owner, bucket.remaining, key, bucket, now).Success?
    ensures var r := PostGrant(s, bucket.owner, bucket.remaining, key, bucket, now).value;
            |s.ledger| < |r.ledger| && GrantedInto(s, r, bucket, r.ledger[|s.ledger|])
  {
  }

  lemma GrantRecords(s: State, r: State, k: Bucket, t: Transaction)
    requires RecordsSound(s) && GrantedInto(s, r, k, t)
    ensures RecordsSound(r)
  {
    ReservationsStaySound(s, r);
    EntriesStaySound(s, r, t);
  }

  lemma GrantKeeps(s: State, user: UserId, amount: int, key: string, bucket: Bucket, now: Time)
    requires Balanced(s)
    requires Legal(s, GrantRow(user, amount, key, bucket), now)
    requires PostGrant(s, user, amount, key, bucket, now).Success?
    ensures Balanced(PostGrant(s, user, amount, key, bucket, now).value)
  {
    var r := PostGrant(s, user, amount, key, bucket, now).value;
    var t := r.ledger[|s.ledger|];
    GrantShape(s, bucket, key, now);
    GrantBuckets(s, r, bucket, t);
    GrantAccounts(s, r, bucket, t);
    GrantRecords(s, r, bucket, t);
  }

  // ---- an expiry or a clawback: credits leave one bucket and its owner's balance

  ghost predicate TakenFrom(s: State, r: State, b: BucketId, amount: int, t: Transaction) {
    && b in s.buckets && b in r.buckets && s.buckets[b].owner in s.accounts
    && 0 <= amount <= s.buckets[b].remaining
    && r.buckets == s.buckets[b := s.buckets[b].(remaining := s.buckets[b].remaining - amount, status := r.buckets[b].status)]
    && (r.buckets[b].status != Active ==> r.buckets[b].remaining == 0)
    && var a := s.accounts[s.buckets[b].owner];
    && r.accounts == s.accounts[s.buckets[b].owner := Account(a.balance - amount, a.reserved)]
    && r.reservations == s.reservations
    && r.ledger == s.ledger + [t]
    && (t.kind == ExpireEntry || t.kind == ClawbackEntry) && t.amount == -amount && t.bucket == Some(b) && t.user == s.buckets[b].owner
  }

  lemma TakenBuckets(s: State, r: State, b0: BucketId, amount: int, t: Transaction)
    requires BucketsSound(s) && TakenFrom(s, r, b0, amount, t)
    ensures BucketsSound(r)
  {
    RemovedAfter(s, r, t);
    forall b | b in r.buckets
      ensures BucketSound(r, b) && Audited(r, b)
    {
      assert BucketSound(s, b) && Audited(s, b);
    }
  }

  lemma TakenAccounts(s: State, r: State, b0: BucketId, amount: int, t: Transaction)
    requires AccountsSound(s) && TakenFrom(s, r, b0, amount, t)
    ensures AccountsSound(r)
  {
    forall u | u in r.accounts
      ensures AccountSound(r, u)
    {
      assert AccountSound(s, u);
      BucketChange(s.buckets, b0, r.buckets[b0], u);
    }
  }

  lemma TakenRecords(s: State, r: State, b0: BucketId, amount: int, t: Transaction)
    requires RecordsSound(s) && TakenFrom(s, r, b0, amount, t)
    ensures RecordsSound(r)
  {
    ReservationsStaySound(s, r);
    EntriesStaySound(s, r, t);
  }

  lemma TakenKeeps(s: State, r: State, b0: BucketId, amount: int, t: Transaction)
    requires Balanced(s) && TakenFrom(s, r, b0, amount, t)
    ensures Balanced(r)
  {
    TakenBuckets(s, r, b0, amount, t);
    TakenAccounts(s, r, b0, amount, t);
    TakenRecords(s, r, b0, amount, t);
  }

  lemma ExpireShape(s: State, bucket: BucketId, now: Time)
    requires PostExpire(s, bucket, now).Success?
    requires 0 <= s.buckets[bucket].remaining <= s.accounts[s.buckets[bucket].owner].balance
    ensures var r := PostExpire(s, bucket, now).value;
            |s.ledger| < |r.ledger| && TakenFrom(s, r, bucket, s.buckets[bucket].remaining, r.ledger[|s.ledger|])
  {
  }

  // The cap at the balance never bites: an expiry removes all that remained.
  lemma ExpireKeeps(s: State, bucket: BucketId, now: Time)
    requires Balanced(s)
    requires PostExpire(s, bucket, now).Success?
    ensures Balanced(PostExpire(s, bucket, now).value)
    ensures var r := PostExpire(s, bucket, now).value;
            |s.ledger| < |r.ledger| && TakenFrom(s, r, bucket, s.buckets[bucket].remaining, r.ledger[|s.ledger|])
  {
    var r := PostExpire(s, bucket, now).value;
    BalanceCoversBucket(s, bucket);
    ExpireShape(s, bucket, now);
    TakenKeeps(s, r, bucket, s.buckets[bucket].remaining, r.ledger[|s.ledger|]);
  }

  lemma ClawbackShape(s: State, order: Order, rule: string, id: TransactionId, b: BucketId, now: Time)
    requires PostClawback(s, order, rule, id, now).Success?
    requires s.ledger[id].bucket == Some(b) && b in s.buckets && s.buckets[b].owner == s.ledger[id].user
    requires 0 <= s.buckets[b].remaining <= s.accounts[s.buckets[b].owner].balance
    requires s.buckets[b].status != Active ==> s.buckets[b].remaining == 0
    ensures var r := PostClawback(s, order, rule, id, now).value;
            && |s.ledger| < |r.ledger|
            && TakenFrom(s, r, b, Min(s.ledger[id].amount, s.buckets[b].remaining), r.ledger[|s.ledger|])
  {
    var r := PostClawback(s, order, rule, id, now).value;
    var a := s.accounts[s.buckets[b].owner];
    assert Recoverable(s.buckets, s.ledger[id], a.balance) == Min(s.ledger[id].amount, s.buckets[b].remaining);
    assert s.accounts == s.accounts[s.buckets[b].owner := a];
    assert s.buckets == s.buckets[b := s.buckets[b]];
  }

  lemma ClawbackKeeps(s: State, order: Order, rule: string, id: TransactionId, now: Time)
    requires Balanced(s)
    requires Legal(s, ClawbackRow(order, rule, id), now)
    requires PostClawback(s, order, rule, id, now).Success?
    ensures Balanced(PostClawback(s, order, rule, id, now).value)
    ensures var r := PostClawback(s, order, rule, id, now).value;
            var b := s.ledger[id].bucket.value;
            && b in s.buckets && |s.ledger| < |r.ledger|
            && TakenFrom(s, r, b, Min(s.ledger[id].amount, s.buckets[b].remaining), r.ledger[|s.ledger|])
  {
    var r := PostClawback(s, order, rule, id, now).value;
    assert EntrySound(s, s.ledger[id]);
    var b := s.ledger[id].bucket.value;
    BalanceCoversBucket(s, b);
    BalancedSolvent(s);
    ClawbackShape(s, order, rule, id, b, now);
    TakenKeeps(s, r, b, Min(s.ledger[id].amount, s.buckets[b].remaining), r.ledger[|s.ledger|]);
  }

  // ---- a reservation

  // Of a user's buckets only the available ones hold anything, once none is due.
  lemma AvailableIsEverything(s: State, user: UserId, now: Time)
    requires Solvent(s.buckets) && DueIds(s.buckets, Some(user), now) == {}
    ensures Total(RemainingOf(s.buckets, AvailableIds(s.buckets, user, now))) == Total(Remainders(s.buckets, user))
  {
    var ids := AvailableIds(s.buckets, user, now);
    var all := Remainders(s.buckets, user);
    forall b | b in all && b !in ids
      ensures all[b] == 0
    {
      assert b !in DueIds(s.buckets, Some(user), now);
    }
    TotalDropZeros(all, ids);
    assert (map b | b in ids :: all[b]) == RemainingOf(s.buckets, ids);
  }

  // So a plan for an amount the balance covers spends exactly that amount.
  lemma PlanCoversAmount(s: State, user: UserId, amount: int, now: Time)
    requires Balanced(s) && user in s.accounts && DueIds(s.buckets, Some(user), now) == {}
    requires 0 < amount <= s.accounts[user].balance
    ensures var plan := Plan(s, user, amount, now);
            && AllPositive(plan) && TotalAllocated(plan) == amount
            && OwnedBy(s.buckets, plan, user)
  {
    BalancedSolvent(s);
    PlanTotals(s, user, amount, now);
    AvailableIsEverything(s, user, now);
    assert AccountSound(s, user);
  }

  ghost predicate HeldFor(s: State, r: State, x: Reservation, t: Transaction) {
    && x.status == Pending && x.owner in s.accounts
    && HoldAll(s.buckets, x.allocations) == Success(r.buckets)
    && var a := s.accounts[x.owner];
    && r.accounts == s.accounts[x.owner := Account(a.balance - x.amount, a.reserved + x.amount)]
    && r.reservations == s.reservations + [x]
    && r.ledger == s.ledger + [t]
    && t.kind == ReserveEntry && t.user == x.owner
    && t.bucket == (if |x.allocations| == 1 then Some(x.allocations[0].bucket) else None)
  }

  lemma HoldBuckets(s: State, r: State, x: Reservation, t: Transaction)
    requires BucketsSound(s) && HeldFor(s, r, x, t) && AllPositive(x.allocations) && Solvent(s.buckets)
    ensures BucketsSound(r)
  {
    HoldAllEffect(s.buckets, x.allocations);
    RemovedAfter(s, r, t);
    forall b | b in r.buckets
      ensures BucketSound(r, b) && Audited(r, b)
    {
      assert BucketSound(s, b) && Audited(s, b);
      forall fate {
        AllottedAppend(s.reservations, x, b, s.buckets[b].expiresAt, fate);
      }
    }
  }

  lemma HoldAccounts(s: State, r: State, x: Reservation, t: Transaction)
    requires AccountsSound(s) && HeldFor(s, r, x, t)
    requires OwnedBy(s.buckets, x.allocations, x.owner) && TotalAllocated(x.allocations) == x.amount
    ensures AccountsSound(r)
  {
    forall u | u in r.accounts
      ensures AccountSound(r, u)
    {
      assert AccountSound(s, u);
      HoldAllTotals(s.buckets, x.allocations, x.owner, u);
      PendingAppend(s.reservations, x, u);
    }
  }

  lemma HoldRecords(s: State, r: State, x: Reservation, t: Transaction)
    requires RecordsSound(s) && HeldFor(s, r, x, t) && Solvent(s.buckets) && x.amount > 0
    requires AllPositive(x.allocations) && OwnedBy(s.buckets, x.allocations, x.owner) && TotalAllocated(x.allocations) == x.amount
    ensures RecordsSound(r)
  {
    HoldAllEffect(s.buckets, x.allocations);
    ReservationsStaySound(s, r);
    if |x.allocations| == 1 {
      assert x.allocations[0] in x.allocations;
    }
    EntriesStaySound(s, r, t);
    assert ReservationSound(r, x);
  }

  lemma HoldShape(s: State, input: ReserveInput, allocations: seq<Allocation>, now: Time)
    requires AllPositive(allocations) && PostHold(s, input, allocations, now).Success?
    ensures var r := PostHold(s, input, allocations, now).value;
            && |s.ledger| < |r.ledger|
            && HeldFor(s, r, Reservation(input.user, input.amount, Pending, input.key, allocations, input.expiresAt, now), r.ledger[|s.ledger|])
  {
    CompactKeepsPositive(allocations);
  }

  lemma HoldKeeps(s: State, input: ReserveInput, allocations: seq<Allocation>, now: Time)
    requires Balanced(s)
    requires Legal(s, HoldRow(input, allocations), now)
    requires PostHold(s, input, allocations, now).Success?
    ensures Balanced(PostHold(s, input, allocations, now).value)
  {
    var r := PostHold(s, input, allocations, now).value;
    PlanCoversAmount(s, input.user, input.amount, now);
    HoldShape(s, input, allocations, now);
    BalancedSolvent(s);
    var x := Reservation(input.user, input.amount, Pending, input.key, allocations, input.expiresAt, now);
    var t := r.ledger[|s.ledger|];
    HoldBuckets(s, r, x, t);
    HoldAccounts(s, r, x, t);
    HoldRecords(s, r, x, t);
  }

  // ---- a commit or a release

  ghost predicate SettledAs(s: State, r: State, id: ReservationId, finality: Finality, now: Time, t: Transaction) {
    && id < |s.reservations| && id < |r.reservations|
    && var x := s.reservations[id];
    && x.status == Pending && x.owner in s.accounts
    && var settled := SettleAll(s.buckets, x.allocations, finality, now);
    && settled.Success? && r.buckets == settled.value.0
    && var a := s.accounts[x.owner];
    && r.accounts == s.accounts[x.owner := Account(a.balance + settled.value.1, a.reserved - x.amount)]
    && r.reservations == s.reservations[id := x.(status := if finality.Commit? then Committed else Released, finalizedAt := now)]
    && r.ledger == s.ledger + [t]
    && (t.kind == CommitEntry || t.kind == ReleaseEntry) && t.user == x.owner && t.amount == settled.value.1
    && t.bucket == (if |x.allocations| == 1 then Some(x.allocations[0].bucket) else None)
  }

  lemma SettleBuckets(s: State, r: State, id: ReservationId, finality: Finality, now: Time, t: Transaction)
    requires BucketsSound(s) && SettledAs(s, r, id, finality, now, t)
    requires Solvent(s.buckets) && AllPositive(s.reservations[id].allocations)
    ensures BucketsSound(r)
  {
    SettleAllEffect(s.buckets, s.reservations[id].allocations, finality, now);
    RemovedAfter(s, r, t);
    forall b | b in r.buckets
      ensures BucketSound(r, b) && Audited(r, b)
    {
      assert BucketSound(s, b) && Audited(s, b);
      forall fate {
        AllottedUpdate(s.reservations, id, r.reservations[id], b, s.buckets[b].expiresAt, fate);
      }
      SettledBucket(s, r, id, finality, now, t, b);
    }
  }

  lemma SettledBucket(s: State, r: State, id: ReservationId, finality: Finality, now: Time, t: Transaction, b: BucketId)
    requires SettledAs(s, r, id, finality, now, t) && b in s.buckets && b in r.buckets
    requires Solvent(s.buckets) && AllPositive(s.reservations[id].allocations)
    ensures Solvent(r.buckets)
    ensures var k, n := s.buckets[b], AllocatedTo(s.reservations[id].allocations, b);
            var fate := if finality.Commit? then Spent else if PastExpiry(k, now) then Forfeited else Returned;
            && r.buckets[b] == k.(remaining := k.remaining + (if fate == Returned then n else 0), reserved := k.reserved - n,
                                  status := r.buckets[b].status)
            && FateOf(s.reservations[id], k.expiresAt) == Waiting
            && FateOf(r.reservations[id], k.expiresAt) == fate
  {
    SettleAllEffect(s.buckets, s.reservations[id].allocations, finality, now);
  }

  lemma SettleAccounts(s: State, r: State, id: ReservationId, finality: Finality, now: Time, t: Transaction)
    requires AccountsSound(s) && SettledAs(s, r, id, finality, now, t)
    requires var x := s.reservations[id];
             OwnedBy(s.buckets, x.allocations, x.owner) && TotalAllocated(x.allocations) == x.amount
    ensures AccountsSound(r)
  {
    var x := s.reservations[id];
    forall u | u in r.accounts
      ensures AccountSound(r, u)
    {
      assert AccountSound(s, u);
      SettleAllTotals(s.buckets, x.allocations, finality, now, x.owner, u);
      PendingUpdate(s.reservations, id, r.reservations[id], u);
    }
  }

  lemma SettleRecords(s: State, r: State, id: ReservationId, finality: Finality, now: Time, t: Transaction)
    requires RecordsSound(s) && SettledAs(s, r, id, finality, now, t) && Solvent(s.buckets)
    ensures RecordsSound(r)
  {
    var x := s.reservations[id];
    assert ReservationSound(s, x);
    SettleAllEffect(s.buckets, x.allocations, finality, now);
    ReservationsStaySound(s, r);
    if |x.allocations| == 1 {
      assert x.allocations[0] in x.allocations;
    }
    EntriesStaySound(s, r, t);
    assert ReservationSound(r, r.reservations[id]);
  }

  // What a settled reservation does, with nothing left of the clamps and caps.
  lemma SettleShape(s: State, id: ReservationId, finality: Finality, key: string, now: Time)
    requires PostSettle(s, id, finality, key, now).Success?
    requires var x := s.reservations[id]; AllPositive(x.allocations) && x.allocations != [] && TotalAllocated(x.allocations) == x.amount
    requires Solvent(s.buckets)
    ensures var r := PostSettle(s, id, finality, key, now).value;
            |s.ledger| < |r.ledger| && SettledAs(s, r, id, finality, now, r.ledger[|s.ledger|])
  {
    var x := s.reservations[id];
    CompactKeepsPositive(x.allocations);
    SettleAllEffect(s.buckets, x.allocations, finality, now);
    var settled := SettleAll(s.buckets, x.allocations, finality, now).value;
    assert RestoredAmount(x, x.allocations, settled.1, Release) == settled.1;
    assert finality.Commit? ==> settled.1 == 0;
  }

  lemma SettleKeeps(s: State, id: ReservationId, finality: Finality, key: string, now: Time)
    requires Balanced(s)
    requires PostSettle(s, id, finality, key, now).Success?
    ensures Balanced(PostSettle(s, id, finality, key, now).value)
  {
    var r := PostSettle(s, id, finality, key, now).value;
    var t := r.ledger[|s.ledger|];
    assert ReservationSound(s, s.reservations[id]);
    BalancedSolvent(s);
    SettleShape(s, id, finality, key, now);
    SettleBuckets(s, r, id, finality, now, t);
    SettleAccounts(s, r, id, finality, now, t);
    SettleRecords(s, r, id, finality, now, t);
  }

  // ---------------------------------------------------------------- runs

  lemma RowKeeps(s: State, row: Row, now: Time)
    requires Balanced(s) && Legal(s, row, now) && Post(s, row, now).Success?
    ensures Balanced(Post(s, row, now).value)
  {
    match row
    case OpenRow(user) => OpenKeeps(s, user);
    case GrantRow(user, amount, key, bucket) => GrantKeeps(s, user, amount, key, bucket, now);
    case ExpireRow(bucket) => ExpireKeeps(s, bucket, now);
    case HoldRow(input, allocations) => HoldKeeps(s, input, allocations, now);
    case SettleRow(id, finality, key) => SettleKeeps(s, id, finality, key, now);
    case ClawbackRow(order, rule, original) => ClawbackKeeps(s, order, rule, original, now);
  }

  lemma {:induction false} RowsKeep(s: State, rows: seq<Row>, now: Time, s': State)
    requires Balanced(s) && Posted(s, rows, now, s', true)
    ensures Balanced(s')
    decreases |rows|
  {
    if rows != [] {
      RowKeeps(s, rows[0], now);
      RowsKeep(Post(s, rows[0], now).value, rows[1..], now, s');
    }
  }

  lemma OperationKeepsBalance(s: State, op: Operation)
    requires Balanced(s) && Bucketed(s, op)
    ensures Balanced(Execute(s, op))
  {
    BalancedSolvent(s);
    var rows := OperationIsRows(s, op, true);
    RowsKeep(s, rows, op.now, Execute(s, op));
  }

  // Every refund of the run names bucketed entries at the moment it is made.
  ghost predicate RunBucketed(s: State, ops: seq<Operation>)
    decreases |ops|
  {
    ops == [] || (Bucketed(s, ops[0]) && RunBucketed(Execute(s, ops[0]), ops[1..]))
  }

  lemma {:induction false} RunKeepsBalance(s: State, ops: seq<Operation>)
    requires Balanced(s) && RunBucketed(s, ops)
    ensures Balanced(Run(s, ops))
    decreases |ops|
  {
    if ops != [] {
      OperationKeepsBalance(s, ops[0]);
      RunKeepsBalance(Execute(s, ops[0]), ops[1..]);
    }
  }

  // Main result: from an empty wallet, any mix of operations with any outcomes.
  lemma {:induction false} EveryRunBalances(users: set<UserId>, ops: seq<Operation>)
    requires RunBucketed(Empty(users), ops)
    ensures Balanced(Run(Empty(users), ops))
  {
    RunKeepsBalance(Empty(users), ops);
  }
}
