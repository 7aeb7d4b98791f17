/** The credit service over its stores: the operations as they run, with in-memory
    accounts, loops over listed rows, and rollback of the unit of work. */
module Wallet {
  import opened Wrappers
  import opened Totals
  import opened Credits
  import opened BucketOrder
  import opened Allocations
  import opened WalletSpec
  import opened WalletListing
  import opened WalletRows
  import opened WalletBalance
  import opened WalletInvariant
  import opened WalletKeys
  import opened WalletExpiry
  import opened Refund
  import Receipts

  class CreditStore {
    const users: set<UserId>
    var accounts: map<UserId, Account>
    var buckets: map<BucketId, Bucket>
    var reservations: seq<Reservation>
    var ledger: seq<Transaction>

    function Now(): State
      reads this
    {
      State(users, accounts, buckets, reservations, ledger)
    }

    ghost predicate Valid()
      reads this
    {
      Balanced(Now()) && KeysSound(Now())
    }

    constructor (users: set<UserId>)
      ensures Valid() && Now() == Empty(users)
    {
      this.users := users;
      accounts, buckets, reservations, ledger := map[], map[], [], [];
    }

    // ------------------------------------------------------------ repositories

    method ListBuckets(ids: set<BucketId>) returns (rows: seq<Bucket>)
      requires Keyed(buckets) && ids <= buckets.Keys
      ensures rows == Listing(buckets, ids)
    {
      rows := [];
      var left := ids;
      while left != {}
        invariant left <= ids
        invariant Sorted(rows) && DistinctIds(rows)
        invariant forall x :: x in rows <==> x.id in ids - left && x == buckets[x.id]
        decreases left
      {
        var b :| b in left;
        InsertKeepsSorted(buckets[b], rows);
        InsertKeepsDistinct(buckets[b], rows);
        rows := Insert(buckets[b], rows);
        left := left - {b};
      }
      ListingMembers(buckets, ids);
      SameRowsSameListing(rows, Listing(buckets, ids));
    }

    // newCreditTransaction for an account that is in the store.
    method Record(user: UserId, account: Account, kind: TransactionKind, amount: int, key: LedgerKey,
                  bucket: Option<BucketId>, reservation: Option<ReservationId>, now: Time) returns (r: Outcome<TransactionId>)
      requires user in accounts && accounts[user] == account
      modifies this`ledger
      ensures WalletSpec.Record(old(Now()), user, kind, amount, key, bucket, reservation, now)
           == if r.Success? then Success(Now()) else Failure(r.error)
      ensures r.Success? ==> r.value == old(|ledger|) && |ledger| == old(|ledger|) + 1
    {
      if FindKey(ledger, key).Some? {
        return Failure(DuplicateKey);
      }
      r := Success(|ledger|);
      ledger := ledger + [Transaction(user, kind, amount, account.balance, account.reserved, key, bucket, reservation, now)];
    }

    method Rollback(s: State)
      requires s.users == users
      modifies this
      ensures Now() == s
    {
      accounts, buckets, reservations, ledger := s.accounts, s.buckets, s.reservations, s.ledger;
    }

    // ------------------------------------------------------------ expiry

    // expireCreditBucket: works on the caller's copies of the account and the row.
    method ExpireBucket(account: Account, row: Bucket, now: Time) returns (r: Outcome<(Account, int)>)
      requires row.owner in accounts && accounts[row.owner] == account
      requires row.id in buckets && buckets[row.id] == row
      modifies this
      ensures PostExpire(old(Now()), row.id, now) == if r.Success? then Success(Now()) else Failure(r.error)
      ensures r.Success? ==> row.owner in accounts && r.value.0 == accounts[row.owner] && r.value.1 == ExpiredAmount(account, row)
    {
      var current := account;
      var expired := row.remaining;
      if current.balance < expired {
        expired := current.balance;
      }
      if expired < 0 {
        expired := 0;
      }
      if expired > 0 {
        current := current.(balance := current.balance - expired);
        accounts := accounts[row.owner := current];
      }
      buckets := buckets[row.id := row.(remaining := 0, status := Expired)];
      var t := Record(row.owner, current, ExpireEntry, -expired, ExpireKey(row.id, row.expiresAt), Some(row.id), None, now);
      r := if t.Success? then Success((current, expired)) else Failure(t.error);
    }

    // expireCreditBucketsForAccount: the account is carried along in memory.
    method ExpireForAccount(user: UserId, account: Account, now: Time) returns (r: Outcome<Account>)
      requires Keyed(buckets) && user in accounts && accounts[user] == account
      modifies this
      ensures SweepUser(old(Now()), user, now) == if r.Success? then Success(Now()) else Failure(r.error)
      ensures r.Success? ==> user in accounts && r.value == accounts[user]
    {
      var ids := DueIds(buckets, Some(user), now);
      var rows := ListBuckets(ids);
      ListingMembers(buckets, ids);
      assert OwnRows(Now(), rows, user);
      r := ExpireRows(rows, user, account, now);
    }

    // Its loop over the listed rows.
    method ExpireRows(rows: seq<Bucket>, user: UserId, account: Account, now: Time) returns (r: Outcome<Account>)
      requires user in accounts && accounts[user] == account && DistinctIds(rows) && OwnRows(Now(), rows, user)
      modifies this
      ensures ExpireAll(old(Now()), rows, now) == if r.Success? then Success(Now()) else Failure(r.error)
      ensures r.Success? ==> user in accounts && r.value == accounts[user]
    {
      ghost var start := Now();
      var current := account;
      for i := 0 to |rows|
        invariant user in accounts && accounts[user] == current
        invariant DistinctIds(rows[i..]) && OwnRows(Now(), rows[i..], user)
        invariant ExpireAll(Now(), rows[i..], now) == ExpireAll(start, rows, now)
      {
        ghost var before := Now();
        assert rows[i..][0] == rows[i] && rows[i..][1..] == rows[i + 1..];
        var step := ExpireBucket(current, rows[i], now);
        if step.Failure? {
          return Failure(step.error);
        }
        OwnRowsStay(before, rows[i..], user, now);
        current := step.value.0;
      }
      r := Success(current);
    }

    // expireCreditBucketsWithRepos: one account copy per owner is kept for the
    // whole batch instead of being read again for each bucket.
    method ExpireListed(limit: int, now: Time) returns (r: Outcome<int>)
      requires Keyed(buckets) && Owned(Now())
      modifies this
      ensures WalletSpec.ExpireBuckets(old(Now()), limit, now) == if r.Success? then Success(Now()) else Failure(r.error)
      ensures r.Success? ==>
                r.value == ExpiredTotal(old(Now()), Limited(Listing(old(buckets), DueIds(old(buckets), None, now)), limit), now)
    {
      ghost var start := Now();
      var ids := DueIds(buckets, None, now);
      var listed := ListBuckets(ids);
      var rows := Limited(listed, limit);
      CoveredRows(Now(), rows, ids);
      var cache: map<UserId, Account> := map[];
      var total := 0;
      for i := 0 to |rows|
        invariant forall u :: u in cache ==> u in accounts && cache[u] == accounts[u]
        invariant Sweepable(Now(), rows[i..])
        invariant ExpireAll(Now(), rows[i..], now) == ExpireAll(start, rows, now)
        invariant total + ExpiredTotal(Now(), rows[i..], now) == ExpiredTotal(start, rows, now)
      {
        ghost var before := Now();
        assert rows[i..][0] == rows[i] && rows[i..][1..] == rows[i + 1..];
        var row := rows[i];
        var account: Account;
        if row.owner in cache {
          account := cache[row.owner];
        } else {
          account := accounts[row.owner];
        }
        var step := ExpireBucket(account, row, now);
        if step.Failure? {
          return Failure(step.error);
        }
        SweepableAfter(before, rows[i..], now);
        cache := cache[row.owner := step.value.0];
        total := total + step.value.1;
      }
      r := Success(total);
    }

    method ExpireAtomically(limit: int, now: Time) returns (r: Outcome<int>)
      requires Keyed(buckets) && Owned(Now())
      modifies this
      ensures Now() == Execute(old(Now()), DoExpire(limit, now))
      ensures r.Success? <==> WalletSpec.ExpireBuckets(old(Now()), limit, now).Success?
      ensures r.Success? ==>
                r.value == ExpiredTotal(old(Now()), Limited(Listing(old(buckets), DueIds(old(buckets), None, now)), limit), now)
    {
      var saved := Now();
      r := ExpireListed(limit, now);
      if r.Failure? {
        Rollback(saved);
      }
    }

    // The public batch: all or nothing.
    method ExpireBuckets(limit: int, now: Time) returns (r: Outcome<int>)
      requires Valid()
      modifies this
      ensures Valid()
      ensures Now() == Execute(old(Now()), DoExpire(limit, now))
      ensures r.Success? <==> WalletSpec.ExpireBuckets(old(Now()), limit, now).Success?
      ensures r.Success? ==> r.value == Total(Balances(old(accounts))) - Total(Balances(accounts))
    {
      ghost var saved := Now();
      ValidOwned(saved);
      r := ExpireAtomically(limit, now);
      if r.Success? {
        BatchReportsDrop(saved, limit, now);
      }
      StaysValid(saved, DoExpire(limit, now));
    }

    // ------------------------------------------------------------ grants

    // ensureCreditAccount
    method EnsureAccount(user: UserId) returns (account: Account)
      modifies this`accounts
      ensures Now() == Open(old(Now()), user) && user in accounts && account == accounts[user]
    {
      if user !in accounts {
        accounts := accounts[user := Account(0, 0)];
      }
      account := accounts[user];
    }

    method GrantCredits(input: GrantInput, id: BucketId, now: Time) returns (r: Outcome<Receipt>)
      modifies this
      ensures WalletSpec.GrantCredits(old(Now()), input, id, now) == if r.Success? then Success((Now(), r.value)) else Failure(r.error)
    {
      var existing := FindKey(ledger, CallerKey(input.key));
      if existing.Some? {
        return Success(Receipt(ledger[existing.value].user, existing, None));
      }
      var account := EnsureAccount(input.user);
      account := account.(balance := account.balance + input.amount);
      accounts := accounts[input.user := account];
      var bucket := NewBucket(input, id, now);
      var t := Record(input.user, account, GrantEntry, input.amount, CallerKey(input.key), Some(id), None, now);
      if t.Failure? {
        return Failure(t.error);
      }
      if id in buckets {
        return Failure(DuplicateKey);
      }
      buckets := buckets[id := bucket];
      r := Success(Receipt(input.user, Some(t.value), None));
    }

    method Grant(input: GrantInput, id: BucketId, now: Time) returns (r: Outcome<Receipt>)
      requires Valid()
      modifies this
      ensures Valid()
      ensures Now() == Execute(old(Now()), DoGrant(input, id, now))
      ensures WalletSpec.Grant(old(Now()), input, id, now) == if r.Success? then Success((Now(), r.value)) else Failure(r.error)
      ensures r.Success? ==> Receipts.NamesEntry(Now(), r.value, CallerKey(input.key))
    {
      var refusal := GrantRefusal(users, input);
      if refusal.Some? {
        return Failure(refusal.value);
      }
      var saved := Now();
      r := GrantCredits(input, id, now);
      if r.Failure? {
        Rollback(saved);
      }
      StaysValid(saved, DoGrant(input, id, now));
      if r.Success? {
        Receipts.GrantNames(saved, input, id, now);
      }
    }

    // ------------------------------------------------------------ reservations

    // The loop of reserveBucketCredits over the planned allocations.
    method HoldBuckets(allocations: seq<Allocation>) returns (r: Outcome<()>)
      modifies this`buckets
      ensures HoldAll(old(buckets), allocations) == if r.Success? then Success(buckets) else Failure(r.error)
    {
      for i := 0 to |allocations|
        invariant HoldAll(buckets, allocations[i..]) == HoldAll(old(buckets), allocations)
      {
        assert allocations[i..][0] == allocations[i] && allocations[i..][1..] == allocations[i + 1..];
        var a := allocations[i];
        if a.bucket !in buckets {
          return Failure(RecordNotFound);
        }
        var b := buckets[a.bucket];
        if b.remaining < a.amount {
          return Failure(InsufficientCredits);
        }
        b := b.(remaining := b.remaining - a.amount, reserved := b.reserved + a.amount);
        if b.remaining == 0 && b.reserved == 0 {
          b := b.(status := Depleted);
        }
        buckets := buckets[a.bucket := b];
      }
      r := Success(());
    }

    // The reservation and its entry, once the buckets hold the shares.
    method BookReservation(input: ReserveInput, account: Account, shares: seq<Allocation>, now: Time) returns (r: Outcome<TransactionId>)
      requires input.user in accounts && accounts[input.user] == account
      modifies this
      ensures var s := old(Now());
              var booked := SetAccount(s, input.user, account.balance - input.amount, account.reserved + input.amount)
                .(reservations := s.reservations + [Reservation(input.user, input.amount, Pending, input.key, shares, input.expiresAt, now)]);
              WalletSpec.Record(booked, input.user, ReserveEntry, -input.amount, ReserveKey(input.key), SingleBucket(shares),
                                Some(|s.reservations|), now)
              == if r.Success? then Success(Now()) else Failure(r.error)
      ensures r.Success? ==> r.value == old(|ledger|) && |ledger| == r.value + 1
    {
      var changed := Account(account.balance - input.amount, account.reserved + input.amount);
      accounts := accounts[input.user := changed];
      var id := |reservations|;
      reservations := reservations + [Reservation(input.user, input.amount, Pending, input.key, shares, input.expiresAt, now)];
      r := Record(input.user, changed, ReserveEntry, -input.amount, ReserveKey(input.key), SingleBucket(shares), Some(id), now);
    }

    // The second half of reserveBucketCredits and what follows it.
    method HoldPlanned(input: ReserveInput, account: Account, plan: seq<Allocation>, now: Time) returns (r: Outcome<TransactionId>)
      requires FindReservation(reservations, input.key).None?
      requires input.user in accounts && accounts[input.user] == account && input.amount <= account.balance
      modifies this
      ensures PostHold(old(Now()), input, plan, now) == if r.Success? then Success(Now()) else Failure(r.error)
      ensures r.Success? ==> r.value == old(|ledger|) && |ledger| == r.value + 1
    {
      var allocations := Compact(plan);
      var held := HoldBuckets(allocations);
      if held.Failure? {
        return Failure(held.error);
      }
      r := BookReservation(input, account, allocations, now);
    }

    // From the listing of available buckets to the reserve entry.
    method HoldInTransaction(input: ReserveInput, account: Account, now: Time) returns (r: Outcome<TransactionId>)
      requires Keyed(buckets) && FindReservation(reservations, input.key).None?
      requires input.user in accounts && accounts[input.user] == account && input.amount <= account.balance
      modifies this
      ensures PostHold(old(Now()), input, Plan(old(Now()), input.user, input.amount, now), now)
           == if r.Success? then Success(Now()) else Failure(r.error)
      ensures r.Success? ==> r.value == old(|ledger|) && |ledger| == r.value + 1
    {
      var listed := ListBuckets(AvailableIds(buckets, input.user, now));
      var allocations := Allocate(listed, input.amount, now);
      r := HoldPlanned(input, account, allocations, now);
    }

    method ReserveInTransaction(input: ReserveInput, now: Time) returns (r: Outcome<TransactionId>)
      requires Keyed(buckets) && FindReservation(reservations, input.key).None?
      modifies this
      ensures ReserveFresh(old(Now()), input, now) == if r.Success? then Success(Now()) else Failure(r.error)
      ensures r.Success? ==> |ledger| == r.value + 1
    {
      var account := EnsureAccount(input.user);
      ghost var start := Now();
      var swept := ExpireForAccount(input.user, account, now);
      if swept.Failure? {
        return Failure(swept.error);
      }
      SweepLeavesNoneDue(start, input.user, now);
      if swept.value.balance < input.amount {
        return Failure(InsufficientCredits);
      }
      r := HoldInTransaction(input, swept.value, now);
    }

    method Reserve(input: ReserveInput, now: Time) returns (r: Outcome<Receipt>)
      requires Valid()
      modifies this
      ensures Valid()
      ensures Now() == Execute(old(Now()), DoReserve(input, now))
      ensures WalletSpec.Reserve(old(Now()), input, now) == if r.Success? then Success((Now(), r.value)) else Failure(r.error)
      ensures r.Success? ==> Receipts.NamesReservation(Now(), r.value, input.key)
    {
      var saved := Now();
      BalancedSolvent(saved);
      r := ReserveOnce(input, now);
      if r.Failure? {
        Rollback(saved);
      }
      StaysValid(saved, DoReserve(input, now));
      if r.Success? {
        Receipts.ReserveNames(saved, input, now);
      }
    }

    method ReserveOnce(input: ReserveInput, now: Time) returns (r: Outcome<Receipt>)
      requires Keyed(buckets)
      modifies this
      ensures WalletSpec.Reserve(old(Now()), input, now) == if r.Success? then Success((Now(), r.value)) else Failure(r.error)
    {
      var refusal := ReserveRefusal(users, input, now);
      if refusal.Some? {
        return Failure(refusal.value);
      }
      var existing := FindReservation(reservations, input.key);
      if existing.Some? {
        return Success(Receipt(reservations[existing.value].owner, None, existing));
      }
      var id := |reservations|;
      var t := ReserveInTransaction(input, now);
      r := if t.Success? then Success(Receipt(input.user, Some(t.value), Some(id))) else Failure(t.error);
    }

    // finalizeBucketAllocations
    method SettleBuckets(allocations: seq<Allocation>, finality: Finality, now: Time) returns (r: Outcome<int>)
      modifies this`buckets
      ensures SettleAll(old(buckets), allocations, finality, now) == if r.Success? then Success((buckets, r.value)) else Failure(r.error)
    {
      var restored := 0;
      for i := 0 to |allocations|
        invariant SettleAll(old(buckets), allocations, finality, now)
               == var rest := SettleAll(buckets, allocations[i..], finality, now);
                  if rest.Success? then Success((rest.value.0, restored + rest.value.1)) else rest
      {
        assert allocations[i..][0] == allocations[i] && allocations[i..][1..] == allocations[i + 1..];
        var a := allocations[i];
        if a.bucket !in buckets {
          return Failure(RecordNotFound);
        }
        var b := buckets[a.bucket];
        if b.reserved < a.amount {
          return Failure(ReservationNotPending);
        }
        b := b.(reserved := b.reserved - a.amount);
        if finality.Release? {
          if b.expiresAt.None? || b.expiresAt.value > now {
            b := b.(remaining := b.remaining + a.amount, status := Active);
            restored := restored + a.amount;
          }
        }
        if b.remaining == 0 && b.reserved == 0 {
          if b.expiresAt.Some? && b.expiresAt.value <= now {
            b := b.(status := Expired);
          } else {
            b := b.(status := Depleted);
          }
        }
        buckets := buckets[a.bucket := b];
      }
      r := Success(restored);
    }

    method SettleInTransaction(id: ReservationId, finality: Finality, key: string, now: Time) returns (r: Outcome<TransactionId>)
      modifies this
      ensures PostSettle(old(Now()), id, finality, key, now) == if r.Success? then Success(Now()) else Failure(r.error)
      ensures r.Success? ==> r.value == old(|ledger|)
    {
      if id >= |reservations| {
        return Failure(ReservationNotFound);
      }
      var x := reservations[id];
      if x.status != Pending {
        return Failure(ReservationNotPending);
      }
      if finality.Commit? && x.expiresAt.Some? && x.expiresAt.value <= now {
        return Failure(ReservationExpired);
      }
      if x.owner !in accounts {
        return Failure(RecordNotFound);
      }
      var account := accounts[x.owner];
      if account.reserved < x.amount {
        return Failure(ReservationNotPending);
      }
      var allocations := Compact(x.allocations);
      var restored := x.amount;
      if |allocations| > 0 {
        var back := SettleBuckets(allocations, finality, now);
        if back.Failure? {
          return Failure(back.error);
        }
        if finality.Release? {
          restored := (x.amount - TotalAllocated(allocations)) + back.value;
          if restored < 0 {
            restored := 0;
          }
        }
      }
      account := account.(reserved := account.reserved - x.amount);
      if finality.Release? {
        account := account.(balance := account.balance + restored);
      }
      accounts := accounts[x.owner := account];
      reservations := reservations[id := x.(status := if finality.Commit? then Committed else Released, finalizedAt := now)];
      r := Record(x.owner, account, if finality.Commit? then CommitEntry else ReleaseEntry,
                  if finality.Release? then restored else 0, CallerKey(key), SingleBucket(allocations), Some(id), now);
    }

    // finalizeReservation, behind Commit and Release.
    method Finalize(id: ReservationId, finality: Finality, key: string, now: Time) returns (r: Outcome<Receipt>)
      requires Valid()
      modifies this
      ensures Valid()
      ensures Now() == Execute(old(Now()), DoFinalize(id, finality, key, now))
      ensures WalletSpec.Finalize(old(Now()), id, finality, key, now) == if r.Success? then Success((Now(), r.value)) else Failure(r.error)
    {
      if key == "" {
        return Failure(IdempotencyRequired);
      }
      var existing := FindKey(ledger, CallerKey(key));
      if existing.Some? {
        var t := ledger[existing.value];
        if t.reservation.None? || t.reservation.value >= |reservations| {
          return Failure(RecordNotFound);
        }
        return Success(Receipt(t.user, existing, t.reservation));
      }
      var saved := Now();
      var posted := SettleInTransaction(id, finality, key, now);
      if posted.Failure? {
        Rollback(saved);
        r := Failure(posted.error);
      } else {
        r := Success(Receipt(saved.reservations[id].owner, Some(posted.value), Some(id)));
      }
      StaysValid(saved, DoFinalize(id, finality, key, now));
    }

    // ------------------------------------------------------------ refunds

    // paymentAdjustmentUsageSnapshot: what is left per account is kept in a map.
    method UsageSnapshot(order: Order, executions: seq<Execution>) returns (r: Outcome<Usage>)
      ensures order.user in accounts ==> r == Success(Snapshot(Now(), order, executions))
      ensures order.user !in accounts ==>
                r == if exists i :: 0 <= i < |executions| && Counts(ledger, order, executions[i]) then Failure(RecordNotFound)
                     else Success(Usage(0, 0, 0))
    {
      var granted, available := 0, 0;
      var remainingByAccount: map<UserId, int> := map[];
      ghost var first := if order.user in accounts then accounts[order.user].balance else 0;
      ghost var whole := Predict(Now(), order, executions, first);
      for i := 0 to |executions|
        invariant remainingByAccount.Keys <= {order.user}
        invariant order.user !in accounts ==>
                    granted == available == 0 && forall k :: 0 <= k < i ==> !Counts(ledger, order, executions[k])
        invariant order.user !in accounts ==> remainingByAccount == map[]
        invariant var left := if order.user in remainingByAccount then remainingByAccount[order.user] else first;
                  var rest := Predict(Now(), order, executions[i..], left);
                  granted + rest.0 == whole.0 && available + rest.1 == whole.1
      {
        assert executions[i..][0] == executions[i] && executions[i..][1..] == executions[i + 1..];
        var e := executions[i];
        if !e.credits || e.resultRef.None? {
          continue;
        }
        if e.resultRef.value >= |ledger| {
          continue;
        }
        var original := ledger[e.resultRef.value];
        if original.amount <= 0 || original.user != order.user {
          continue;
        }
        assert Counts(ledger, order, e);
        granted := granted + original.amount;
        if original.user !in remainingByAccount && original.user !in accounts {
          return Failure(RecordNotFound);
        }
        var remaining := if original.user in remainingByAccount then remainingByAccount[original.user] else accounts[original.user].balance;
        var offer := Min(original.amount, remaining);
        if original.bucket.Some? {
          if original.bucket.value !in buckets {
            offer := 0;
          } else {
            offer := Min(offer, buckets[original.bucket.value].remaining);
          }
        }
        if offer < 0 {
          offer := 0;
        }
        available := available + offer;
        remainingByAccount := remainingByAccount[original.user := remaining - offer];
      }
      r := Success(Usage(granted, available, if granted > available then granted - available else 0));
    }

    // Takes credits out of an account and the bucket they came in.
    method Withdraw(user: UserId, bucket: Option<BucketId>, amount: int) returns (account: Account)
      requires user in accounts
      modifies this`accounts, this`buckets
      ensures user in accounts && account == accounts[user]
      ensures accounts == if amount > 0 then old(accounts)[user := old(accounts)[user].(balance := old(accounts)[user].balance - amount)]
                          else old(accounts)
      ensures buckets == if amount > 0 && bucket.Some? && bucket.value in old(buckets)
                         then old(buckets)[bucket.value := TakeBack(old(buckets)[bucket.value], amount)] else old(buckets)
    {
      account := accounts[user];
      if amount > 0 {
        account := account.(balance := account.balance - amount);
        accounts := accounts[user := account];
        if bucket.Some? && bucket.value in buckets {
          var b := buckets[bucket.value];
          b := b.(remaining := b.remaining - amount);
          if b.remaining == 0 && b.reserved == 0 {
            b := b.(status := Depleted);
          }
          buckets := buckets[bucket.value := b];
        }
      }
    }

    // The second half of clawbackFulfilledCredits: the entry is known and not yet
    // taken back.
    method TakeBackGrant(order: Order, rule: string, id: TransactionId, now: Time) returns (r: Outcome<int>)
      requires id < |ledger| && ledger[id].amount > 0
      modifies this
      ensures PostClawback(old(Now()), order, rule, id, now) == if r.Success? then Success(Now()) else Failure(r.error)
      ensures r.Success? ==> ledger != [] && r.value == -ledger[|ledger| - 1].amount
    {
      var original := ledger[id];
      if original.user != order.user {
        return Failure(InvalidAdjustment);
      }
      if original.user !in accounts {
        return Failure(RecordNotFound);
      }
      var amount := Min(original.amount, accounts[original.user].balance);
      if original.bucket.Some? {
        if original.bucket.value !in buckets {
          amount := 0;
        } else {
          amount := Min(amount, buckets[original.bucket.value].remaining);
        }
      }
      assert amount == Recoverable(buckets, original, accounts[original.user].balance);
      var account := Withdraw(original.user, original.bucket, amount);
      var t := Record(original.user, account, ClawbackEntry, -amount, ClawbackKey(order.outTradeNo, rule), original.bucket, None, now);
      match t
      case Success(_) => r := Success(amount);
      case Failure(error) => r := Failure(error);
    }

    // clawbackFulfilledCredits
    method ClawbackFulfilled(order: Order, e: Execution, now: Time) returns (r: Outcome<int>)
      modifies this
      ensures ClawbackOne(old(Now()), order, e, now) == if r.Success? then Success((Now(), r.value)) else Failure(r.error)
    {
      if e.resultRef.None? {
        return Success(0);
      }
      var existing := FindKey(ledger, ClawbackKey(order.outTradeNo, e.rule));
      if existing.Some? {
        return Success(-ledger[existing.value].amount);
      }
      var id := e.resultRef.value;
      if id >= |ledger| || ledger[id].amount <= 0 {
        return Success(0);
      }
      r := TakeBackGrant(order, e.rule, id, now);
    }

    // The compensation loop over the applied executions of an order.
    method ApplyClawbacks(order: Order, executions: seq<Execution>, now: Time) returns (r: Outcome<int>)
      modifies this
      ensures Clawback(old(Now()), order, executions, now) == if r.Success? then Success((Now(), r.value)) else Failure(r.error)
    {
      var total := 0;
      ghost var start := Now();
      for i := 0 to |executions|
        invariant Clawback(start, order, executions, now)
               == var rest := Clawback(Now(), order, executions[i..], now);
                  if rest.Success? then Success((rest.value.0, total + rest.value.1)) else rest
      {
        assert executions[i..][0] == executions[i] && executions[i..][1..] == executions[i + 1..];
        if !executions[i].credits {
          continue;
        }
        var one := ClawbackFulfilled(order, executions[i], now);
        if one.Failure? {
          return Failure(one.error);
        }
        total := total + one.value;
      }
      r := Success(total);
    }

    method RefundOrder(order: Order, executions: seq<Execution>, now: Time) returns (r: Outcome<int>)
      requires Valid() && BucketedRefs(ledger, executions)
      modifies this
      ensures Valid()
      ensures Now() == Execute(old(Now()), DoClawback(order, executions, now))
      ensures Clawback(old(Now()), order, executions, now) == if r.Success? then Success((Now(), r.value)) else Failure(r.error)
    {
      var saved := Now();
      r := ApplyClawbacks(order, executions, now);
      if r.Failure? {
        Rollback(saved);
      }
      StaysValid(saved, DoClawback(order, executions, now));
    }
  }

  lemma ValidOwned(s: State)
    requires Balanced(s)
    ensures Keyed(s.buckets) && Owned(s)
  {
    BalancedSolvent(s);
    forall b | b in s.buckets
      ensures s.buckets[b].owner in s.accounts
    {
      assert BucketSound(s, b);
    }
  }

  lemma StaysValid(s: State, op: Operation)
    requires Balanced(s) && KeysSound(s) && Bucketed(s, op)
    ensures Balanced(Execute(s, op)) && KeysSound(Execute(s, op))
  {
    OperationKeepsBalance(s, op);
    RunKeepsKeys(s, [op]);
    assert Run(s, [op]) == Execute(s, op) by {
      assert [op][1..] == [];
    }
  }

  // ---------------------------------------------------------------- rows in hand

  ghost predicate OwnRows(s: State, rows: seq<Bucket>, user: UserId) {
    Current(s, rows) && forall i :: 0 <= i < |rows| ==> rows[i].owner == user
  }

  lemma OwnRowsStay(s: State, rows: seq<Bucket>, user: UserId, now: Time)
    requires rows != [] && DistinctIds(rows) && OwnRows(s, rows, user) && PostExpire(s, rows[0].id, now).Success?
    ensures DistinctIds(rows[1..]) && OwnRows(PostExpire(s, rows[0].id, now).value, rows[1..], user)
  {
    StaysCurrent(s, rows, now);
  }

  ghost predicate Owned(s: State) {
    forall b :: b in s.buckets ==> s.buckets[b].owner in s.accounts
  }

  lemma CoveredRows(s: State, rows: seq<Bucket>, ids: set<BucketId>)
    requires Keyed(s.buckets) && Owned(s) && ids <= s.buckets.Keys
    requires rows <= Listing(s.buckets, ids)
    ensures Sweepable(s, rows)
  {
    ListingMembers(s.buckets, ids);
    var all := Listing(s.buckets, ids);
    forall i | 0 <= i < |rows|
      ensures rows[i].id in s.buckets && s.buckets[rows[i].id] == rows[i]
    {
      assert rows[i] == all[i];
      assert all[i] in all;
    }
  }
}
