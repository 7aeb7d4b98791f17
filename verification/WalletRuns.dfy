/** Properties of whole sequences of operations: replays, release as the inverse
    of reserve, and draining the due buckets in limited batches. */
module WalletRuns {
  import opened Wrappers
  import opened Totals
  import opened Credits
  import opened WalletSpec
  import opened WalletListing
  import opened WalletRows
  import opened WalletBalance
  import opened WalletInvariant
  import opened WalletKeys
  import opened WalletDecisions

  // ---------------------------------------------------------------- replays

  // The operation presents a key that has been used before.
  ghost predicate Replayed(s: State, op: Operation) {
    match op
    case DoGrant(input, id, now) => FindKey(s.ledger, CallerKey(input.key)).Some?
    case DoFulfill(input, id, now) => FindKey(s.ledger, CallerKey(input.key)).Some?
    case DoReserve(input, now) => FindReservation(s.reservations, input.key).Some?
    case DoFinalize(id, finality, key, now) => FindKey(s.ledger, CallerKey(key)).Some?
    case _ => false
  }

  ghost function WithoutReplays(s: State, ops: seq<Operation>): seq<Operation>
    decreases |ops|
  {
    if ops == [] then []
    else if Replayed(s, ops[0]) then WithoutReplays(s, ops[1..])
    else [ops[0]] + WithoutReplays(Execute(s, ops[0]), ops[1..])
  }

  // Deleting every operation whose key was already used changes nothing.
  lemma {:induction false} ReplaysDoNothing(s: State, ops: seq<Operation>)
    ensures Run(s, WithoutReplays(s, ops)) == Run(s, ops)
    decreases |ops|
  {
    if ops != [] {
      if Replayed(s, ops[0]) {
        assert Execute(s, ops[0]) == s;
        ReplaysDoNothing(s, ops[1..]);
      } else {
        var rest := WithoutReplays(Execute(s, ops[0]), ops[1..]);
        ReplaysDoNothing(Execute(s, ops[0]), ops[1..]);
        assert ([ops[0]] + rest)[1..] == rest;
      }
    }
  }

  // History is only ever added to: ledger entries stay, and reservation keys too.
  ghost predicate Grown(s: State, r: State) {
    && |s.ledger| <= |r.ledger| && r.ledger[..|s.ledger|] == s.ledger
    && forall k :: FindReservation(s.reservations, k).Some? ==> FindReservation(r.reservations, k).Some?
  }

  lemma {:induction false} FindKeyInPrefix(ledger: seq<Transaction>, n: nat, key: LedgerKey)
    requires n <= |ledger| && FindKey(ledger[..n], key).Some?
    ensures FindKey(ledger, key).Some?
  {
    if n == |ledger| {
      assert ledger[..n] == ledger;
    } else {
      var last := |ledger| - 1;
      assert ledger[..last][..n] == ledger[..n];
      FindKeyInPrefix(ledger[..last], n, key);
    }
  }

  lemma RowGrows(s: State, row: Row, now: Time)
    requires KeysSound(s) && Post(s, row, now).Success?
    ensures Grown(s, Post(s, row, now).value)
  {
    match row
    case OpenRow(user) => assert s.ledger[..|s.ledger|] == s.ledger;
    case GrantRow(user, amount, key, bucket) => GrantWritesKey(s, user, amount, key, bucket, now);
    case ExpireRow(bucket) => ExpireWritesKey(s, bucket, now);
    case HoldRow(input, allocations) => HoldWritesKey(s, input, allocations, now);
    case SettleRow(id, finality, key) => SettleWritesKey(s, id, finality, key, now);
    case ClawbackRow(order, rule, original) => ClawbackWritesKey(s, order, rule, original, now);
  }

  lemma {:induction false} RowsGrow(s: State, rows: seq<Row>, now: Time, r: State)
    requires KeysSound(s) && Posted(s, rows, now, r, false)
    ensures Grown(s, r) && KeysSound(r)
    decreases |rows|
  {
    if rows == [] {
      assert s.ledger[..|s.ledger|] == s.ledger;
    } else {
      var s1 := Post(s, rows[0], now).value;
      RowGrows(s, rows[0], now);
      RowKeepsKeys(s, rows[0], now);
      RowsGrow(s1, rows[1..], now, r);
      assert r.ledger[..|s.ledger|] == r.ledger[..|s1.ledger|][..|s.ledger|];
    }
  }

  lemma {:induction false} RunGrows(s: State, ops: seq<Operation>)
    requires KeysSound(s)
    ensures Grown(s, Run(s, ops)) && KeysSound(Run(s, ops))
    decreases |ops|
  {
    if ops == [] {
      assert s.ledger[..|s.ledger|] == s.ledger;
    } else {
      var s1, r := Execute(s, ops[0]), Run(s, ops);
      var rows := OperationIsRows(s, ops[0], false);
      RowsGrow(s, rows, ops[0].now, s1);
      RunGrows(s1, ops[1..]);
      assert r.ledger[..|s.ledger|] == r.ledger[..|s1.ledger|][..|s.ledger|];
    }
  }

  lemma LastKeyFound(ledger: seq<Transaction>, n: nat)
    requires |ledger| == n + 1
    ensures FindKey(ledger, ledger[n].key).Some?
  {
  }

  // A keyed operation that went through has left its key behind.
  lemma SuccessUsesKey(s: State, op: Operation)
    requires KeysSound(s) && (op.DoGrant? || op.DoFulfill? || op.DoReserve? || op.DoFinalize?)
    requires Attempt(s, op).Success?
    ensures Replayed(Execute(s, op), op)
  {
    if !Replayed(s, op) {
      match op
      case DoGrant(input, id, now) => GrantLeavesKey(s, input, id, now);
      case DoFulfill(input, id, now) => GrantLeavesKey(s, input, id, now);
      case DoReserve(input, now) => ReserveLeavesKey(s, input, now);
      case DoFinalize(id, finality, key, now) => SettleLeavesKey(s, id, finality, key, now);
    }
  }

  lemma GrantLeavesKey(s: State, input: GrantInput, id: BucketId, now: Time)
    requires GrantCredits(s, input, id, now).Success? && FindKey(s.ledger, CallerKey(input.key)).None?
    ensures FindKey(GrantCredits(s, input, id, now).value.0.ledger, CallerKey(input.key)).Some?
  {
    LastKeyFound(GrantCredits(s, input, id, now).value.0.ledger, |s.ledger|);
  }

  lemma SettleLeavesKey(s: State, id: ReservationId, finality: Finality, key: string, now: Time)
    requires PostSettle(s, id, finality, key, now).Success?
    ensures FindKey(PostSettle(s, id, finality, key, now).value.ledger, CallerKey(key)).Some?
  {
    LastKeyFound(PostSettle(s, id, finality, key, now).value.ledger, |s.ledger|);
  }

  lemma ReserveLeavesKey(s: State, input: ReserveInput, now: Time)
    requires ReserveFresh(s, input, now).Success?
    ensures FindReservation(ReserveFresh(s, input, now).value.reservations, input.key).Some?
  {
    var swept := SweepUser(Open(s, input.user), input.user, now).value;
    var held := ReserveFresh(s, input, now).value;
    FindReservationAppend(swept.reservations, held.reservations[|swept.reservations|], input.key);
  }

  // Main result: delivering a successful operation again, at any later point of
  // any run, has no effect.
  lemma DeliveredOnce(s: State, op: Operation, between: seq<Operation>)
    requires KeysSound(s) && (op.DoGrant? || op.DoFulfill? || op.DoReserve? || op.DoFinalize?)
    requires Attempt(s, op).Success?
    ensures var later := Run(Execute(s, op), between);
            Execute(later, op) == later
  {
    var r := Execute(s, op);
    var later := Run(r, between);
    var rows := OperationIsRows(s, op, false);
    RowsKeepKeys(s, rows, op.now, r);
    SuccessUsesKey(s, op);
    RunGrows(r, between);
    if !op.DoReserve? {
      var key := CallerKey(if op.DoFinalize? then op.key else op.input.key);
      FindKeyInPrefix(later.ledger, |r.ledger|, key);
    }
    assert Replayed(later, op);
  }

  // ---------------------------------------------------------------- reserve, then release

  // The part of a plan that falls on buckets past their expiry.
  function Lost(buckets: map<BucketId, Bucket>, plan: seq<Allocation>, now: Time): int {
    if plan == [] then 0
    else (if plan[0].bucket in buckets && PastExpiry(buckets[plan[0].bucket], now) then plan[0].amount else 0)
         + Lost(buckets, plan[1..], now)
  }

  lemma {:induction false} LostSameExpiry(p: map<BucketId, Bucket>, q: map<BucketId, Bucket>, plan: seq<Allocation>, now: Time)
    requires p.Keys == q.Keys && forall b :: b in p ==> p[b].expiresAt == q[b].expiresAt
    ensures Lost(p, plan, now) == Lost(q, plan, now)
  {
    if plan != [] {
      LostSameExpiry(p, q, plan[1..], now);
    }
  }

  lemma {:induction false} RestoredIsUnlost(buckets: map<BucketId, Bucket>, plan: seq<Allocation>, now: Time)
    requires SettleAll(buckets, plan, Release, now).Success?
    ensures SettleAll(buckets, plan, Release, now).value.1 == TotalAllocated(plan) - Lost(buckets, plan, now)
    decreases |plan|
  {
    if plan != [] {
      var next := buckets[plan[0].bucket := Settle(buckets[plan[0].bucket], plan[0].amount, Release, now)];
      RestoredIsUnlost(next, plan[1..], now);
      LostSameExpiry(buckets, next, plan[1..], now);
    }
  }

  lemma {:induction false} SettleAllStatus(buckets: map<BucketId, Bucket>, plan: seq<Allocation>, now: Time)
    requires AllPositive(plan) && SettleAll(buckets, plan, Release, now).Success?
    ensures var r := SettleAll(buckets, plan, Release, now).value.0;
            && r.Keys == buckets.Keys
            && forall b :: b in buckets ==>
                 && (AllocatedTo(plan, b) == 0 ==> r[b] == buckets[b])
                 && (!PastExpiry(buckets[b], now) && Solvent(buckets) && buckets[b].status == Active ==> r[b].status == Active)
    decreases |plan|
  {
    if plan != [] {
      var next := buckets[plan[0].bucket := Settle(buckets[plan[0].bucket], plan[0].amount, Release, now)];
      SettleAllStatus(next, plan[1..], now);
      forall b {
        AllocatedNonNegative(plan[1..], b);
      }
    }
  }

  // Releasing at once what was just reserved, bucket by bucket.
  lemma HoldThenSettle(buckets: map<BucketId, Bucket>, plan: seq<Allocation>, now: Time)
    requires Solvent(buckets) && AllPositive(plan) && HoldAll(buckets, plan).Success?
    requires forall a :: a in plan ==> a.bucket in buckets && buckets[a.bucket].status == Active
    ensures var held := HoldAll(buckets, plan).value;
            var back := SettleAll(held, plan, Release, now);
            && back.Success?
            && back.value.0.Keys == buckets.Keys
            && back.value.1 == TotalAllocated(plan) - Lost(buckets, plan, now)
            && forall b :: b in buckets ==>
                 if PastExpiry(buckets[b], now) then
                   && back.value.0[b].remaining == buckets[b].remaining - AllocatedTo(plan, b)
                   && back.value.0[b].reserved == buckets[b].reserved
                 else back.value.0[b] == buckets[b]
  {
    var held := HoldAll(buckets, plan).value;
    HoldAllEffect(buckets, plan);
    SettleAllCovered(held, plan, Release, now);
    SettleAllEffect(held, plan, Release, now);
    RestoredIsUnlost(held, plan, now);
    LostSameExpiry(buckets, held, plan, now);
    forall b | b in buckets && !PastExpiry(buckets[b], now)
      ensures SettleAll(held, plan, Release, now).value.0[b] == buckets[b]
    {
      ActiveAgain(buckets, held, plan, now, b);
    }
  }

  lemma ActiveAgain(buckets: map<BucketId, Bucket>, held: map<BucketId, Bucket>, plan: seq<Allocation>, now: Time, b: BucketId)
    requires Solvent(held) && AllPositive(plan) && SettleAll(held, plan, Release, now).Success?
    requires b in buckets && b in held && held[b].status == buckets[b].status && !PastExpiry(held[b], now)
    requires forall a :: a in plan ==> a.bucket in buckets && buckets[a.bucket].status == Active
    ensures b in SettleAll(held, plan, Release, now).value.0
    ensures SettleAll(held, plan, Release, now).value.0[b].status == buckets[b].status
  {
    SettleAllStatus(held, plan, now);
    if AllocatedTo(plan, b) != 0 {
      AllocatedSomewhere(plan, b);
    }
  }

  lemma {:induction false} AllocatedSomewhere(plan: seq<Allocation>, b: BucketId)
    requires AllocatedTo(plan, b) != 0
    ensures exists a :: a in plan && a.bucket == b
  {
    if plan[0].bucket != b {
      AllocatedSomewhere(plan[1..], b);
      var a :| a in plan[1..] && a.bucket == b;
      assert a in plan;
    } else {
      assert plan[0] in plan;
    }
  }

  lemma PlanActive(s: State, user: UserId, amount: int, now: Time)
    requires Balanced(s) && 0 < amount
    ensures forall a :: a in Plan(s, user, amount, now) ==> a.bucket in s.buckets && s.buckets[a.bucket].status == Active
  {
    BalancedSolvent(s);
    PlanTotals(s, user, amount, now);
  }

  // The state a release leaves, relative to the one the reservation was made in.
  ghost predicate GivenBack(s: State, f: State, user: UserId, plan: seq<Allocation>, later: Time) {
    && user in s.accounts
    && f.accounts == s.accounts[user := Account(s.accounts[user].balance - Lost(s.buckets, plan, later), s.accounts[user].reserved)]
    && f.buckets.Keys == s.buckets.Keys
    && forall b :: b in s.buckets ==>
         if PastExpiry(s.buckets[b], later) then
           && f.buckets[b].remaining == s.buckets[b].remaining - AllocatedTo(plan, b)
           && f.buckets[b].reserved == s.buckets[b].reserved
         else f.buckets[b] == s.buckets[b]
  }

  // Finalizing the reservation that was just recorded.
  lemma ReleaseShape(s: State, held: State, x: Reservation, t: Transaction, key: string, later: Time)
    requires HeldFor(s, held, x, t) && AllPositive(x.allocations) && x.allocations != [] && TotalAllocated(x.allocations) == x.amount
    requires 0 <= s.accounts[x.owner].reserved && 0 <= x.amount
    requires FindKey(held.ledger, CallerKey(key)).None? && key != ""
    requires var settled := SettleAll(held.buckets, x.allocations, Release, later); settled.Success? && 0 <= settled.value.1
    ensures var settled := SettleAll(held.buckets, x.allocations, Release, later).value;
            var back := Finalize(held, |s.reservations|, Release, key, later);
            && back.Success?
            && back.value.0.buckets == settled.0
            && back.value.0.accounts == s.accounts[x.owner :=
                 Account(s.accounts[x.owner].balance - x.amount + settled.1, s.accounts[x.owner].reserved)]
  {
    CompactKeepsPositive(x.allocations);
  }

  lemma ReleaseUndoesHold(s: State, held: State, x: Reservation, t: Transaction, key: string, later: Time)
    requires HeldFor(s, held, x, t) && Solvent(s.buckets) && 0 <= s.accounts[x.owner].reserved && 0 < x.amount
    requires AllPositive(x.allocations) && TotalAllocated(x.allocations) == x.amount
    requires forall a :: a in x.allocations ==> a.bucket in s.buckets && s.buckets[a.bucket].status == Active
    requires FindKey(held.ledger, CallerKey(key)).None? && key != ""
    ensures var back := Finalize(held, |s.reservations|, Release, key, later);
            back.Success? && GivenBack(s, back.value.0, x.owner, x.allocations, later)
  {
    HoldThenSettle(s.buckets, x.allocations, later);
    RestoredNonNegative(s, x.allocations, later);
    ReleaseShape(s, held, x, t, key, later);
  }

  lemma RestoredNonNegative(s: State, plan: seq<Allocation>, later: Time)
    requires Solvent(s.buckets) && AllPositive(plan) && HoldAll(s.buckets, plan).Success?
    requires SettleAll(HoldAll(s.buckets, plan).value, plan, Release, later).Success?
    ensures 0 <= SettleAll(HoldAll(s.buckets, plan).value, plan, Release, later).value.1
  {
    HoldAllEffect(s.buckets, plan);
    SettleAllEffect(HoldAll(s.buckets, plan).value, plan, Release, later);
  }

  // Main result: a release gives back everything the reservation took, except
  // what it had drawn from buckets that have expired in the meantime.
  lemma ReleaseUndoesReserve(s: State, input: ReserveInput, now: Time, key: string, later: Time)
    requires Balanced(s) && input.amount > 0 && ReserveFresh(s, input, now).Success?
    requires key != "" && FindKey(ReserveFresh(s, input, now).value.ledger, CallerKey(key)).None?
    ensures var swept := SweepUser(Open(s, input.user), input.user, now).value;
            var back := Finalize(ReserveFresh(s, input, now).value, |s.reservations|, Release, key, later);
            && back.Success?
            && GivenBack(swept, back.value.0, input.user, Plan(swept, input.user, input.amount, now), later)
  {
    var start := Open(s, input.user);
    OpenKeeps(s, input.user);
    SweepDecided(start, input.user, now);
    var swept := SweepUser(start, input.user, now).value;
    BalancedSolvent(start);
    SweepLeavesNoneDue(start, input.user, now);
    var plan := Plan(swept, input.user, input.amount, now);
    PlanCoversAmount(swept, input.user, input.amount, now);
    PlanActive(swept, input.user, input.amount, now);
    HeldReserved(swept, input.user);
    HoldShape(swept, input, plan, now);
    var held := ReserveFresh(s, input, now).value;
    var x := Reservation(input.user, input.amount, Pending, input.key, plan, input.expiresAt, now);
    ReleaseUndoesHold(swept, held, x, held.ledger[|swept.ledger|], key, later);
  }

  lemma HeldReserved(s: State, user: UserId)
    requires Balanced(s) && user in s.accounts
    ensures Solvent(s.buckets) && 0 <= s.accounts[user].reserved
  {
    BalancedSolvent(s);
    assert AccountSound(s, user);
    TotalNonNegative(Holdings(s.buckets, user));
  }
}
