/** A reservation released long after it was made: whatever happened in between, it
    gives back what the plan of that day took, less what has expired since. */
module LateRelease {
  import opened Wrappers
  import opened Credits
  import opened WalletSpec
  import opened WalletListing
  import opened WalletRows
  import opened WalletBalance
  import opened WalletInvariant
  import opened WalletDecisions
  import opened WalletRuns

  // Reservations are only ever marked as finalized.
  ghost predicate OnlyMarked(s: State, r: State) {
    && |s.reservations| <= |r.reservations|
    && forall i :: 0 <= i < |s.reservations| ==>
         r.reservations[i] == s.reservations[i].(status := r.reservations[i].status, finalizedAt := r.reservations[i].finalizedAt)
  }

  lemma HoldMarks(s: State, input: ReserveInput, allocations: seq<Allocation>, now: Time)
    requires PostHold(s, input, allocations, now).Success?
    ensures OnlyMarked(s, PostHold(s, input, allocations, now).value)
  {
  }

  lemma SettleMarks(s: State, id: ReservationId, finality: Finality, key: string, now: Time)
    requires PostSettle(s, id, finality, key, now).Success?
    ensures OnlyMarked(s, PostSettle(s, id, finality, key, now).value)
  {
  }

  lemma RowMarks(s: State, row: Row, now: Time)
    requires Post(s, row, now).Success?
    ensures OnlyMarked(s, Post(s, row, now).value)
  {
    match row
    case HoldRow(input, allocations) => HoldMarks(s, input, allocations, now);
    case SettleRow(id, finality, key) => SettleMarks(s, id, finality, key, now);
    case _ => assert Post(s, row, now).value.reservations == s.reservations;
  }

  lemma {:induction false} RowsMark(s: State, rows: seq<Row>, now: Time, r: State)
    requires Posted(s, rows, now, r, false)
    ensures OnlyMarked(s, r)
    decreases |rows|
  {
    if rows != [] {
      RowMarks(s, rows[0], now);
      RowsMark(Post(s, rows[0], now).value, rows[1..], now, r);
    }
  }

  lemma {:induction false} RunMarks(s: State, ops: seq<Operation>)
    ensures OnlyMarked(s, Run(s, ops))
    decreases |ops|
  {
    if ops != [] {
      var rows := OperationIsRows(s, ops[0], false);
      RowsMark(s, rows, ops[0].now, Execute(s, ops[0]));
      RunMarks(Execute(s, ops[0]), ops[1..]);
    }
  }

  // The user's credits afterwards: all of the plan but what fell on expired buckets
  // is back, each share in its own bucket.
  ghost predicate Returned(s: State, f: State, user: UserId, amount: int, plan: seq<Allocation>, now: Time) {
    && user in s.accounts
    && f.accounts == s.accounts[user := Account(s.accounts[user].balance + amount - Lost(s.buckets, plan, now), s.accounts[user].reserved - amount)]
    && f.buckets.Keys == s.buckets.Keys
    && forall b :: b in s.buckets ==>
         && f.buckets[b].reserved == s.buckets[b].reserved - AllocatedTo(plan, b)
         && f.buckets[b].remaining == s.buckets[b].remaining + if PastExpiry(s.buckets[b], now) then 0 else AllocatedTo(plan, b)
  }

  lemma SettledReturns(s: State, r: State, id: ReservationId, now: Time, t: Transaction)
    requires SettledAs(s, r, id, Release, now, t) && Solvent(s.buckets)
    requires var x := s.reservations[id]; AllPositive(x.allocations) && TotalAllocated(x.allocations) == x.amount
    ensures var x := s.reservations[id]; Returned(s, r, x.owner, x.amount, x.allocations, now)
  {
    SettleAllEffect(s.buckets, s.reservations[id].allocations, Release, now);
    RestoredIsUnlost(s.buckets, s.reservations[id].allocations, now);
  }

  // Any pending reservation can be released, and that is what it does.
  lemma ReleaseReturns(s: State, id: ReservationId, key: string, now: Time)
    requires Balanced(s) && id < |s.reservations| && s.reservations[id].status == Pending
    requires key != "" && FindKey(s.ledger, CallerKey(key)).None?
    ensures var x := s.reservations[id];
            var back := Finalize(s, id, Release, key, now);
            back.Success? && Returned(s, back.value.0, x.owner, x.amount, x.allocations, now)
  {
    FinalizeDecided(s, id, Release, key, now);
    assert ReservationSound(s, s.reservations[id]);
    BalancedSolvent(s);
    SettleShape(s, id, Release, key, now);
    var r := PostSettle(s, id, Release, key, now).value;
    SettledReturns(s, r, id, now, r.ledger[|s.ledger|]);
  }

  lemma HoldRecordsPlan(s: State, input: ReserveInput, plan: seq<Allocation>, now: Time)
    requires AllPositive(plan) && PostHold(s, input, plan, now).Success?
    ensures PostHold(s, input, plan, now).value.reservations ==
              s.reservations + [Reservation(input.user, input.amount, Pending, input.key, plan, input.expiresAt, now)]
  {
    CompactKeepsPositive(plan);
  }

  // The plan a new reservation is made by.
  ghost function PlanAt(s: State, input: ReserveInput, now: Time): seq<Allocation>
    requires SweepUser(Open(s, input.user), input.user, now).Success?
  {
    Plan(SweepUser(Open(s, input.user), input.user, now).value, input.user, input.amount, now)
  }

  lemma FreshIsHold(s: State, input: ReserveInput, now: Time) returns (swept: State)
    requires ReserveFresh(s, input, now).Success?
    ensures SweepUser(Open(s, input.user), input.user, now) == Success(swept) && input.user in swept.accounts
    ensures swept.accounts[input.user].balance >= input.amount
    ensures ReserveFresh(s, input, now) == PostHold(swept, input, PlanAt(s, input, now), now)
  {
    swept := SweepUser(Open(s, input.user), input.user, now).value;
  }

  lemma ReserveRecords(s: State, input: ReserveInput, now: Time)
    requires Balanced(s) && input.amount > 0 && ReserveFresh(s, input, now).Success?
    ensures SweepUser(Open(s, input.user), input.user, now).Success?
    ensures ReserveFresh(s, input, now).value.reservations ==
              s.reservations + [Reservation(input.user, input.amount, Pending, input.key, PlanAt(s, input, now), input.expiresAt, now)]
  {
    var start := Open(s, input.user);
    OpenKeeps(s, input.user);
    SweepDecided(start, input.user, now);
    BalancedSolvent(start);
    var swept := FreshIsHold(s, input, now);
    SweepLeavesNoneDue(start, input.user, now);
    PlanCoversAmount(swept, input.user, input.amount, now);
    HoldRecordsPlan(swept, input, PlanAt(s, input, now), now);
  }

  lemma ReserveKeepsBalance(s: State, input: ReserveInput, now: Time)
    requires Balanced(s) && input.amount > 0 && ReserveFresh(s, input, now).Success?
    ensures Balanced(ReserveFresh(s, input, now).value)
  {
    BalancedSolvent(s);
    var rows := ReserveIsRows(s, input, now, true);
    RowsKeep(s, rows, now, ReserveFresh(s, input, now).value);
  }

  // Main result: reserve, then any operations at all as long as the reservation is
  // still pending, then release. The release goes through and gives back what the
  // reservation's plan took, except from buckets expired by then.
  lemma ReleaseAfterAnyRun(s: State, input: ReserveInput, now: Time, between: seq<Operation>, key: string, later: Time)
    requires Balanced(s) && input.amount > 0 && ReserveFresh(s, input, now).Success?
    requires var held := ReserveFresh(s, input, now).value;
             var m := Run(held, between);
             && RunBucketed(held, between)
             && |s.reservations| < |m.reservations| && m.reservations[|s.reservations|].status == Pending
             && key != "" && FindKey(m.ledger, CallerKey(key)).None?
    ensures SweepUser(Open(s, input.user), input.user, now).Success?
    ensures var m := Run(ReserveFresh(s, input, now).value, between);
            var back := Finalize(m, |s.reservations|, Release, key, later);
            back.Success? && Returned(m, back.value.0, input.user, input.amount, PlanAt(s, input, now), later)
  {
    var held := ReserveFresh(s, input, now).value;
    var m := Run(held, between);
    ReserveRecords(s, input, now);
    ReserveKeepsBalance(s, input, now);
    RunMarks(held, between);
    RunKeepsBalance(held, between);
    ReleaseReturns(m, |s.reservations|, key, later);
  }
}
