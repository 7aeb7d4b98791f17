/** A bucket never holds more than was granted into it: what the audit counts as gone
    is never negative. */
module BucketAudit {
  import opened Wrappers
  import opened Credits
  import opened WalletSpec
  import opened WalletRows
  import opened WalletBalance
  import opened WalletInvariant
  import opened WalletDecisions
  import LedgerReplay

  // Expiries and clawbacks only ever take.
  ghost predicate OnlyTake(ledger: seq<Transaction>) {
    forall i :: 0 <= i < |ledger| && (ledger[i].kind == ExpireEntry || ledger[i].kind == ClawbackEntry) ==> ledger[i].amount <= 0
  }

  lemma ClawbackTakes(s: State, order: Order, rule: string, id: TransactionId, now: Time)
    requires LedgerReplay.NonNegative(s) && OnlyTake(s.ledger) && PostClawback(s, order, rule, id, now).Success?
    ensures OnlyTake(PostClawback(s, order, rule, id, now).value.ledger)
  {
    var r := PostClawback(s, order, rule, id, now).value;
    assert r.ledger == s.ledger + [r.ledger[|s.ledger|]];
    assert 0 <= Recoverable(s.buckets, s.ledger[id], s.accounts[s.ledger[id].user].balance);
  }

  lemma RowTakes(s: State, row: Row, now: Time)
    requires LedgerReplay.NonNegative(s) && OnlyTake(s.ledger) && Post(s, row, now).Success?
    ensures OnlyTake(Post(s, row, now).value.ledger)
  {
    match row
    case OpenRow(user) =>
    case ClawbackRow(order, rule, original) => ClawbackTakes(s, order, rule, original, now);
    case _ =>
      var r := Post(s, row, now).value;
      assert r.ledger == s.ledger + [r.ledger[|s.ledger|]];
  }

  lemma {:induction false} RowsTake(s: State, rows: seq<Row>, now: Time, s': State)
    requires LedgerReplay.NonNegative(s) && OnlyTake(s.ledger) && Posted(s, rows, now, s', false)
    ensures LedgerReplay.NonNegative(s') && OnlyTake(s'.ledger)
    decreases |rows|
  {
    if rows != [] {
      RowTakes(s, rows[0], now);
      LedgerReplay.RowKeepsNonNegative(s, rows[0], now);
      RowsTake(Post(s, rows[0], now).value, rows[1..], now, s');
    }
  }

  lemma {:induction false} RunTakes(s: State, ops: seq<Operation>)
    requires LedgerReplay.NonNegative(s) && OnlyTake(s.ledger)
    ensures OnlyTake(Run(s, ops).ledger)
    decreases |ops|
  {
    if ops != [] {
      var rows := OperationIsRows(s, ops[0], false);
      RowsTake(s, rows, ops[0].now, Execute(s, ops[0]));
      RunTakes(Execute(s, ops[0]), ops[1..]);
    }
  }

  lemma {:induction false} RemovedNonNegative(ledger: seq<Transaction>, b: BucketId, kind: TransactionKind)
    requires OnlyTake(ledger) && (kind == ExpireEntry || kind == ClawbackEntry)
    ensures 0 <= Removed(ledger, b, kind)
  {
    if ledger != [] {
      RemovedNonNegative(ledger[..|ledger| - 1], b, kind);
    }
  }

  // Main result: over every run, what a bucket has left and held is at most what was
  // granted into it; the rest was spent, forfeited, expired or taken back.
  lemma HoldsAtMostGranted(users: set<UserId>, ops: seq<Operation>, b: BucketId)
    requires RunBucketed(Empty(users), ops) && b in Run(Empty(users), ops).buckets
    ensures var k := Run(Empty(users), ops).buckets[b]; 0 <= k.remaining && 0 <= k.reserved && k.remaining + k.reserved <= k.granted
  {
    var s := Run(Empty(users), ops);
    EveryRunBalances(users, ops);
    RunTakes(Empty(users), ops);
    assert BucketSound(s, b) && Audited(s, b);
    var n := |s.reservations|;
    assert s.reservations[..n] == s.reservations;
    AllottedNonNegative(s, n, b, s.buckets[b].expiresAt, Spent);
    AllottedNonNegative(s, n, b, s.buckets[b].expiresAt, Forfeited);
    RemovedNonNegative(s.ledger, b, ExpireEntry);
    RemovedNonNegative(s.ledger, b, ClawbackEntry);
  }

  // ---------------------------------------------------------------- marks

  // What is marked active still has credits, left or held.
  ghost predicate ActiveHold(buckets: map<BucketId, Bucket>) {
    forall b :: b in buckets && buckets[b].status == Active ==> buckets[b].remaining != 0 || buckets[b].reserved != 0
  }

  lemma {:induction false} HoldKeepsMarks(buckets: map<BucketId, Bucket>, shares: seq<Allocation>)
    requires ActiveHold(buckets) && HoldAll(buckets, shares).Success?
    ensures ActiveHold(HoldAll(buckets, shares).value)
    decreases |shares|
  {
    if shares != [] {
      HoldKeepsMarks(buckets[shares[0].bucket := Hold(buckets[shares[0].bucket], shares[0].amount)], shares[1..]);
    }
  }

  lemma {:induction false} SettleKeepsMarks(buckets: map<BucketId, Bucket>, shares: seq<Allocation>, finality: Finality, now: Time)
    requires ActiveHold(buckets) && SettleAll(buckets, shares, finality, now).Success?
    ensures ActiveHold(SettleAll(buckets, shares, finality, now).value.0)
    decreases |shares|
  {
    if shares != [] {
      var a := shares[0];
      SettleKeepsMarks(buckets[a.bucket := Settle(buckets[a.bucket], a.amount, finality, now)], shares[1..], finality, now);
    }
  }

  lemma RowKeepsMarks(s: State, row: Row, now: Time)
    requires ActiveHold(s.buckets) && Sensible(row) && Post(s, row, now).Success?
    ensures ActiveHold(Post(s, row, now).value.buckets)
  {
    match row
    case HoldRow(input, allocations) => HoldKeepsMarks(s.buckets, Compact(allocations));
    case SettleRow(id, finality, key) => SettleKeepsMarks(s.buckets, Compact(s.reservations[id].allocations), finality, now);
    case _ =>
  }

  lemma {:induction false} RowsKeepMarks(s: State, rows: seq<Row>, now: Time, s': State)
    requires ActiveHold(s.buckets) && Posted(s, rows, now, s', false)
    ensures ActiveHold(s'.buckets)
    decreases |rows|
  {
    if rows != [] {
      RowKeepsMarks(s, rows[0], now);
      RowsKeepMarks(Post(s, rows[0], now).value, rows[1..], now, s');
    }
  }

  // Main result, over every run: a bucket of which nothing is left or held is marked
  // depleted or expired.
  lemma {:induction false} SpentAreMarked(s: State, ops: seq<Operation>)
    requires ActiveHold(s.buckets)
    ensures ActiveHold(Run(s, ops).buckets)
    decreases |ops|
  {
    if ops != [] {
      var rows := OperationIsRows(s, ops[0], false);
      RowsKeepMarks(s, rows, ops[0].now, Execute(s, ops[0]));
      SpentAreMarked(Execute(s, ops[0]), ops[1..]);
    }
  }
}
