/** What the figures stamped on a ledger entry are, in terms of the ledger alone:
    the balance is a sum of amounts, the reserved figure the sum of the reservations
    opened and not yet finalized, and the last ones are the account. */
module LedgerTotals {
  import opened Wrappers
  import opened Credits
  import opened WalletSpec
  import opened WalletRows
  import opened LedgerReplay

  // ---------------------------------------------------------------- open reservations

  ghost predicate ClosedIn(ledger: seq<Transaction>, id: ReservationId) {
    exists j :: 0 <= j < |ledger| && Finalizes(ledger[j]) && ledger[j].reservation == Some(id)
  }

  // What an entry adds to the user's open reservations, as far as a ledger tells: a
  // reserve entry has a negative amount.
  ghost function OpenShare(t: Transaction, ledger: seq<Transaction>, user: UserId): int {
    if t.user == user && t.kind == ReserveEntry && t.reservation.Some? && !ClosedIn(ledger, t.reservation.value) then -t.amount else 0
  }

  // The amounts of the reserve entries among these whose reservation the ledger does
  // not finalize.
  ghost function OpenTotal(entries: seq<Transaction>, ledger: seq<Transaction>, user: UserId): int {
    if entries == [] then 0
    else OpenTotal(entries[..|entries| - 1], ledger, user) + OpenShare(entries[|entries| - 1], ledger, user)
  }

  // The figures on the user's last entry.
  function LastFigures(ledger: seq<Transaction>, user: UserId): Account {
    if ledger == [] then Account(0, 0)
    else
      var t := ledger[|ledger| - 1];
      if t.user == user then Account(t.balanceAfter, t.reservedAfter) else LastFigures(ledger[..|ledger| - 1], user)
  }

  predicate ReservedAt(ledger: seq<Transaction>, i: nat, id: ReservationId) {
    i < |ledger| && ledger[i].kind == ReserveEntry && ledger[i].reservation == Some(id)
  }

  ghost predicate Reserves(ledger: seq<Transaction>, id: ReservationId) {
    exists i: nat :: ReservedAt(ledger, i, id)
  }

  // ---------------------------------------------------------------- invariant

  // Every reservation has one reserve entry, and a final entry exactly if it is no
  // longer pending.
  ghost predicate ReserveEntriesMatch(s: State) {
    && (forall i :: 0 <= i < |s.ledger| && s.ledger[i].kind == ReserveEntry ==>
          && s.ledger[i].reservation.Some? && s.ledger[i].reservation.value < |s.reservations|
          && var r := s.reservations[s.ledger[i].reservation.value]; r.owner == s.ledger[i].user && r.amount == -s.ledger[i].amount)
    && (forall i: nat, j: nat, id: ReservationId :: ReservedAt(s.ledger, i, id) && ReservedAt(s.ledger, j, id) ==> i == j)
    && (forall id: ReservationId :: id < |s.reservations| ==> Reserves(s.ledger, id))
  }

  ghost predicate FinalEntriesMatch(s: State) {
    forall id: ReservationId :: ClosedIn(s.ledger, id) <==> id < |s.reservations| && s.reservations[id].status != Pending
  }

  ghost predicate OpenMatches(s: State) {
    forall u :: AccountIn(s.accounts, u).reserved == OpenTotal(s.ledger, s.ledger, u)
  }

  ghost predicate LastMatches(s: State) {
    forall u :: AccountIn(s.accounts, u) == LastFigures(s.ledger, u)
  }

  ghost predicate OpenStamped(ledger: seq<Transaction>, k: nat)
    requires k < |ledger|
  {
    ledger[k].reservedAfter == OpenTotal(ledger[..k + 1], ledger[..k + 1], ledger[k].user)
  }

  ghost predicate AllOpenStamped(ledger: seq<Transaction>) {
    forall k :: 0 <= k < |ledger| ==> OpenStamped(ledger, k)
  }

  ghost predicate Tallied(s: State) {
    ReserveEntriesMatch(s) && FinalEntriesMatch(s) && OpenMatches(s) && LastMatches(s) && AllOpenStamped(s.ledger)
  }

  // ---------------------------------------------------------------- how the totals move

  lemma ClosedAfter(ledger: seq<Transaction>, t: Transaction)
    ensures forall id: ReservationId :: ClosedIn(ledger + [t], id) <==> ClosedIn(ledger, id) || (Finalizes(t) && t.reservation == Some(id))
  {
    forall id: ReservationId
      ensures ClosedIn(ledger + [t], id) <==> ClosedIn(ledger, id) || (Finalizes(t) && t.reservation == Some(id))
    {
      if ClosedIn(ledger, id) {
        var j :| 0 <= j < |ledger| && Finalizes(ledger[j]) && ledger[j].reservation == Some(id);
        assert (ledger + [t])[j] == ledger[j];
      }
      assert (ledger + [t])[|ledger|] == t;
    }
  }

  lemma {:induction false} SameOpen(entries: seq<Transaction>, before: seq<Transaction>, after: seq<Transaction>, user: UserId)
    requires forall i :: 0 <= i < |entries| && entries[i].kind == ReserveEntry && entries[i].reservation.Some? ==>
               (ClosedIn(after, entries[i].reservation.value) <==> ClosedIn(before, entries[i].reservation.value))
    ensures OpenTotal(entries, after, user) == OpenTotal(entries, before, user)
  {
    if entries != [] {
      SameOpen(entries[..|entries| - 1], before, after, user);
    }
  }

  // Finalizing a reservation takes its one reserve entry out of the sum.
  lemma {:induction false} OneClosed(entries: seq<Transaction>, before: seq<Transaction>, after: seq<Transaction>, user: UserId,
                                     id: ReservationId, i: nat)
    requires ReservedAt(entries, i, id) && forall j: nat :: ReservedAt(entries, j, id) ==> j == i
    requires !ClosedIn(before, id) && forall x: ReservationId :: ClosedIn(after, x) <==> ClosedIn(before, x) || x == id
    ensures OpenTotal(entries, after, user) == OpenTotal(entries, before, user) + if entries[i].user == user then entries[i].amount else 0
  {
    var n := |entries| - 1;
    var front := entries[..n];
    assert forall j :: 0 <= j < n ==> front[j] == entries[j];
    if i == n {
      forall j: nat | j < n && front[j].kind == ReserveEntry && front[j].reservation.Some?
        ensures front[j].reservation != Some(id)
      {
        assert !ReservedAt(entries, j, id);
      }
      SameOpen(front, before, after, user);
    } else {
      forall j: nat | ReservedAt(front, j, id)
        ensures j == i
      {
        assert ReservedAt(entries, j, id);
      }
      assert !ReservedAt(entries, n, id);
      OneClosed(front, before, after, user, id, i);
    }
  }

  lemma OpenAppend(entries: seq<Transaction>, t: Transaction, ledger: seq<Transaction>, user: UserId)
    ensures OpenTotal(entries + [t], ledger, user) == OpenTotal(entries, ledger, user) + OpenShare(t, ledger, user)
  {
    assert (entries + [t])[..|entries|] == entries;
  }

  lemma LastAppend(ledger: seq<Transaction>, t: Transaction, user: UserId)
    ensures LastFigures(ledger + [t], user) == if t.user == user then Account(t.balanceAfter, t.reservedAfter) else LastFigures(ledger, user)
  {
    assert (ledger + [t])[..|ledger|] == ledger;
  }

  // ---------------------------------------------------------------- one entry

  lemma WriteKeepsLast(s: State, r: State, t: Transaction)
    requires LastMatches(s) && Writes(s, r, t)
    ensures LastMatches(r)
  {
    forall u
      ensures AccountIn(r.accounts, u) == LastFigures(r.ledger, u)
    {
      LastAppend(s.ledger, t, u);
      assert AccountIn(s.accounts, u) == LastFigures(s.ledger, u);
    }
  }

  lemma WriteKeepsStamps(s: State, r: State, t: Transaction)
    requires AllOpenStamped(s.ledger) && Writes(s, r, t) && OpenMatches(r)
    ensures AllOpenStamped(r.ledger)
  {
    forall k | 0 <= k < |r.ledger|
      ensures OpenStamped(r.ledger, k)
    {
      if k < |s.ledger| {
        assert OpenStamped(s.ledger, k);
        assert r.ledger[..k + 1] == s.ledger[..k + 1];
      } else {
        assert r.ledger[..k + 1] == r.ledger;
        assert AccountIn(r.accounts, t.user).reserved == OpenTotal(r.ledger, r.ledger, t.user);
      }
    }
  }

  lemma ReservedAfterWrite(ledger: seq<Transaction>, t: Transaction)
    ensures forall i: nat, id: ReservationId :: ReservedAt(ledger + [t], i, id) <==>
              ReservedAt(ledger, i, id) || (i == |ledger| && t.kind == ReserveEntry && t.reservation == Some(id))
  {
  }

  lemma PlainMatches(s: State, r: State, t: Transaction)
    requires ReserveEntriesMatch(s) && FinalEntriesMatch(s) && r.ledger == s.ledger + [t]
    requires t.kind != ReserveEntry && !Finalizes(t) && r.reservations == s.reservations
    ensures ReserveEntriesMatch(r) && FinalEntriesMatch(r)
  {
    ReservedAfterWrite(s.ledger, t);
    ClosedAfter(s.ledger, t);
    forall id: ReservationId | id < |r.reservations|
      ensures Reserves(r.ledger, id)
    {
      assert Reserves(s.ledger, id);
      var i: nat :| ReservedAt(s.ledger, i, id);
      assert ReservedAt(r.ledger, i, id);
    }
  }

  lemma PlainOpen(s: State, r: State, t: Transaction)
    requires OpenMatches(s) && Writes(s, r, t) && t.kind != ReserveEntry && !Finalizes(t)
    requires r.accounts[t.user].reserved == s.accounts[t.user].reserved
    ensures OpenMatches(r)
  {
    ClosedAfter(s.ledger, t);
    forall u
      ensures AccountIn(r.accounts, u).reserved == OpenTotal(r.ledger, r.ledger, u)
    {
      OpenAppend(s.ledger, t, r.ledger, u);
      SameOpen(s.ledger, s.ledger, r.ledger, u);
      assert AccountIn(s.accounts, u).reserved == OpenTotal(s.ledger, s.ledger, u);
    }
  }

  lemma PlainKeeps(s: State, r: State, t: Transaction)
    requires Tallied(s) && Writes(s, r, t) && t.kind != ReserveEntry && !Finalizes(t)
    requires r.reservations == s.reservations && r.accounts[t.user].reserved == s.accounts[t.user].reserved
    ensures Tallied(r)
  {
    PlainMatches(s, r, t);
    PlainOpen(s, r, t);
    WriteKeepsLast(s, r, t);
    WriteKeepsStamps(s, r, t);
  }

  ghost predicate Opening(s: State, r: State, t: Transaction, x: Reservation) {
    && t.kind == ReserveEntry && t.reservation == Some(|s.reservations|) && t.amount == -x.amount && t.user == x.owner
    && r.reservations == s.reservations + [x] && x.status == Pending
  }

  lemma OpeningMatches(s: State, r: State, t: Transaction, x: Reservation)
    requires ReserveEntriesMatch(s) && FinalEntriesMatch(s) && r.ledger == s.ledger + [t] && Opening(s, r, t, x)
    ensures ReserveEntriesMatch(r) && FinalEntriesMatch(r)
  {
    ReservedAfterWrite(s.ledger, t);
    ClosedAfter(s.ledger, t);
    forall id: ReservationId | id < |r.reservations|
      ensures Reserves(r.ledger, id)
    {
      if id < |s.reservations| {
        assert Reserves(s.ledger, id);
        var i: nat :| ReservedAt(s.ledger, i, id);
        assert ReservedAt(r.ledger, i, id);
      } else {
        assert ReservedAt(r.ledger, |s.ledger|, id);
      }
    }
  }

  lemma OpeningOpen(s: State, r: State, t: Transaction, x: Reservation)
    requires FinalEntriesMatch(s) && OpenMatches(s) && Writes(s, r, t) && Opening(s, r, t, x)
    requires r.accounts[t.user].reserved == s.accounts[t.user].reserved + x.amount
    ensures OpenMatches(r)
  {
    ClosedAfter(s.ledger, t);
    assert !ClosedIn(s.ledger, |s.reservations|);
    forall u
      ensures AccountIn(r.accounts, u).reserved == OpenTotal(r.ledger, r.ledger, u)
    {
      OpenAppend(s.ledger, t, r.ledger, u);
      SameOpen(s.ledger, s.ledger, r.ledger, u);
      assert AccountIn(s.accounts, u).reserved == OpenTotal(s.ledger, s.ledger, u);
    }
  }

  lemma OpeningKeeps(s: State, r: State, t: Transaction, x: Reservation)
    requires Tallied(s) && Writes(s, r, t) && Opening(s, r, t, x)
    requires r.accounts[t.user].reserved == s.accounts[t.user].reserved + x.amount
    ensures Tallied(r)
  {
    OpeningMatches(s, r, t, x);
    OpeningOpen(s, r, t, x);
    WriteKeepsLast(s, r, t);
    WriteKeepsStamps(s, r, t);
  }

  ghost predicate Closing(s: State, r: State, t: Transaction, id: ReservationId) {
    && id < |s.reservations| && s.reservations[id].status == Pending && s.reservations[id].owner == t.user
    && Finalizes(t) && t.reservation == Some(id)
    && |r.reservations| == |s.reservations| && r.reservations == s.reservations[id := r.reservations[id]]
    && r.reservations[id] == s.reservations[id].(status := r.reservations[id].status, finalizedAt := r.reservations[id].finalizedAt)
    && r.reservations[id].status != Pending
  }

  lemma ClosingMatches(s: State, r: State, t: Transaction, id: ReservationId)
    requires ReserveEntriesMatch(s) && FinalEntriesMatch(s) && r.ledger == s.ledger + [t] && Closing(s, r, t, id)
    ensures ReserveEntriesMatch(r) && FinalEntriesMatch(r)
  {
    ReservedAfterWrite(s.ledger, t);
    ClosedAfter(s.ledger, t);
    forall x: ReservationId | x < |r.reservations|
      ensures Reserves(r.ledger, x)
    {
      assert Reserves(s.ledger, x);
      var i: nat :| ReservedAt(s.ledger, i, x);
      assert ReservedAt(r.ledger, i, x);
    }
  }

  lemma ClosingOpen(s: State, r: State, t: Transaction, id: ReservationId)
    requires ReserveEntriesMatch(s) && FinalEntriesMatch(s) && OpenMatches(s) && Writes(s, r, t) && Closing(s, r, t, id)
    requires r.accounts[t.user].reserved == s.accounts[t.user].reserved - s.reservations[id].amount
    ensures OpenMatches(r)
  {
    ClosedAfter(s.ledger, t);
    assert Reserves(s.ledger, id);
    var i: nat :| ReservedAt(s.ledger, i, id);
    assert !ClosedIn(s.ledger, id);
    forall u
      ensures AccountIn(r.accounts, u).reserved == OpenTotal(r.ledger, r.ledger, u)
    {
      OpenAppend(s.ledger, t, r.ledger, u);
      OneClosed(s.ledger, s.ledger, r.ledger, u, id, i);
      assert AccountIn(s.accounts, u).reserved == OpenTotal(s.ledger, s.ledger, u);
    }
  }

  lemma ClosingKeeps(s: State, r: State, t: Transaction, id: ReservationId)
    requires Tallied(s) && Writes(s, r, t) && Closing(s, r, t, id)
    requires r.accounts[t.user].reserved == s.accounts[t.user].reserved - s.reservations[id].amount
    ensures Tallied(r)
  {
    ClosingMatches(s, r, t, id);
    ClosingOpen(s, r, t, id);
    WriteKeepsLast(s, r, t);
    WriteKeepsStamps(s, r, t);
  }

  // ---------------------------------------------------------------- rows and runs

  lemma OpenKeeps(s: State, user: UserId)
    requires Tallied(s)
    ensures Tallied(Open(s, user))
  {
    forall u
      ensures AccountIn(Open(s, user).accounts, u) == AccountIn(s.accounts, u)
    {
    }
  }

  lemma GrantTallies(s: State, user: UserId, amount: int, key: string, bucket: Bucket, now: Time)
    requires Tallied(s) && PostGrant(s, user, amount, key, bucket, now).Success?
    ensures Tallied(PostGrant(s, user, amount, key, bucket, now).value)
  {
    var r := PostGrant(s, user, amount, key, bucket, now).value;
    PlainKeeps(s, r, r.ledger[|s.ledger|]);
  }

  lemma ExpireTallies(s: State, bucket: BucketId, now: Time)
    requires Tallied(s) && PostExpire(s, bucket, now).Success?
    ensures Tallied(PostExpire(s, bucket, now).value)
  {
    var r := PostExpire(s, bucket, now).value;
    assert s.accounts == s.accounts[s.buckets[bucket].owner := s.accounts[s.buckets[bucket].owner]];
    PlainKeeps(s, r, r.ledger[|s.ledger|]);
  }

  lemma ClawbackTallies(s: State, order: Order, rule: string, id: TransactionId, now: Time)
    requires Tallied(s) && NonNegative(s) && PostClawback(s, order, rule, id, now).Success?
    ensures Tallied(PostClawback(s, order, rule, id, now).value)
  {
    var r := PostClawback(s, order, rule, id, now).value;
    var user := s.ledger[id].user;
    assert s.accounts == s.accounts[user := s.accounts[user]];
    assert 0 <= Recoverable(s.buckets, s.ledger[id], s.accounts[user].balance);
    PlainKeeps(s, r, r.ledger[|s.ledger|]);
  }

  lemma HoldTallies(s: State, input: ReserveInput, allocations: seq<Allocation>, now: Time)
    requires Tallied(s) && PostHold(s, input, allocations, now).Success?
    ensures Tallied(PostHold(s, input, allocations, now).value)
  {
    var r := PostHold(s, input, allocations, now).value;
    OpeningKeeps(s, r, r.ledger[|s.ledger|], r.reservations[|s.reservations|]);
  }

  lemma SettleCloses(s: State, id: ReservationId, finality: Finality, key: string, now: Time)
    requires PostSettle(s, id, finality, key, now).Success?
    ensures var r := PostSettle(s, id, finality, key, now).value;
            |s.ledger| < |r.ledger| && Closing(s, r, r.ledger[|s.ledger|], id)
  {
  }

  lemma SettleTallies(s: State, id: ReservationId, finality: Finality, key: string, now: Time)
    requires Tallied(s) && PostSettle(s, id, finality, key, now).Success?
    ensures Tallied(PostSettle(s, id, finality, key, now).value)
  {
    var r := PostSettle(s, id, finality, key, now).value;
    SettleWrites(s, id, finality, key, now);
    SettleCloses(s, id, finality, key, now);
    ClosingKeeps(s, r, r.ledger[|s.ledger|], id);
  }

  lemma RowTallies(s: State, row: Row, now: Time)
    requires Tallied(s) && NonNegative(s) && Post(s, row, now).Success?
    ensures Tallied(Post(s, row, now).value)
  {
    match row
    case OpenRow(user) => OpenKeeps(s, user);
    case GrantRow(user, amount, key, bucket) => GrantTallies(s, user, amount, key, bucket, now);
    case ExpireRow(bucket) => ExpireTallies(s, bucket, now);
    case HoldRow(input, allocations) => HoldTallies(s, input, allocations, now);
    case SettleRow(id, finality, key) => SettleTallies(s, id, finality, key, now);
    case ClawbackRow(order, rule, original) => ClawbackTallies(s, order, rule, original, now);
  }

  lemma {:induction false} RowsTally(s: State, rows: seq<Row>, now: Time, s': State)
    requires Tallied(s) && NonNegative(s) && Posted(s, rows, now, s', false)
    ensures Tallied(s') && NonNegative(s')
    decreases |rows|
  {
    if rows != [] {
      RowTallies(s, rows[0], now);
      RowKeepsNonNegative(s, rows[0], now);
      RowsTally(Post(s, rows[0], now).value, rows[1..], now, s');
    }
  }

  lemma {:induction false} RunTallies(s: State, ops: seq<Operation>)
    requires Tallied(s) && NonNegative(s)
    ensures Tallied(Run(s, ops)) && NonNegative(Run(s, ops))
    decreases |ops|
  {
    if ops != [] {
      var rows := OperationIsRows(s, ops[0], false);
      RowsTally(s, rows, ops[0].now, Execute(s, ops[0]));
      RunTallies(Execute(s, ops[0]), ops[1..]);
    }
  }

  // Main result: over every run the reserved figure on each entry is the sum of its
  // user's reservations that the ledger opens up to there and does not finalize.
  lemma ReservedAfterIsOpenTotal(users: set<UserId>, ops: seq<Operation>, k: nat)
    requires k < |Run(Empty(users), ops).ledger|
    ensures var ledger := Run(Empty(users), ops).ledger;
            ledger[k].reservedAfter == OpenTotal(ledger[..k + 1], ledger[..k + 1], ledger[k].user)
  {
    RunTallies(Empty(users), ops);
    assert OpenStamped(Run(Empty(users), ops).ledger, k);
  }

  // Main result: over every run a user's account is what the user's last entry says,
  // and nothing if there is none.
  lemma LastEntryIsAccount(users: set<UserId>, ops: seq<Operation>, user: UserId)
    ensures var s := Run(Empty(users), ops); AccountIn(s.accounts, user) == LastFigures(s.ledger, user)
  {
    RunTallies(Empty(users), ops);
  }
}
