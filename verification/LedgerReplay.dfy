/** The append-only ledger alone rebuilds every account and every open reservation. */
module LedgerReplay {
  import opened Wrappers
  import opened Credits
  import opened WalletSpec
  import opened WalletRows

  // What a reader of the ledger reconstructs: account figures and the amounts of
  // reservations opened and not yet finalized.
  datatype Books = Books(accounts: map<UserId, Account>, open: map<ReservationId, int>)

  function AccountIn(accounts: map<UserId, Account>, user: UserId): Account {
    if user in accounts then accounts[user] else Account(0, 0)
  }

  function Finalizes(t: Transaction): bool {
    t.kind == CommitEntry || t.kind == ReleaseEntry
  }

  function ReplayEntry(books: Books, t: Transaction): Books {
    var a := AccountIn(books.accounts, t.user);
    if t.kind == ReserveEntry && t.reservation.Some? then
      Books(books.accounts[t.user := Account(a.balance + t.amount, a.reserved - t.amount)],
            books.open[t.reservation.value := -t.amount])
    else if Finalizes(t) && t.reservation.Some? && t.reservation.value in books.open then
      Books(books.accounts[t.user := Account(a.balance + t.amount, a.reserved - books.open[t.reservation.value])],
            books.open - {t.reservation.value})
    else
      Books(books.accounts[t.user := Account(a.balance + t.amount, a.reserved)], books.open)
  }

  function Replay(ledger: seq<Transaction>): Books {
    if ledger == [] then Books(map[], map[])
    else ReplayEntry(Replay(ledger[..|ledger| - 1]), ledger[|ledger| - 1])
  }

  function OpenAmounts(rs: seq<Reservation>): map<ReservationId, int> {
    map i | 0 <= i < |rs| && rs[i].status == Pending :: rs[i].amount
  }

  // The figures stamped on an entry are the replay of the ledger up to it.
  ghost predicate Stamped(ledger: seq<Transaction>, k: nat)
    requires k < |ledger|
  {
    var a := AccountIn(Replay(ledger[..k + 1]).accounts, ledger[k].user);
    ledger[k].balanceAfter == a.balance && ledger[k].reservedAfter == a.reserved
  }

  function CountFor(ledger: seq<Transaction>, kind: TransactionKind, id: ReservationId): nat {
    if ledger == [] then 0
    else
      var t := ledger[|ledger| - 1];
      CountFor(ledger[..|ledger| - 1], kind, id) + if t.kind == kind && t.reservation == Some(id) then 1 else 0
  }

  function StatusAt(rs: seq<Reservation>, id: ReservationId): Option<ReservationStatus> {
    if id < |rs| then Some(rs[id].status) else None
  }

  ghost predicate FinalizedOnce(s: State, id: ReservationId) {
    && CountFor(s.ledger, CommitEntry, id) == (if StatusAt(s.reservations, id) == Some(Committed) then 1 else 0)
    && CountFor(s.ledger, ReleaseEntry, id) == (if StatusAt(s.reservations, id) == Some(Released) then 1 else 0)
  }

  ghost predicate AccountsReplay(s: State) {
    forall u :: AccountIn(Replay(s.ledger).accounts, u) == AccountIn(s.accounts, u)
  }

  ghost predicate EntriesStamped(ledger: seq<Transaction>) {
    forall k :: 0 <= k < |ledger| ==> Stamped(ledger, k)
  }

  ghost predicate Faithful(s: State) {
    && AccountsReplay(s)
    && Replay(s.ledger).open == OpenAmounts(s.reservations)
    && EntriesStamped(s.ledger)
    && forall id :: FinalizedOnce(s, id)
  }

  // ---------------------------------------------------------------- appending one entry

  // What every row that writes an entry does to the account and the entry.
  ghost predicate Writes(s: State, r: State, t: Transaction) {
    && t.user in s.accounts && t.user in r.accounts
    && r.ledger == s.ledger + [t]
    && r.accounts == s.accounts[t.user := r.accounts[t.user]]
    && t.balanceAfter == r.accounts[t.user].balance == s.accounts[t.user].balance + t.amount
    && t.reservedAfter == r.accounts[t.user].reserved
  }

  lemma ReplayAppend(ledger: seq<Transaction>, t: Transaction)
    ensures Replay(ledger + [t]) == ReplayEntry(Replay(ledger), t)
    ensures forall kind, id: ReservationId :: CountFor(ledger + [t], kind, id)
                            == CountFor(ledger, kind, id) + if t.kind == kind && t.reservation == Some(id) then 1 else 0
  {
    assert (ledger + [t])[..|ledger|] == ledger;
  }

  lemma StampAppend(s: State, r: State, t: Transaction)
    requires EntriesStamped(s.ledger) && Writes(s, r, t) && AccountsReplay(r)
    ensures EntriesStamped(r.ledger)
  {
    forall k | 0 <= k < |r.ledger|
      ensures Stamped(r.ledger, k)
    {
      if k < |s.ledger| {
        assert Stamped(s.ledger, k);
        assert r.ledger[..k + 1] == s.ledger[..k + 1];
      } else {
        assert r.ledger[..k + 1] == r.ledger;
      }
    }
  }

  lemma WriteKeepsAccounts(s: State, r: State, t: Transaction)
    requires AccountsReplay(s) && Writes(s, r, t)
    requires AccountIn(Replay(r.ledger).accounts, t.user) == r.accounts[t.user]
    ensures AccountsReplay(r)
  {
    ReplayAppend(s.ledger, t);
    forall u
      ensures AccountIn(Replay(r.ledger).accounts, u) == AccountIn(r.accounts, u)
    {
      assert AccountIn(Replay(s.ledger).accounts, u) == AccountIn(s.accounts, u);
    }
  }

  // Grants, expiries and clawbacks leave reservations alone.
  lemma PlainEntryKeeps(s: State, r: State, t: Transaction)
    requires Faithful(s) && Writes(s, r, t)
    requires t.kind != ReserveEntry && !Finalizes(t)
    requires r.reservations == s.reservations && r.accounts[t.user].reserved == s.accounts[t.user].reserved
    ensures Faithful(r)
  {
    ReplayAppend(s.ledger, t);
    WriteKeepsAccounts(s, r, t);
    StampAppend(s, r, t);
    forall id
      ensures FinalizedOnce(r, id)
    {
      assert FinalizedOnce(s, id);
    }
  }

  lemma ReserveEntryKeeps(s: State, r: State, t: Transaction, x: Reservation)
    requires Faithful(s) && Writes(s, r, t)
    requires t.kind == ReserveEntry && t.reservation == Some(|s.reservations|) && t.amount == -x.amount
    requires r.reservations == s.reservations + [x] && x.status == Pending
    requires r.accounts[t.user].reserved == s.accounts[t.user].reserved + x.amount
    ensures Faithful(r)
  {
    ReplayAppend(s.ledger, t);
    WriteKeepsAccounts(s, r, t);
    StampAppend(s, r, t);
    assert OpenAmounts(r.reservations) == OpenAmounts(s.reservations)[|s.reservations| := x.amount];
    forall id
      ensures FinalizedOnce(r, id)
    {
      assert FinalizedOnce(s, id);
    }
  }

  lemma FinalEntryKeeps(s: State, r: State, t: Transaction, id: ReservationId)
    requires Faithful(s) && Writes(s, r, t)
    requires id < |s.reservations| && s.reservations[id].status == Pending && t.reservation == Some(id)
    requires |r.reservations| == |s.reservations| && r.reservations == s.reservations[id := r.reservations[id]]
    requires (t.kind == CommitEntry && r.reservations[id].status == Committed) || (t.kind == ReleaseEntry && r.reservations[id].status == Released)
    requires r.accounts[t.user].reserved == s.accounts[t.user].reserved - s.reservations[id].amount
    ensures Faithful(r)
  {
    ReplayAppend(s.ledger, t);
    assert id in OpenAmounts(s.reservations);
    WriteKeepsAccounts(s, r, t);
    StampAppend(s, r, t);
    assert OpenAmounts(r.reservations) == OpenAmounts(s.reservations) - {id};
    forall i
      ensures FinalizedOnce(r, i)
    {
      assert FinalizedOnce(s, i);
    }
  }

  // ---------------------------------------------------------------- rows and runs

  lemma OpenKeepsFaithful(s: State, user: UserId)
    requires Faithful(s)
    ensures Faithful(Open(s, user))
  {
    forall id
      ensures FinalizedOnce(Open(s, user), id)
    {
      assert FinalizedOnce(s, id);
    }
  }

  // Bounds that need no assumption at all about what refunds refer to.
  ghost predicate NonNegative(s: State) {
    && (forall u :: u in s.accounts ==> 0 <= s.accounts[u].balance && 0 <= s.accounts[u].reserved)
    && (forall b :: b in s.buckets ==> 0 <= s.buckets[b].remaining && 0 <= s.buckets[b].reserved)
    && (forall i :: 0 <= i < |s.reservations| ==> 0 < s.reservations[i].amount)
  }

  ghost predicate NonNegativeBuckets(buckets: map<BucketId, Bucket>) {
    forall b :: b in buckets ==> 0 <= buckets[b].remaining && 0 <= buckets[b].reserved
  }

  lemma {:induction false} HoldAllNonNegative(buckets: map<BucketId, Bucket>, allocations: seq<Allocation>)
    requires NonNegativeBuckets(buckets) && AllPositive(allocations) && HoldAll(buckets, allocations).Success?
    ensures NonNegativeBuckets(HoldAll(buckets, allocations).value)
    decreases |allocations|
  {
    if allocations != [] {
      var a := allocations[0];
      HoldAllNonNegative(buckets[a.bucket := Hold(buckets[a.bucket], a.amount)], allocations[1..]);
    }
  }

  lemma {:induction false} SettleAllNonNegative(buckets: map<BucketId, Bucket>, allocations: seq<Allocation>, finality: Finality, now: Time)
    requires NonNegativeBuckets(buckets) && AllPositive(allocations) && SettleAll(buckets, allocations, finality, now).Success?
    ensures NonNegativeBuckets(SettleAll(buckets, allocations, finality, now).value.0)
    decreases |allocations|
  {
    if allocations != [] {
      var a := allocations[0];
      SettleAllNonNegative(buckets[a.bucket := Settle(buckets[a.bucket], a.amount, finality, now)], allocations[1..], finality, now);
    }
  }

  lemma RowKeepsNonNegative(s: State, row: Row, now: Time)
    requires NonNegative(s) && Sensible(row) && Post(s, row, now).Success?
    ensures NonNegative(Post(s, row, now).value)
  {
    match row
    case HoldRow(input, allocations) => HoldKeepsNonNegative(s, input, allocations, now);
    case SettleRow(id, finality, key) => SettleKeepsNonNegative(s, id, finality, key, now);
    case ClawbackRow(order, rule, original) => ClawbackKeepsNonNegative(s, order, rule, original, now);
    case ExpireRow(bucket) => ExpireKeepsNonNegative(s, bucket, now);
    case _ =>
  }

  lemma HoldKeepsNonNegative(s: State, input: ReserveInput, allocations: seq<Allocation>, now: Time)
    requires NonNegative(s) && 0 < input.amount && PostHold(s, input, allocations, now).Success?
    ensures NonNegative(PostHold(s, input, allocations, now).value)
  {
    CompactKeepsPositive(allocations);
    HoldAllNonNegative(s.buckets, Compact(allocations));
  }

  lemma SettleKeepsNonNegative(s: State, id: ReservationId, finality: Finality, key: string, now: Time)
    requires NonNegative(s) && PostSettle(s, id, finality, key, now).Success?
    ensures NonNegative(PostSettle(s, id, finality, key, now).value)
  {
    CompactKeepsPositive(s.reservations[id].allocations);
    SettleAllNonNegative(s.buckets, Compact(s.reservations[id].allocations), finality, now);
  }

  lemma ClawbackKeepsNonNegative(s: State, order: Order, rule: string, id: TransactionId, now: Time)
    requires NonNegative(s) && PostClawback(s, order, rule, id, now).Success?
    ensures NonNegative(PostClawback(s, order, rule, id, now).value)
  {
  }

  lemma ExpireKeepsNonNegative(s: State, bucket: BucketId, now: Time)
    requires NonNegative(s) && PostExpire(s, bucket, now).Success?
    ensures NonNegative(PostExpire(s, bucket, now).value)
  {
  }

  lemma SettleWrites(s: State, id: ReservationId, finality: Finality, key: string, now: Time)
    requires PostSettle(s, id, finality, key, now).Success?
    ensures var r := PostSettle(s, id, finality, key, now).value;
            && |s.ledger| < |r.ledger| && Writes(s, r, r.ledger[|s.ledger|])
            && |r.reservations| == |s.reservations| && r.reservations == s.reservations[id := r.reservations[id]]
            && r.accounts[r.ledger[|s.ledger|].user].reserved == s.accounts[r.ledger[|s.ledger|].user].reserved - s.reservations[id].amount
  {
  }

  lemma GrantKeepsFaithful(s: State, user: UserId, amount: int, key: string, bucket: Bucket, now: Time)
    requires Faithful(s) && PostGrant(s, user, amount, key, bucket, now).Success?
    ensures Faithful(PostGrant(s, user, amount, key, bucket, now).value)
  {
    var r := PostGrant(s, user, amount, key, bucket, now).value;
    PlainEntryKeeps(s, r, r.ledger[|s.ledger|]);
  }

  lemma ExpireKeepsFaithful(s: State, bucket: BucketId, now: Time)
    requires Faithful(s) && PostExpire(s, bucket, now).Success?
    ensures Faithful(PostExpire(s, bucket, now).value)
  {
    var r := PostExpire(s, bucket, now).value;
    assert s.accounts == s.accounts[s.buckets[bucket].owner := s.accounts[s.buckets[bucket].owner]];
    PlainEntryKeeps(s, r, r.ledger[|s.ledger|]);
  }

  // A refund with nothing left to take leaves the account as it was, which needs
  // balances not to be negative.
  lemma ClawbackKeepsFaithful(s: State, order: Order, rule: string, id: TransactionId, now: Time)
    requires Faithful(s) && NonNegative(s) && PostClawback(s, order, rule, id, now).Success?
    ensures Faithful(PostClawback(s, order, rule, id, now).value)
  {
    var r := PostClawback(s, order, rule, id, now).value;
    var user := s.ledger[id].user;
    assert s.accounts == s.accounts[user := s.accounts[user]];
    assert 0 <= Recoverable(s.buckets, s.ledger[id], s.accounts[user].balance);
    PlainEntryKeeps(s, r, r.ledger[|s.ledger|]);
  }

  lemma HoldKeepsFaithful(s: State, input: ReserveInput, allocations: seq<Allocation>, now: Time)
    requires Faithful(s) && PostHold(s, input, allocations, now).Success?
    ensures Faithful(PostHold(s, input, allocations, now).value)
  {
    var r := PostHold(s, input, allocations, now).value;
    ReserveEntryKeeps(s, r, r.ledger[|s.ledger|], r.reservations[|s.reservations|]);
  }

  lemma SettleKeepsFaithful(s: State, id: ReservationId, finality: Finality, key: string, now: Time)
    requires Faithful(s) && PostSettle(s, id, finality, key, now).Success?
    ensures Faithful(PostSettle(s, id, finality, key, now).value)
  {
    var r := PostSettle(s, id, finality, key, now).value;
    SettleWrites(s, id, finality, key, now);
    FinalEntryKeeps(s, r, r.ledger[|s.ledger|], id);
  }

  lemma RowKeepsFaithful(s: State, row: Row, now: Time)
    requires Faithful(s) && NonNegative(s) && Post(s, row, now).Success?
    ensures Faithful(Post(s, row, now).value)
  {
    match row
    case OpenRow(user) => OpenKeepsFaithful(s, user);
    case GrantRow(user, amount, key, bucket) => GrantKeepsFaithful(s, user, amount, key, bucket, now);
    case ExpireRow(bucket) => ExpireKeepsFaithful(s, bucket, now);
    case HoldRow(input, allocations) => HoldKeepsFaithful(s, input, allocations, now);
    case SettleRow(id, finality, key) => SettleKeepsFaithful(s, id, finality, key, now);
    case ClawbackRow(order, rule, original) => ClawbackKeepsFaithful(s, order, rule, original, now);
  }

  lemma {:induction false} RowsKeepFaithful(s: State, rows: seq<Row>, now: Time, s': State)
    requires Faithful(s) && NonNegative(s) && Posted(s, rows, now, s', false)
    ensures Faithful(s') && NonNegative(s')
    decreases |rows|
  {
    if rows != [] {
      RowKeepsFaithful(s, rows[0], now);
      RowKeepsNonNegative(s, rows[0], now);
      RowsKeepFaithful(Post(s, rows[0], now).value, rows[1..], now, s');
    }
  }

  lemma {:induction false} RunKeepsFaithful(s: State, ops: seq<Operation>)
    requires Faithful(s) && NonNegative(s)
    ensures Faithful(Run(s, ops)) && NonNegative(Run(s, ops))
    decreases |ops|
  {
    if ops != [] {
      var rows := OperationIsRows(s, ops[0], false);
      RowsKeepFaithful(s, rows, ops[0].now, Execute(s, ops[0]));
      RunKeepsFaithful(Execute(s, ops[0]), ops[1..]);
    }
  }

  // Main result: after any run the ledger replays to the stored accounts, every
  // entry carries the figures of its moment, reservations are finalized once, and
  // nothing ever goes negative.
  lemma EveryRunReplays(users: set<UserId>, ops: seq<Operation>)
    ensures Faithful(Run(Empty(users), ops)) && NonNegative(Run(Empty(users), ops))
  {
    RunKeepsFaithful(Empty(users), ops);
  }

  function AmountTotal(ledger: seq<Transaction>, user: UserId): int {
    if ledger == [] then 0
    else AmountTotal(ledger[..|ledger| - 1], user) + if ledger[|ledger| - 1].user == user then ledger[|ledger| - 1].amount else 0
  }

  lemma {:induction false} ReplayedBalance(ledger: seq<Transaction>, user: UserId)
    ensures AccountIn(Replay(ledger).accounts, user).balance == AmountTotal(ledger, user)
  {
    if ledger != [] {
      ReplayedBalance(ledger[..|ledger| - 1], user);
    }
  }

  // The balance on each entry is the sum of the user's amounts so far.
  lemma BalanceAfterIsPrefixSum(users: set<UserId>, ops: seq<Operation>, k: nat)
    requires k < |Run(Empty(users), ops).ledger|
    ensures var ledger := Run(Empty(users), ops).ledger;
            ledger[k].balanceAfter == AmountTotal(ledger[..k + 1], ledger[k].user)
  {
    EveryRunReplays(users, ops);
    var ledger := Run(Empty(users), ops).ledger;
    assert Stamped(ledger, k);
    ReplayedBalance(ledger[..k + 1], ledger[k].user);
  }
}
