/** What the wallet answers: a receipt names the records made under the request's own
    key, the first time and at every repetition after any run. */
module Receipts {
  import opened Wrappers
  import opened Credits
  import opened WalletSpec
  import opened WalletRows
  import opened WalletKeys
  import opened WalletBalance
  import opened WalletDecisions
  import opened WalletRuns
  import LateRelease

  // ---------------------------------------------------------------- one record per key

  lemma KeyFound(ledger: seq<Transaction>, t: TransactionId)
    requires KeysUnique(ledger) && t < |ledger|
    ensures FindKey(ledger, ledger[t].key) == Some(t)
  {
  }

  lemma ReservationFound(rs: seq<Reservation>, id: ReservationId)
    requires ReservationKeysUnique(rs) && id < |rs|
    ensures FindReservation(rs, rs[id].key) == Some(id)
  {
  }

  lemma ExecuteKeepsKeys(s: State, op: Operation)
    requires KeysSound(s)
    ensures KeysSound(Execute(s, op)) && Grown(s, Execute(s, op))
  {
    var rows := OperationIsRows(s, op, false);
    RowsGrow(s, rows, op.now, Execute(s, op));
  }

  // ---------------------------------------------------------------- reservations

  // The receipt's reservation is the one under this key, and its user the owner.
  ghost predicate NamesReservation(r: State, receipt: Receipt, key: string) {
    && receipt.reservation.Some? && receipt.reservation.value < |r.reservations|
    && r.reservations[receipt.reservation.value].key == key
    && r.reservations[receipt.reservation.value].owner == receipt.user
  }

  predicate IsReserveEntry(t: Transaction, id: ReservationId, input: ReserveInput, now: Time) {
    && t.key == ReserveKey(input.key) && t.kind == ReserveEntry && t.user == input.user && t.amount == -input.amount
    && t.reservation == Some(id) && t.createdAt == now
  }

  predicate AsRequested(x: Reservation, input: ReserveInput) {
    x.status == Pending && x.owner == input.user && x.amount == input.amount && x.expiresAt == input.expiresAt
  }

  // A reservation just made, as it was asked for, and its entry on the ledger.
  ghost predicate NewlyReserved(r: State, receipt: Receipt, input: ReserveInput, now: Time) {
    && NamesReservation(r, receipt, input.key) && AsRequested(r.reservations[receipt.reservation.value], input)
    && receipt.transaction.Some? && receipt.transaction.value < |r.ledger|
    && IsReserveEntry(r.ledger[receipt.transaction.value], receipt.reservation.value, input, now)
  }

  lemma HoldNames(s: State, input: ReserveInput, plan: seq<Allocation>, now: Time)
    requires PostHold(s, input, plan, now).Success?
    ensures var r := PostHold(s, input, plan, now).value;
            |r.ledger| == |s.ledger| + 1
            && NewlyReserved(r, Receipt(input.user, Some(|s.ledger|), Some(|s.reservations|)), input, now)
  {
  }

  lemma {:induction false} ExpireKeepsReservations(s: State, rows: seq<Bucket>, now: Time)
    requires ExpireAll(s, rows, now).Success?
    ensures ExpireAll(s, rows, now).value.reservations == s.reservations
    decreases |rows|
  {
    if rows != [] {
      ExpireKeepsReservations(PostExpire(s, rows[0].id, now).value, rows[1..], now);
    }
  }

  lemma FreshNames(s: State, input: ReserveInput, now: Time)
    requires ReserveFresh(s, input, now).Success?
    ensures var r := ReserveFresh(s, input, now).value;
            NewlyReserved(r, Receipt(input.user, Some(|r.ledger| - 1), Some(|s.reservations|)), input, now)
  {
    var start := Open(s, input.user);
    ExpireKeepsReservations(start, Listing(start.buckets, DueIds(start.buckets, Some(input.user), now)), now);
    var swept := LateRelease.FreshIsHold(s, input, now);
    HoldNames(swept, input, Plan(swept, input.user, input.amount, now), now);
  }

  // Whoever is told a reservation is told the one made under the request's key; if it
  // was made just now it is pending and just as requested.
  lemma ReserveNames(s: State, input: ReserveInput, now: Time)
    requires Reserve(s, input, now).Success?
    ensures var (r, receipt) := Reserve(s, input, now).value;
            && NamesReservation(r, receipt, input.key)
            && (FindReservation(s.reservations, input.key).None? ==> NewlyReserved(r, receipt, input, now))
            && (FindReservation(s.reservations, input.key).Some? ==> r == s && receipt.transaction.None?)
  {
    if FindReservation(s.reservations, input.key).None? {
      FreshNames(s, input, now);
    }
  }

  lemma ReservationStays(s: State, ops: seq<Operation>, id: ReservationId)
    requires id < |s.reservations|
    ensures var r := Run(s, ops); id < |r.reservations| && r.reservations[id].key == s.reservations[id].key
                                  && r.reservations[id].owner == s.reservations[id].owner
  {
    LateRelease.RunMarks(s, ops);
  }

  lemma {:induction false} RunKeepsUsers(s: State, ops: seq<Operation>)
    ensures Run(s, ops).users == s.users
    decreases |ops|
  {
    if ops != [] {
      ExecuteKeepsUsers(s, ops[0]);
      RunKeepsUsers(Execute(s, ops[0]), ops[1..]);
    }
  }

  lemma {:induction false} RowsKeepUsers(s: State, rows: seq<Row>, now: Time)
    requires PostAll(s, rows, now).Success?
    ensures PostAll(s, rows, now).value.users == s.users
    decreases |rows|
  {
    if rows != [] {
      RowsKeepUsers(Post(s, rows[0], now).value, rows[1..], now);
    }
  }

  lemma ExecuteKeepsUsers(s: State, op: Operation)
    ensures Execute(s, op).users == s.users
  {
    var rows := OperationIsRows(s, op, false);
    RowsKeepUsers(s, rows, op.now);
  }

  // Main result: asked again under the same key, after any run and by whomever, the
  // wallet answers with the same reservation and its owner, and does nothing.
  lemma ReservedAgain(s: State, input: ReserveInput, now: Time, between: seq<Operation>, again: ReserveInput, later: Time)
    requires KeysSound(s) && Reserve(s, input, now).Success? && again.key == input.key
    requires again.user != "" && again.user in s.users && again.amount > 0 && (again.expiresAt.Some? ==> later < again.expiresAt.value)
    ensures var (r, receipt) := Reserve(s, input, now).value;
            var m := Run(r, between);
            Reserve(m, again, later) == Success((m, Receipt(receipt.user, None, receipt.reservation)))
  {
    var (r, receipt) := Reserve(s, input, now).value;
    var m, id := Run(r, between), receipt.reservation.value;
    ReserveNames(s, input, now);
    assert r == Execute(s, DoReserve(input, now));
    ExecuteKeepsKeys(s, DoReserve(input, now));
    ExecuteKeepsUsers(s, DoReserve(input, now));
    RunGrows(r, between);
    RunKeepsUsers(r, between);
    ReservationStays(r, between, id);
    ReservationFound(m.reservations, id);
  }

  // ---------------------------------------------------------------- grants

  ghost predicate NamesEntry(r: State, receipt: Receipt, key: LedgerKey) {
    && receipt.transaction.Some? && receipt.transaction.value < |r.ledger|
    && r.ledger[receipt.transaction.value].key == key
    && r.ledger[receipt.transaction.value].user == receipt.user
  }

  // The kind of bucket a grant gets: the one asked for, else by who grants and
  // whether there is a period.
  predicate KindFor(kind: BucketType, input: GrantInput) {
    match input.requestedKind
    case Some(asked) => kind == asked
    case None =>
      && (kind == Admin <==> !input.fromFulfillment)
      && (kind == Topup <==> input.fromFulfillment && input.expiresAt.None? && input.periodEnd.None?)
      && kind in {Admin, Topup, SubscriptionPeriod}
  }

  // Topups never expire, a subscription's credits at the latest with its period.
  predicate ExpiryFor(k: Bucket, input: GrantInput) {
    && (k.kind == Topup ==> k.expiresAt.None?)
    && (k.kind != Topup && input.expiresAt.Some? ==> k.expiresAt == input.expiresAt)
    && (k.kind == SubscriptionPeriod && input.expiresAt.None? ==> k.expiresAt == input.periodEnd)
    && (k.kind == Admin || k.kind == Legacy ==> k.expiresAt == input.expiresAt)
  }

  predicate IsGrantEntry(t: Transaction, input: GrantInput, id: BucketId, now: Time) {
    t.kind == GrantEntry && t.user == input.user && t.amount == input.amount && t.bucket == Some(id) && t.createdAt == now
  }

  predicate IsGrantBucket(k: Bucket, input: GrantInput, id: BucketId, now: Time) {
    && k.id == id && k.owner == input.user && k.granted == k.remaining == input.amount && k.reserved == 0 && k.status == Active
    && k.createdAt == now && KindFor(k.kind, input) && ExpiryFor(k, input)
  }

  // The credits are on the user's balance and in one new bucket, and on the ledger.
  ghost predicate NewlyGranted(s: State, r: State, receipt: Receipt, input: GrantInput, id: BucketId, now: Time) {
    && NamesEntry(r, receipt, CallerKey(input.key)) && IsGrantEntry(r.ledger[receipt.transaction.value], input, id, now)
    && id !in s.buckets && id in r.buckets && r.buckets == s.buckets[id := r.buckets[id]] && IsGrantBucket(r.buckets[id], input, id, now)
    && input.user in r.accounts
    && r.accounts[input.user].balance == input.amount + if input.user in s.accounts then s.accounts[input.user].balance else 0
  }

  lemma GrantNames(s: State, input: GrantInput, id: BucketId, now: Time)
    requires GrantCredits(s, input, id, now).Success?
    ensures var (r, receipt) := GrantCredits(s, input, id, now).value;
            && NamesEntry(r, receipt, CallerKey(input.key)) && receipt.reservation.None?
            && (FindKey(s.ledger, CallerKey(input.key)).None? ==> NewlyGranted(s, r, receipt, input, id, now))
            && (FindKey(s.ledger, CallerKey(input.key)).Some? ==> r == s)
  {
  }

  // When an administrator's grant goes through, and how it is refused otherwise.
  lemma GrantDecided(s: State, input: GrantInput, id: BucketId, now: Time)
    ensures var fit := input.user != "" && input.user in s.users && input.amount > 0 && input.key != "";
            && (Grant(s, input, id, now).Success? <==> fit && (id !in s.buckets || FindKey(s.ledger, CallerKey(input.key)).Some?))
            && (fit ==> Grant(s, input, id, now) == GrantCredits(s, input, id, now))
            && (fit && Grant(s, input, id, now).Failure? ==> Grant(s, input, id, now).error == DuplicateKey)
            && (input.user == "" ==> Grant(s, input, id, now) == Failure(UserNotFound))
            && (input.user != "" && input.amount <= 0 ==> Grant(s, input, id, now) == Failure(InvalidCreditAmount))
            && (input.user != "" && input.amount > 0 && input.key == "" ==> Grant(s, input, id, now) == Failure(IdempotencyRequired))
            && (input.user != "" && input.amount > 0 && input.key != "" && input.user !in s.users ==>
                  Grant(s, input, id, now) == Failure(UserNotFound))
  {
  }

  lemma EntryStays(s: State, ops: seq<Operation>, t: TransactionId)
    requires KeysSound(s) && t < |s.ledger|
    ensures var r := Run(s, ops);
            KeysSound(r) && t < |r.ledger| && r.ledger[t] == s.ledger[t] && FindKey(r.ledger, s.ledger[t].key) == Some(t)
  {
    RunGrows(s, ops);
    var r := Run(s, ops);
    assert r.ledger[..|s.ledger|][t] == s.ledger[t];
    KeyFound(r.ledger, t);
  }

  lemma GrantedAgain(s: State, input: GrantInput, id: BucketId, now: Time, between: seq<Operation>, again: GrantInput, other: BucketId, later: Time)
    requires KeysSound(s) && GrantCredits(s, input, id, now).Success? && input.amount > 0 && again.key == input.key
    ensures var (r, receipt) := GrantCredits(s, input, id, now).value;
            var m := Run(r, between);
            GrantCredits(m, again, other, later) == Success((m, receipt))
  {
    var (r, receipt) := GrantCredits(s, input, id, now).value;
    GrantNames(s, input, id, now);
    assert r == Execute(s, DoFulfill(input, id, now));
    ExecuteKeepsKeys(s, DoFulfill(input, id, now));
    EntryStays(r, between, receipt.transaction.value);
  }

  // ---------------------------------------------------------------- finalizing

  // A reservation's entries carry its owner.
  ghost predicate EntriesOwned(s: State) {
    forall i :: 0 <= i < |s.ledger| && s.ledger[i].reservation.Some? ==>
      s.ledger[i].reservation.value < |s.reservations| && s.reservations[s.ledger[i].reservation.value].owner == s.ledger[i].user
  }

  lemma RowKeepsOwned(s: State, row: Row, now: Time)
    requires EntriesOwned(s) && Post(s, row, now).Success?
    ensures EntriesOwned(Post(s, row, now).value)
  {
    LateRelease.RowMarks(s, row, now);
    var r := Post(s, row, now).value;
    if !row.OpenRow? {
      assert r.ledger[..|s.ledger|] == s.ledger;
    }
  }

  lemma {:induction false} RowsKeepOwned(s: State, rows: seq<Row>, now: Time, r: State)
    requires EntriesOwned(s) && Posted(s, rows, now, r, false)
    ensures EntriesOwned(r)
    decreases |rows|
  {
    if rows != [] {
      RowKeepsOwned(s, rows[0], now);
      RowsKeepOwned(Post(s, rows[0], now).value, rows[1..], now, r);
    }
  }

  lemma {:induction false} RunKeepsOwned(s: State, ops: seq<Operation>)
    requires EntriesOwned(s)
    ensures EntriesOwned(Run(s, ops))
    decreases |ops|
  {
    if ops != [] {
      var rows := OperationIsRows(s, ops[0], false);
      RowsKeepOwned(s, rows, ops[0].now, Execute(s, ops[0]));
      RunKeepsOwned(Execute(s, ops[0]), ops[1..]);
    }
  }

  function KindOf(finality: Finality): TransactionKind {
    if finality.Commit? then CommitEntry else ReleaseEntry
  }

  function StatusOf(finality: Finality): ReservationStatus {
    if finality.Commit? then Committed else Released
  }

  // The reservation asked for, closed as asked, and its entry on the ledger.
  ghost predicate NewlyFinalized(s: State, r: State, receipt: Receipt, id: ReservationId, finality: Finality, now: Time) {
    && receipt.reservation == Some(id) && id < |s.reservations| && s.reservations[id].status == Pending
    && r.reservations == s.reservations[id := s.reservations[id].(status := StatusOf(finality), finalizedAt := now)]
    && receipt.transaction == Some(|s.ledger|) && |r.ledger| == |s.ledger| + 1
    && r.ledger[|s.ledger|].kind == KindOf(finality) && r.ledger[|s.ledger|].createdAt == now
    && (finality.Commit? ==> r.ledger[|s.ledger|].amount == 0)
  }

  ghost predicate NamesFinalized(r: State, receipt: Receipt, key: string) {
    && NamesEntry(r, receipt, CallerKey(key)) && receipt.reservation == r.ledger[receipt.transaction.value].reservation
    && receipt.reservation.Some? && receipt.reservation.value < |r.reservations|
    && r.reservations[receipt.reservation.value].owner == receipt.user
  }

  lemma FinalizeNames(s: State, id: ReservationId, finality: Finality, key: string, now: Time)
    requires EntriesOwned(s) && Finalize(s, id, finality, key, now).Success?
    ensures var (r, receipt) := Finalize(s, id, finality, key, now).value;
            && NamesFinalized(r, receipt, key)
            && (FindKey(s.ledger, CallerKey(key)).None? ==> NewlyFinalized(s, r, receipt, id, finality, now))
            && (FindKey(s.ledger, CallerKey(key)).Some? ==> r == s)
  {
  }

  lemma FinalizedAgain(s: State, id: ReservationId, finality: Finality, key: string, now: Time,
                       between: seq<Operation>, other: ReservationId, again: Finality, later: Time)
    requires KeysSound(s) && EntriesOwned(s) && Finalize(s, id, finality, key, now).Success?
    ensures var (r, receipt) := Finalize(s, id, finality, key, now).value;
            var m := Run(r, between);
            Finalize(m, other, again, key, later) == Success((m, receipt))
  {
    var (r, receipt) := Finalize(s, id, finality, key, now).value;
    FinalizeNames(s, id, finality, key, now);
    assert r == Execute(s, DoFinalize(id, finality, key, now));
    ExecuteKeepsKeys(s, DoFinalize(id, finality, key, now));
    EntryStays(r, between, receipt.transaction.value);
    ReservationStays(r, between, receipt.reservation.value);
  }

  // ---------------------------------------------------------------- refusals

  // What an unfit request is told, whatever the wallet holds.
  lemma ReserveRefused(s: State, input: ReserveInput, now: Time)
    ensures input.user == "" ==> Reserve(s, input, now) == Failure(UserNotFound)
    ensures input.user != "" && input.amount <= 0 ==> Reserve(s, input, now) == Failure(InvalidCreditAmount)
    ensures input.user != "" && input.amount > 0 && input.key == "" ==> Reserve(s, input, now) == Failure(IdempotencyRequired)
    ensures input.user != "" && input.amount > 0 && input.key != "" && input.expiresAt.Some? && input.expiresAt.value <= now ==>
              Reserve(s, input, now) == Failure(ReservationExpired)
    ensures (&& input.user != "" && input.amount > 0 && input.key != "" && (input.expiresAt.Some? ==> now < input.expiresAt.value)
             && input.user !in s.users) ==> Reserve(s, input, now) == Failure(UserNotFound)
  {
  }

  // Why a finalization is refused, in every state the wallet reaches.
  lemma FinalizeRefused(s: State, id: ReservationId, finality: Finality, key: string, now: Time)
    requires Balanced(s)
    ensures key == "" ==> Finalize(s, id, finality, key, now) == Failure(IdempotencyRequired)
    ensures key != "" && FindKey(s.ledger, CallerKey(key)).None? ==>
              && (id >= |s.reservations| ==> Finalize(s, id, finality, key, now) == Failure(ReservationNotFound))
              && (id < |s.reservations| && s.reservations[id].status != Pending ==>
                    Finalize(s, id, finality, key, now) == Failure(ReservationNotPending))
              && (id < |s.reservations| && s.reservations[id].status == Pending && Finalize(s, id, finality, key, now).Failure? ==>
                    Finalize(s, id, finality, key, now) == Failure(ReservationExpired))
    ensures key != "" && FindKey(s.ledger, CallerKey(key)).Some? && Finalize(s, id, finality, key, now).Failure? ==>
              Finalize(s, id, finality, key, now) == Failure(RecordNotFound)
  {
    if key != "" && FindKey(s.ledger, CallerKey(key)).None? {
      FinalizeDecided(s, id, finality, key, now);
    }
  }

  // The entry of a grant taken back: of the order's own user, from the grant's bucket,
  // for no more than was granted.
  predicate IsTakenEntry(t: Transaction, original: Transaction, order: Order, rule: string, amount: int, now: Time) {
    && t.key == ClawbackKey(order.outTradeNo, rule) && t.kind == ClawbackEntry && t.user == order.user == original.user
    && t.bucket == original.bucket && t.amount == -amount && amount <= original.amount && t.reservation.None? && t.createdAt == now
  }

  // What becomes of one grant in a refund: taken back before, nothing to take back,
  // somebody else's, or taken back now.
  lemma TakeBackDecided(s: State, order: Order, e: Execution, now: Time)
    requires e.resultRef.Some? && order.user in s.accounts
    ensures var one, key, ref := ClawbackOne(s, order, e, now), ClawbackKey(order.outTradeNo, e.rule), e.resultRef.value;
            && (forall i :: 0 <= i < |s.ledger| && FindKey(s.ledger, key) == Some(i) ==> one == Success((s, -s.ledger[i].amount)))
            && (FindKey(s.ledger, key).None? ==>
                  if ref >= |s.ledger| || s.ledger[ref].amount <= 0 then one == Success((s, 0))
                  else if s.ledger[ref].user != order.user then one == Failure(InvalidAdjustment)
                  else
                    && one.Success? && |one.value.0.ledger| == |s.ledger| + 1 && one.value.0.ledger[..|s.ledger|] == s.ledger
                    && IsTakenEntry(one.value.0.ledger[|s.ledger|], s.ledger[ref], order, e.rule, one.value.1, now))
    ensures ClawbackOne(s, order, e.(resultRef := None), now) == Success((s, 0))
  {
  }

  // ---------------------------------------------------------------- over runs

  // Main result, from the empty wallet: after any run a finalization answers with the
  // entry and the reservation made under its key, and so does every later one.
  lemma EveryFinalizeNames(users: set<UserId>, ops: seq<Operation>, id: ReservationId, finality: Finality, key: string, now: Time,
                           between: seq<Operation>, other: ReservationId, again: Finality, later: Time)
    requires Finalize(Run(Empty(users), ops), id, finality, key, now).Success?
    ensures var s := Run(Empty(users), ops);
            var (r, receipt) := Finalize(s, id, finality, key, now).value;
            && NamesFinalized(r, receipt, key)
            && (FindKey(s.ledger, CallerKey(key)).None? ==> NewlyFinalized(s, r, receipt, id, finality, now))
            && Finalize(Run(r, between), other, again, key, later) == Success((Run(r, between), receipt))
  {
    var s := Run(Empty(users), ops);
    RunGrows(Empty(users), ops);
    RunKeepsOwned(Empty(users), ops);
    FinalizeNames(s, id, finality, key, now);
    FinalizedAgain(s, id, finality, key, now, between, other, again, later);
  }
}
