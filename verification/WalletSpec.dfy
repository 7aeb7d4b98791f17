/** What each wallet operation does to the stored records, as functions of the
    state. Every operation comes down to a sequence of rows, each of which moves
    one account and writes at most one ledger entry; an operation that fails
    leaves nothing behind, because the unit of work is rolled back. */
module WalletSpec {
  import opened Wrappers
  import opened Credits
  import opened BucketOrder
  import opened Allocations

  datatype State = State(
    users: set<UserId>,
    accounts: map<UserId, Account>,
    buckets: map<BucketId, Bucket>,
    reservations: seq<Reservation>,
    ledger: seq<Transaction>)

  type Outcome<+T> = Result<T, Error>

  datatype GrantInput = GrantInput(
    user: UserId,
    amount: int,
    key: string,
    requestedKind: Option<BucketType>,
    fromFulfillment: bool,
    periodEnd: Option<Time>,
    expiresAt: Option<Time>)

  datatype ReserveInput = ReserveInput(user: UserId, amount: int, key: string, expiresAt: Option<Time>)

  datatype Receipt = Receipt(user: UserId, transaction: Option<TransactionId>, reservation: Option<ReservationId>)

  datatype Finality = Commit | Release

  datatype Order = Order(outTradeNo: string, user: UserId)

  // One applied fulfillment execution of a refunded order.
  datatype Execution = Execution(credits: bool, rule: string, resultRef: Option<TransactionId>)

  datatype Row =
    | OpenRow(user: UserId)
    | GrantRow(user: UserId, amount: int, key: string, granted: Bucket)
    | ExpireRow(id: BucketId)
    | HoldRow(input: ReserveInput, allocations: seq<Allocation>)
    | SettleRow(reservation: ReservationId, finality: Finality, key: string)
    | ClawbackRow(order: Order, rule: string, original: TransactionId)

  // ---------------------------------------------------------------- lookups

  function FindKey(ledger: seq<Transaction>, key: LedgerKey): (r: Option<TransactionId>)
    ensures r.Some? ==> r.value < |ledger| && ledger[r.value].key == key
    ensures r.None? ==> forall i :: 0 <= i < |ledger| ==> ledger[i].key != key
  {
    if ledger == [] then None
    else if ledger[|ledger| - 1].key == key then Some(|ledger| - 1)
    else FindKey(ledger[..|ledger| - 1], key)
  }

  function FindReservation(reservations: seq<Reservation>, key: string): (r: Option<ReservationId>)
    ensures r.Some? ==> r.value < |reservations| && reservations[r.value].key == key
    ensures r.None? ==> forall i :: 0 <= i < |reservations| ==> reservations[i].key != key
  {
    if reservations == [] then None
    else if reservations[|reservations| - 1].key == key then Some(|reservations| - 1)
    else FindReservation(reservations[..|reservations| - 1], key)
  }

  // The rows of some bucket ids in whatever order the store finds them ...
  ghost function Enumerate(buckets: map<BucketId, Bucket>, ids: set<BucketId>): seq<Bucket>
    requires ids <= buckets.Keys
  {
    if ids == {} then []
    else
      var b :| b in ids;
      [buckets[b]] + Enumerate(buckets, ids - {b})
  }

  // ... and as the query returns them.
  ghost function Listing(buckets: map<BucketId, Bucket>, ids: set<BucketId>): seq<Bucket>
    requires ids <= buckets.Keys
  {
    Sort(Enumerate(buckets, ids))
  }

  function DueIds(buckets: map<BucketId, Bucket>, scope: Option<UserId>, now: Time): set<BucketId> {
    set b | b in buckets && Due(buckets[b], now) && (scope.None? || buckets[b].owner == scope.value)
  }

  function AvailableIds(buckets: map<BucketId, Bucket>, user: UserId, now: Time): set<BucketId> {
    set b | b in buckets && Available(buckets[b], now) && buckets[b].owner == user
  }

  function Limited<T>(rows: seq<T>, limit: int): seq<T> {
    if 0 < limit < |rows| then rows[..limit] else rows
  }

  // ---------------------------------------------------------------- rows

  // newCreditTransaction: the entry carries the account as it now stands.
  function Record(s: State, user: UserId, kind: TransactionKind, amount: int, key: LedgerKey,
                  bucket: Option<BucketId>, reservation: Option<ReservationId>, now: Time): (r: Outcome<State>)
    requires user in s.accounts
    ensures r.Success? ==> |r.value.ledger| == |s.ledger| + 1 && r.value.ledger[..|s.ledger|] == s.ledger
  {
    if FindKey(s.ledger, key).Some? then Failure(DuplicateKey)
    else
      var a := s.accounts[user];
      Success(s.(ledger := s.ledger + [Transaction(user, kind, amount, a.balance, a.reserved, key, bucket, reservation, now)]))
  }

  function SetAccount(s: State, user: UserId, balance: int, reserved: int): State {
    s.(accounts := s.accounts[user := Account(balance, reserved)])
  }

  function Open(s: State, user: UserId): State {
    if user in s.accounts then s else SetAccount(s, user, 0, 0)
  }

  function PostGrant(s: State, user: UserId, amount: int, key: string, bucket: Bucket, now: Time): Outcome<State> {
    if user !in s.accounts then Failure(RecordNotFound)
    else
      var a := s.accounts[user];
      var s1 := SetAccount(s, user, a.balance + amount, a.reserved);
      var s2 :- Record(s1, user, GrantEntry, amount, CallerKey(key), Some(bucket.id), None, now);
      if bucket.id in s2.buckets then Failure(DuplicateKey)
      else Success(s2.(buckets := s2.buckets[bucket.id := bucket]))
  }

  function ExpiredAmount(a: Account, b: Bucket): int {
    var capped := if a.balance < b.remaining then a.balance else b.remaining;
    if capped < 0 then 0 else capped
  }

  // expireCreditBucket against freshly read records.
  function PostExpire(s: State, bucket: BucketId, now: Time): Outcome<State> {
    if bucket !in s.buckets || s.buckets[bucket].owner !in s.accounts then Failure(RecordNotFound)
    else
      var b := s.buckets[bucket];
      var a := s.accounts[b.owner];
      var expired := ExpiredAmount(a, b);
      var s1 := if expired > 0 then SetAccount(s, b.owner, a.balance - expired, a.reserved) else s;
      var s2 := s1.(buckets := s1.buckets[bucket := b.(remaining := 0, status := Expired)]);
      Record(s2, b.owner, ExpireEntry, -expired, ExpireKey(bucket, b.expiresAt), Some(bucket), None, now)
  }

  function Hold(b: Bucket, amount: int): Bucket {
    var held := b.(remaining := b.remaining - amount, reserved := b.reserved + amount);
    if held.remaining == 0 && held.reserved == 0 then held.(status := Depleted) else held
  }

  function HoldAll(buckets: map<BucketId, Bucket>, allocations: seq<Allocation>): Outcome<map<BucketId, Bucket>> {
    if allocations == [] then Success(buckets)
    else
      var a := allocations[0];
      if a.bucket !in buckets then Failure(RecordNotFound)
      else if buckets[a.bucket].remaining < a.amount then Failure(InsufficientCredits)
      else HoldAll(buckets[a.bucket := Hold(buckets[a.bucket], a.amount)], allocations[1..])
  }

  function PostHold(s: State, input: ReserveInput, allocations: seq<Allocation>, now: Time): Outcome<State> {
    var shares := Compact(allocations);
    var buckets :- HoldAll(s.buckets, shares);
    if input.user !in s.accounts then Failure(RecordNotFound)
    else if s.accounts[input.user].balance < input.amount then Failure(InsufficientCredits)
    else if FindReservation(s.reservations, input.key).Some? then Failure(DuplicateKey)
    else
      var a := s.accounts[input.user];
      var s1 := SetAccount(s.(buckets := buckets), input.user, a.balance - input.amount, a.reserved + input.amount);
      var reservation := Reservation(input.user, input.amount, Pending, input.key, shares, input.expiresAt, now);
      var s2 := s1.(reservations := s1.reservations + [reservation]);
      Record(s2, input.user, ReserveEntry, -input.amount, ReserveKey(input.key), SingleBucket(shares), Some(|s.reservations|), now)
  }

  predicate Restores(b: Bucket, finality: Finality, now: Time) {
    finality.Release? && !PastExpiry(b, now)
  }

  // One bucket's share of finalizing a reservation.
  function Settle(b: Bucket, amount: int, finality: Finality, now: Time): Bucket {
    var freed := b.(reserved := b.reserved - amount);
    var settled := if Restores(b, finality, now) then freed.(remaining := freed.remaining + amount, status := Active) else freed;
    if settled.remaining == 0 && settled.reserved == 0 then
      settled.(status := if PastExpiry(b, now) then Expired else Depleted)
    else settled
  }

  // The buckets afterwards, and how much went back to them.
  function SettleAll(buckets: map<BucketId, Bucket>, allocations: seq<Allocation>, finality: Finality, now: Time)
    : Outcome<(map<BucketId, Bucket>, int)>
  {
    if allocations == [] then Success((buckets, 0))
    else
      var a := allocations[0];
      if a.bucket !in buckets then Failure(RecordNotFound)
      else if buckets[a.bucket].reserved < a.amount then Failure(ReservationNotPending)
      else
        var b := buckets[a.bucket];
        var rest :- SettleAll(buckets[a.bucket := Settle(b, a.amount, finality, now)], allocations[1..], finality, now);
        Success((rest.0, rest.1 + if Restores(b, finality, now) then a.amount else 0))
  }

  function RestoredAmount(r: Reservation, shares: seq<Allocation>, bucketRestored: int, finality: Finality): int {
    if shares == [] || finality.Commit? then r.amount
    else
      var restored := r.amount - TotalAllocated(shares) + bucketRestored;
      if restored < 0 then 0 else restored
  }

  function PostSettle(s: State, id: ReservationId, finality: Finality, key: string, now: Time): Outcome<State> {
    if id >= |s.reservations| then Failure(ReservationNotFound)
    else
      var r := s.reservations[id];
      if r.status != Pending then Failure(ReservationNotPending)
      else if finality.Commit? && r.expiresAt.Some? && r.expiresAt.value <= now then Failure(ReservationExpired)
      else if r.owner !in s.accounts then Failure(RecordNotFound)
      else if s.accounts[r.owner].reserved < r.amount then Failure(ReservationNotPending)
      else
        var shares := Compact(r.allocations);
        var settled :- SettleAll(s.buckets, shares, finality, now);
        var restored := RestoredAmount(r, shares, settled.1, finality);
        var a := s.accounts[r.owner];
        var s1 := SetAccount(s.(buckets := settled.0), r.owner,
                             if finality.Release? then a.balance + restored else a.balance, a.reserved - r.amount);
        var closed := r.(status := if finality.Commit? then Committed else Released, finalizedAt := now);
        var s2 := s1.(reservations := s1.reservations[id := closed]);
        Record(s2, r.owner, if finality.Commit? then CommitEntry else ReleaseEntry,
               if finality.Release? then restored else 0, CallerKey(key), SingleBucket(shares), Some(id), now)
  }

  // How much of a granted amount a refund can still take back. A grant row whose
  // bucket is gone gives nothing; one that never had a bucket is backed by the
  // balance alone.
  function Recoverable(buckets: map<BucketId, Bucket>, original: Transaction, balance: int): int {
    var capped := Min(original.amount, balance);
    if original.bucket.None? then capped
    else if original.bucket.value !in buckets then 0
    else Min(capped, buckets[original.bucket.value].remaining)
  }

  function TakeBack(b: Bucket, amount: int): Bucket {
    var taken := b.(remaining := b.remaining - amount);
    if taken.remaining == 0 && taken.reserved == 0 then taken.(status := Depleted) else taken
  }

  function PostClawback(s: State, order: Order, rule: string, id: TransactionId, now: Time): Outcome<State> {
    if id >= |s.ledger| || s.ledger[id].amount <= 0 then Failure(RecordNotFound)
    else
      var original := s.ledger[id];
      if original.user != order.user then Failure(InvalidAdjustment)
      else if original.user !in s.accounts then Failure(RecordNotFound)
      else
        var a := s.accounts[original.user];
        var taken := Recoverable(s.buckets, original, a.balance);
        var s1 := if taken > 0 then SetAccount(s, original.user, a.balance - taken, a.reserved) else s;
        var s2 := if taken > 0 && original.bucket.Some? && original.bucket.value in s.buckets
                  then s1.(buckets := s1.buckets[original.bucket.value := TakeBack(s1.buckets[original.bucket.value], taken)])
                  else s1;
        Record(s2, original.user, ClawbackEntry, -taken, ClawbackKey(order.outTradeNo, rule), original.bucket, None, now)
  }

  function Post(s: State, row: Row, now: Time): Outcome<State> {
    match row
    case OpenRow(user) => Success(Open(s, user))
    case GrantRow(user, amount, key, bucket) => PostGrant(s, user, amount, key, bucket, now)
    case ExpireRow(bucket) => PostExpire(s, bucket, now)
    case HoldRow(input, allocations) => PostHold(s, input, allocations, now)
    case SettleRow(id, finality, key) => PostSettle(s, id, finality, key, now)
    case ClawbackRow(order, rule, original) => PostClawback(s, order, rule, original, now)
  }

  function PostAll(s: State, rows: seq<Row>, now: Time): Outcome<State>
    decreases |rows|
  {
    if rows == [] then Success(s)
    else
      var s1 :- Post(s, rows[0], now);
      PostAll(s1, rows[1..], now)
  }

  // ---------------------------------------------------------------- operations

  function BucketKind(input: GrantInput): BucketType {
    if input.requestedKind.Some? then input.requestedKind.value
    else if !input.fromFulfillment then Admin
    else if input.expiresAt.Some? || input.periodEnd.Some? then SubscriptionPeriod
    else Topup
  }

  function NewBucket(input: GrantInput, id: BucketId, now: Time): Bucket {
    var kind := BucketKind(input);
    var expiresAt := if kind == Topup then None
                     else if kind == SubscriptionPeriod && input.expiresAt.None? then input.periodEnd
                     else input.expiresAt;
    Bucket(id, input.user, kind, expiresAt, input.amount, input.amount, 0, Active, now)
  }

  // grantCreditsWithRepos, shared by Grant and order fulfillment.
  function GrantCredits(s: State, input: GrantInput, id: BucketId, now: Time): Outcome<(State, Receipt)> {
    var existing := FindKey(s.ledger, CallerKey(input.key));
    if existing.Some? then Success((s, Receipt(s.ledger[existing.value].user, existing, None)))
    else
      var s1 :- PostGrant(Open(s, input.user), input.user, input.amount, input.key, NewBucket(input, id, now), now);
      Success((s1, Receipt(input.user, Some(|s.ledger|), None)))
  }

  // The checks a grant passes before the unit of work begins.
  function GrantRefusal(users: set<UserId>, input: GrantInput): Option<Error> {
    if input.user == "" then Some(UserNotFound)
    else if input.amount <= 0 then Some(InvalidCreditAmount)
    else if input.key == "" then Some(IdempotencyRequired)
    else if input.user !in users then Some(UserNotFound)
    else None
  }

  function Grant(s: State, input: GrantInput, id: BucketId, now: Time): Outcome<(State, Receipt)> {
    match GrantRefusal(s.users, input)
    case Some(error) => Failure(error)
    case None => GrantCredits(s, input, id, now)
  }

  function ExpireAll(s: State, rows: seq<Bucket>, now: Time): Outcome<State>
    decreases |rows|
  {
    if rows == [] then Success(s)
    else
      var s1 :- PostExpire(s, rows[0].id, now);
      ExpireAll(s1, rows[1..], now)
  }

  ghost function SweepUser(s: State, user: UserId, now: Time): Outcome<State> {
    ExpireAll(s, Listing(s.buckets, DueIds(s.buckets, Some(user), now)), now)
  }

  ghost function ExpireBuckets(s: State, limit: int, now: Time): Outcome<State> {
    ExpireAll(s, Limited(Listing(s.buckets, DueIds(s.buckets, None, now)), limit), now)
  }

  ghost function Plan(s: State, user: UserId, amount: int, now: Time): seq<Allocation> {
    AllocateSpec(Listing(s.buckets, AvailableIds(s.buckets, user, now)), amount, now)
  }

  // Inside the unit of work, once the key is known to be new.
  ghost function ReserveFresh(s: State, input: ReserveInput, now: Time): (r: Outcome<State>)
    ensures r.Success? ==> 0 < |r.value.ledger|
  {
    var swept :- SweepUser(Open(s, input.user), input.user, now);
    if input.user !in swept.accounts then Failure(RecordNotFound)
    else if swept.accounts[input.user].balance < input.amount then Failure(InsufficientCredits)
    else PostHold(swept, input, Plan(swept, input.user, input.amount, now), now)
  }

  // The checks a reservation passes before the unit of work begins.
  function ReserveRefusal(users: set<UserId>, input: ReserveInput, now: Time): Option<Error> {
    if input.user == "" then Some(UserNotFound)
    else if input.amount <= 0 then Some(InvalidCreditAmount)
    else if input.key == "" then Some(IdempotencyRequired)
    else if input.expiresAt.Some? && input.expiresAt.value <= now then Some(ReservationExpired)
    else if input.user !in users then Some(UserNotFound)
    else None
  }

  ghost function Reserve(s: State, input: ReserveInput, now: Time): Outcome<(State, Receipt)> {
    match ReserveRefusal(s.users, input, now)
    case Some(error) => Failure(error)
    case None =>
      var existing := FindReservation(s.reservations, input.key);
      if existing.Some? then Success((s, Receipt(s.reservations[existing.value].owner, None, existing)))
      else
        var held :- ReserveFresh(s, input, now);
        Success((held, Receipt(input.user, Some(|held.ledger| - 1), Some(|s.reservations|))))
  }

  function Finalize(s: State, id: ReservationId, finality: Finality, key: string, now: Time): Outcome<(State, Receipt)> {
    if key == "" then Failure(IdempotencyRequired)
    else
      var existing := FindKey(s.ledger, CallerKey(key));
      if existing.Some? then
        var tx := s.ledger[existing.value];
        if tx.reservation.None? || tx.reservation.value >= |s.reservations| then Failure(RecordNotFound)
        else Success((s, Receipt(tx.user, existing, tx.reservation)))
      else
        var s1 :- PostSettle(s, id, finality, key, now);
        Success((s1, Receipt(s.reservations[id].owner, Some(|s.ledger|), Some(id))))
  }

  // clawbackFulfilledCredits: the state afterwards and the amount taken back.
  function ClawbackOne(s: State, order: Order, e: Execution, now: Time): Outcome<(State, int)> {
    if e.resultRef.None? then Success((s, 0))
    else
      var existing := FindKey(s.ledger, ClawbackKey(order.outTradeNo, e.rule));
      if existing.Some? then Success((s, -s.ledger[existing.value].amount))
      else if e.resultRef.value >= |s.ledger| || s.ledger[e.resultRef.value].amount <= 0 then Success((s, 0))
      else
        var s1 :- PostClawback(s, order, e.rule, e.resultRef.value, now);
        Success((s1, -s1.ledger[|s1.ledger| - 1].amount))
  }

  function Clawback(s: State, order: Order, executions: seq<Execution>, now: Time): Outcome<(State, int)>
    decreases |executions|
  {
    if executions == [] then Success((s, 0))
    else if !executions[0].credits then Clawback(s, order, executions[1..], now)
    else
      var first :- ClawbackOne(s, order, executions[0], now);
      var rest :- Clawback(first.0, order, executions[1..], now);
      Success((rest.0, first.1 + rest.1))
  }

  datatype Operation =
    | DoGrant(input: GrantInput, id: BucketId, now: Time)
    | DoFulfill(input: GrantInput, id: BucketId, now: Time)
    | DoReserve(request: ReserveInput, now: Time)
    | DoFinalize(reservation: ReservationId, finality: Finality, key: string, now: Time)
    | DoExpire(limit: int, now: Time)
    | DoClawback(order: Order, executions: seq<Execution>, now: Time)

  ghost function Attempt(s: State, op: Operation): Outcome<State> {
    match op
    case DoGrant(input, id, now) => var r :- Grant(s, input, id, now); Success(r.0)
    case DoFulfill(input, id, now) =>
      if input.amount <= 0 then Failure(InvalidCreditAmount) else var r :- GrantCredits(s, input, id, now); Success(r.0)
    case DoReserve(input, now) => var r :- Reserve(s, input, now); Success(r.0)
    case DoFinalize(id, finality, key, now) => var r :- Finalize(s, id, finality, key, now); Success(r.0)
    case DoExpire(limit, now) => ExpireBuckets(s, limit, now)
    case DoClawback(order, executions, now) => var r :- Clawback(s, order, executions, now); Success(r.0)
  }

  // The unit of work: a failed attempt is rolled back.
  ghost function Execute(s: State, op: Operation): State {
    var r := Attempt(s, op);
    if r.Success? then r.value else s
  }

  ghost function Run(s: State, ops: seq<Operation>): State
    decreases |ops|
  {
    if ops == [] then s else Run(Execute(s, ops[0]), ops[1..])
  }

  function Empty(users: set<UserId>): State {
    State(users, map[], map[], [], [])
  }
}
