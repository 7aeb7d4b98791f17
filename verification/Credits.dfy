/** Records of the credit wallet, as the service stores them. */
module Credits {
  import opened Wrappers

  type UserId = string
  // The 96-bit number behind a generated "crb_" id: fixed width hex, so
  // comparing the strings is comparing the numbers.
  type BucketId = nat
  // Reservations and ledger rows are only ever referred to, never ordered.
  type ReservationId = nat
  type TransactionId = nat
  type Time = int

  datatype Error =
    | UserNotFound
    | InvalidCreditAmount
    | IdempotencyRequired
    | InsufficientCredits
    | ReservationNotFound
    | ReservationNotPending
    | ReservationExpired
    | RecordNotFound
    | DuplicateKey
    | InvalidAdjustment

  datatype Account = Account(balance: int, reserved: int)

  datatype BucketStatus = Active | Expired | Depleted

  datatype BucketType = Admin | Legacy | Topup | SubscriptionPeriod

  datatype Bucket = Bucket(
    id: BucketId,
    owner: UserId,
    kind: BucketType,
    expiresAt: Option<Time>,
    granted: int,
    remaining: int,
    reserved: int,
    status: BucketStatus,
    createdAt: Time)

  datatype Allocation = Allocation(bucket: BucketId, amount: int)

  datatype ReservationStatus = Pending | Committed | Released

  datatype Reservation = Reservation(
    owner: UserId,
    amount: int,
    status: ReservationStatus,
    key: string,
    allocations: seq<Allocation>,
    expiresAt: Option<Time>,
    finalizedAt: Time)

  // One namespace of unique ledger keys: callers' own keys and the three
  // prefixed families the service derives.
  datatype LedgerKey =
    | CallerKey(key: string)
    | ReserveKey(key: string)
    | ExpireKey(bucket: BucketId, at: Option<Time>)
    | ClawbackKey(order: string, rule: string)

  datatype TransactionKind = GrantEntry | ReserveEntry | CommitEntry | ReleaseEntry | ExpireEntry | ClawbackEntry

  datatype Transaction = Transaction(
    user: UserId,
    kind: TransactionKind,
    amount: int,
    balanceAfter: int,
    reservedAfter: int,
    key: LedgerKey,
    bucket: Option<BucketId>,
    reservation: Option<ReservationId>,
    createdAt: Time)

  function Min(a: int, b: int): int {
    if a < b then a else b
  }

  predicate PastExpiry(b: Bucket, now: Time) {
    b.expiresAt.Some? && b.expiresAt.value <= now
  }

  // creditBucketAvailableAt
  predicate Available(b: Bucket, now: Time) {
    b.status == Active && b.remaining > 0 && !PastExpiry(b, now)
  }

  // The filter of the expiry sweep: active, positive, at or past expiry.
  predicate Due(b: Bucket, now: Time) {
    b.status == Active && b.remaining > 0 && PastExpiry(b, now)
  }

  // Drops allocations of nothing, as encoding and decoding both do.
  function Compact(allocations: seq<Allocation>): seq<Allocation> {
    if allocations == [] then []
    else if allocations[0].amount <= 0 then Compact(allocations[1..])
    else [allocations[0]] + Compact(allocations[1..])
  }

  function AllocatedTo(allocations: seq<Allocation>, bucket: BucketId): int {
    if allocations == [] then 0
    else (if allocations[0].bucket == bucket then allocations[0].amount else 0) + AllocatedTo(allocations[1..], bucket)
  }

  function TotalAllocated(allocations: seq<Allocation>): int {
    if allocations == [] then 0 else allocations[0].amount + TotalAllocated(allocations[1..])
  }

  predicate AllPositive(allocations: seq<Allocation>) {
    forall i :: 0 <= i < |allocations| ==> allocations[i].amount > 0
  }

  lemma {:induction false} CompactKeepsPositive(allocations: seq<Allocation>)
    ensures AllPositive(Compact(allocations))
    ensures AllPositive(allocations) ==> Compact(allocations) == allocations
  {
    if allocations != [] {
      CompactKeepsPositive(allocations[1..]);
    }
  }

  lemma {:induction false} AllocatedNonNegative(allocations: seq<Allocation>, bucket: BucketId)
    requires AllPositive(allocations)
    ensures 0 <= AllocatedTo(allocations, bucket) <= TotalAllocated(allocations)
  {
    if allocations != [] {
      AllocatedNonNegative(allocations[1..], bucket);
    }
  }

  // The only allocation's bucket, when there is exactly one.
  function SingleBucket(allocations: seq<Allocation>): Option<BucketId> {
    if |Compact(allocations)| == 1 then Some(Compact(allocations)[0].bucket) else None
  }
}
