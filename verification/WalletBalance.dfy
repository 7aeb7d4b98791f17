/** The four views of the same money - account, buckets, pending reservations and
    ledger - agree after every run. */
module WalletBalance {
  import opened Wrappers
  import opened Totals
  import opened Credits
  import opened WalletSpec

  // ---------------------------------------------------------------- the views

  ghost function Remainders(buckets: map<BucketId, Bucket>, user: UserId): map<BucketId, int> {
    map b | b in buckets && buckets[b].owner == user :: buckets[b].remaining
  }

  ghost function Holdings(buckets: map<BucketId, Bucket>, user: UserId): map<BucketId, int> {
    map b | b in buckets && buckets[b].owner == user :: buckets[b].reserved
  }

  // Where the credits of an allocation are now, judged from the reservation's
  // status and the expiry of the bucket they came from.
  datatype Fate = Waiting | Spent | Returned | Forfeited

  function FateOf(r: Reservation, expiresAt: Option<Time>): Fate {
    match r.status
    case Pending => Waiting
    case Committed => Spent
    case Released => if expiresAt.Some? && expiresAt.value <= r.finalizedAt then Forfeited else Returned
  }

  function Share(r: Reservation, b: BucketId, expiresAt: Option<Time>, fate: Fate): int {
    if FateOf(r, expiresAt) == fate then AllocatedTo(r.allocations, b) else 0
  }

  function Allotted(rs: seq<Reservation>, b: BucketId, expiresAt: Option<Time>, fate: Fate): int {
    if rs == [] then 0
    else Allotted(rs[..|rs| - 1], b, expiresAt, fate) + Share(rs[|rs| - 1], b, expiresAt, fate)
  }

  function PendingShare(r: Reservation, user: UserId): int {
    if r.owner == user && r.status == Pending then r.amount else 0
  }

  function PendingTotal(rs: seq<Reservation>, user: UserId): int {
    if rs == [] then 0 else PendingTotal(rs[..|rs| - 1], user) + PendingShare(rs[|rs| - 1], user)
  }

  function RemovedBy(t: Transaction, b: BucketId, kind: TransactionKind): int {
    if t.kind == kind && t.bucket == Some(b) then -t.amount else 0
  }

  // What ledger entries of one kind have taken out of a bucket.
  function Removed(ledger: seq<Transaction>, b: BucketId, kind: TransactionKind): int {
    if ledger == [] then 0 else Removed(ledger[..|ledger| - 1], b, kind) + RemovedBy(ledger[|ledger| - 1], b, kind)
  }

  // ---------------------------------------------------------------- the invariant

  ghost predicate BucketSound(s: State, b: BucketId)
    requires b in s.buckets
  {
    var k := s.buckets[b];
    && k.id == b && k.owner in s.accounts
    && 0 <= k.remaining && 0 <= k.reserved
    && (k.status != Active ==> k.remaining == 0)
    && k.reserved == Allotted(s.reservations, b, k.expiresAt, Waiting)
  }

  // Every credit ever granted into the bucket is accounted for by stored records.
  ghost predicate Audited(s: State, b: BucketId)
    requires b in s.buckets
  {
    var k := s.buckets[b];
    k.granted == k.remaining + k.reserved
                 + Allotted(s.reservations, b, k.expiresAt, Spent)
                 + Allotted(s.reservations, b, k.expiresAt, Forfeited)
                 + Removed(s.ledger, b, ExpireEntry)
                 + Removed(s.ledger, b, ClawbackEntry)
  }

  ghost predicate AccountSound(s: State, user: UserId)
    requires user in s.accounts
  {
    && s.accounts[user].balance == Total(Remainders(s.buckets, user))
    && s.accounts[user].reserved == Total(Holdings(s.buckets, user))
    && s.accounts[user].reserved == PendingTotal(s.reservations, user)
  }

  ghost predicate ReservationSound(s: State, r: Reservation) {
    && r.amount > 0 && r.owner in s.accounts
    && AllPositive(r.allocations) && TotalAllocated(r.allocations) == r.amount
    && forall a :: a in r.allocations ==> a.bucket in s.buckets && s.buckets[a.bucket].owner == r.owner
  }

  ghost predicate EntrySound(s: State, t: Transaction) {
    t.bucket.Some? ==> t.bucket.value in s.buckets && s.buckets[t.bucket.value].owner == t.user
  }

  ghost predicate BucketsSound(s: State) {
    forall b :: b in s.buckets ==> BucketSound(s, b) && Audited(s, b)
  }

  ghost predicate AccountsSound(s: State) {
    forall u :: u in s.accounts ==> AccountSound(s, u)
  }

  ghost predicate RecordsSound(s: State) {
    && (forall i :: 0 <= i < |s.reservations| ==> ReservationSound(s, s.reservations[i]))
    && (forall i :: 0 <= i < |s.ledger| ==> EntrySound(s, s.ledger[i]))
  }

  ghost predicate Balanced(s: State) {
    BucketsSound(s) && AccountsSound(s) && RecordsSound(s)
  }

  // ---------------------------------------------------------------- how the sums move

  lemma AllottedAppend(rs: seq<Reservation>, r: Reservation, b: BucketId, expiresAt: Option<Time>, fate: Fate)
    ensures Allotted(rs + [r], b, expiresAt, fate) == Allotted(rs, b, expiresAt, fate) + Share(r, b, expiresAt, fate)
  {
    assert (rs + [r])[..|rs|] == rs;
  }

  lemma {:induction false} AllottedUpdate(rs: seq<Reservation>, i: nat, r: Reservation, b: BucketId, expiresAt: Option<Time>, fate: Fate)
    requires i < |rs|
    ensures Allotted(rs[i := r], b, expiresAt, fate)
         == Allotted(rs, b, expiresAt, fate) - Share(rs[i], b, expiresAt, fate) + Share(r, b, expiresAt, fate)
  {
    var last := |rs| - 1;
    if i < last {
      AllottedUpdate(rs[..last], i, r, b, expiresAt, fate);
      assert rs[i := r][..last] == rs[..last][i := r];
    } else {
      assert rs[i := r][..last] == rs[..last];
    }
  }

  lemma PendingAppend(rs: seq<Reservation>, r: Reservation, user: UserId)
    ensures PendingTotal(rs + [r], user) == PendingTotal(rs, user) + PendingShare(r, user)
  {
    assert (rs + [r])[..|rs|] == rs;
  }

  lemma {:induction false} PendingUpdate(rs: seq<Reservation>, i: nat, r: Reservation, user: UserId)
    requires i < |rs|
    ensures PendingTotal(rs[i := r], user) == PendingTotal(rs, user) - PendingShare(rs[i], user) + PendingShare(r, user)
  {
    var last := |rs| - 1;
    if i < last {
      PendingUpdate(rs[..last], i, r, user);
      assert rs[i := r][..last] == rs[..last][i := r];
    } else {
      assert rs[i := r][..last] == rs[..last];
    }
  }

  lemma RemovedAppend(ledger: seq<Transaction>, t: Transaction, b: BucketId, kind: TransactionKind)
    ensures Removed(ledger + [t], b, kind) == Removed(ledger, b, kind) + RemovedBy(t, b, kind)
  {
    assert (ledger + [t])[..|ledger|] == ledger;
  }

  lemma BucketChange(buckets: map<BucketId, Bucket>, b: BucketId, k: Bucket, user: UserId)
    requires b in buckets && k.owner == buckets[b].owner
    ensures Total(Remainders(buckets[b := k], user))
         == Total(Remainders(buckets, user)) + if k.owner == user then k.remaining - buckets[b].remaining else 0
    ensures Total(Holdings(buckets[b := k], user))
         == Total(Holdings(buckets, user)) + if k.owner == user then k.reserved - buckets[b].reserved else 0
  {
    if k.owner == user {
      TotalSet(Remainders(buckets, user), b, k.remaining);
      TotalSet(Holdings(buckets, user), b, k.reserved);
      assert Remainders(buckets[b := k], user) == Remainders(buckets, user)[b := k.remaining];
      assert Holdings(buckets[b := k], user) == Holdings(buckets, user)[b := k.reserved];
    } else {
      assert Remainders(buckets[b := k], user) == Remainders(buckets, user);
      assert Holdings(buckets[b := k], user) == Holdings(buckets, user);
    }
  }

  lemma BucketAdded(buckets: map<BucketId, Bucket>, k: Bucket, user: UserId)
    requires k.id !in buckets
    ensures Total(Remainders(buckets[k.id := k], user)) == Total(Remainders(buckets, user)) + if k.owner == user then k.remaining else 0
    ensures Total(Holdings(buckets[k.id := k], user)) == Total(Holdings(buckets, user)) + if k.owner == user then k.reserved else 0
  {
    if k.owner == user {
      TotalSet(Remainders(buckets, user), k.id, k.remaining);
      TotalSet(Holdings(buckets, user), k.id, k.reserved);
      assert Remainders(buckets[k.id := k], user) == Remainders(buckets, user)[k.id := k.remaining];
      assert Holdings(buckets[k.id := k], user) == Holdings(buckets, user)[k.id := k.reserved];
    } else {
      assert Remainders(buckets[k.id := k], user) == Remainders(buckets, user);
      assert Holdings(buckets[k.id := k], user) == Holdings(buckets, user);
    }
  }
}
