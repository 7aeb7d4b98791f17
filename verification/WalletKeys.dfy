/** Idempotency keys: unique, never reused, and - under a clock that does not go
    back - never in the way of a later sweep. */
module WalletKeys {
  import opened Wrappers
  import opened Credits
  import opened WalletSpec
  import opened WalletRows
  import opened WalletInvariant
  import opened WalletBalance

  ghost predicate KeysUnique(ledger: seq<Transaction>) {
    forall i, j :: 0 <= i < j < |ledger| ==> ledger[i].key != ledger[j].key
  }

  ghost predicate ReservationKeysUnique(rs: seq<Reservation>) {
    forall i, j :: 0 <= i < j < |rs| ==> rs[i].key != rs[j].key
  }

  ghost predicate KeyBacked(s: State, key: LedgerKey) {
    match key
    case ReserveKey(k) => FindReservation(s.reservations, k).Some?
    case ExpireKey(b, at) => b in s.buckets
    case _ => true
  }

  ghost predicate KeysSound(s: State) {
    && KeysUnique(s.ledger)
    && ReservationKeysUnique(s.reservations)
    && forall i :: 0 <= i < |s.ledger| ==> KeyBacked(s, s.ledger[i].key)
  }

  ghost predicate SweptBefore(s: State, b: BucketId)
    requires b in s.buckets
  {
    FindKey(s.ledger, ExpireKey(b, s.buckets[b].expiresAt)).Some?
  }

  // A bucket that was swept is expired for good.
  ghost predicate ClockSound(s: State, clock: Time) {
    forall b :: b in s.buckets && SweptBefore(s, b) ==> s.buckets[b].status == Expired && PastExpiry(s.buckets[b], clock)
  }

  lemma FindKeyAppend(ledger: seq<Transaction>, t: Transaction, key: LedgerKey)
    ensures FindKey(ledger + [t], key).Some? <==> FindKey(ledger, key).Some? || t.key == key
  {
    assert (ledger + [t])[..|ledger|] == ledger;
  }

  lemma FindReservationAppend(rs: seq<Reservation>, x: Reservation, key: string)
    ensures FindReservation(rs + [x], key).Some? <==> FindReservation(rs, key).Some? || x.key == key
  {
    assert (rs + [x])[..|rs|] == rs;
  }

  lemma {:induction false} FindReservationSameKeys(rs: seq<Reservation>, id: nat, x: Reservation, key: string)
    requires id < |rs| && x.key == rs[id].key
    ensures FindReservation(rs[id := x], key) == FindReservation(rs, key)
  {
    var last := |rs| - 1;
    if id < last {
      FindReservationSameKeys(rs[..last], id, x, key);
      assert rs[id := x][..last] == rs[..last][id := x];
    } else {
      assert rs[id := x][..last] == rs[..last];
    }
  }

  // ---------------------------------------------------------------- rows

  // How every writing row extends keys and buckets.
  ghost predicate WritesKey(s: State, r: State, t: Transaction) {
    && r.ledger == s.ledger + [t] && FindKey(s.ledger, t.key).None?
    && s.buckets.Keys <= r.buckets.Keys
    && (forall b :: b in s.buckets ==> r.buckets[b].expiresAt == s.buckets[b].expiresAt)
    && (forall k :: FindReservation(s.reservations, k).Some? ==> FindReservation(r.reservations, k).Some?)
    && ReservationKeysUnique(r.reservations)
    && KeyBacked(r, t.key)
  }

  lemma WriteKeepsKeys(s: State, r: State, t: Transaction)
    requires KeysSound(s) && WritesKey(s, r, t)
    ensures KeysSound(r)
  {
    forall i | 0 <= i < |r.ledger|
      ensures KeyBacked(r, r.ledger[i].key)
    {
      if i < |s.ledger| {
        assert KeyBacked(s, s.ledger[i].key);
      }
    }
  }

  lemma GrantWritesKey(s: State, user: UserId, amount: int, key: string, bucket: Bucket, now: Time)
    requires KeysSound(s) && PostGrant(s, user, amount, key, bucket, now).Success?
    ensures var r := PostGrant(s, user, amount, key, bucket, now).value;
            && |s.ledger| < |r.ledger| && WritesKey(s, r, r.ledger[|s.ledger|])
            && r.ledger[|s.ledger|].key == CallerKey(key)
            && r.buckets == s.buckets[bucket.id := bucket] && bucket.id !in s.buckets
  {
  }

  lemma ExpireWritesKey(s: State, bucket: BucketId, now: Time)
    requires KeysSound(s) && PostExpire(s, bucket, now).Success?
    ensures var r := PostExpire(s, bucket, now).value;
            && |s.ledger| < |r.ledger| && WritesKey(s, r, r.ledger[|s.ledger|])
            && r.ledger[|s.ledger|].key == ExpireKey(bucket, s.buckets[bucket].expiresAt)
            && r.buckets == s.buckets[bucket := s.buckets[bucket].(remaining := 0, status := Expired)]
  {
  }

  lemma ClawbackWritesKey(s: State, order: Order, rule: string, id: TransactionId, now: Time)
    requires KeysSound(s) && PostClawback(s, order, rule, id, now).Success?
    ensures var r := PostClawback(s, order, rule, id, now).value;
            && |s.ledger| < |r.ledger| && WritesKey(s, r, r.ledger[|s.ledger|])
            && r.ledger[|s.ledger|].key == ClawbackKey(order.outTradeNo, rule)
            && r.buckets.Keys == s.buckets.Keys
            && forall b :: b in s.buckets && s.buckets[b].remaining <= 0 ==> r.buckets[b] == s.buckets[b]
  {
  }

  lemma {:induction false} HoldAllFrame(buckets: map<BucketId, Bucket>, allocations: seq<Allocation>)
    requires AllPositive(allocations) && HoldAll(buckets, allocations).Success?
    ensures var r := HoldAll(buckets, allocations).value;
            && r.Keys == buckets.Keys
            && (forall b :: b in buckets ==> r[b].expiresAt == buckets[b].expiresAt)
            && forall b :: b in buckets && buckets[b].remaining <= 0 ==> r[b] == buckets[b]
    decreases |allocations|
  {
    if allocations != [] {
      var a := allocations[0];
      HoldAllFrame(buckets[a.bucket := Hold(buckets[a.bucket], a.amount)], allocations[1..]);
    }
  }

  lemma {:induction false} SettleAllFrame(buckets: map<BucketId, Bucket>, allocations: seq<Allocation>, finality: Finality, now: Time)
    requires SettleAll(buckets, allocations, finality, now).Success?
    ensures var r := SettleAll(buckets, allocations, finality, now).value.0;
            && r.Keys == buckets.Keys
            && (forall b :: b in buckets ==> r[b].expiresAt == buckets[b].expiresAt)
            && forall b :: b in buckets && buckets[b].status == Expired && PastExpiry(buckets[b], now) ==> r[b].status == Expired
    decreases |allocations|
  {
    if allocations != [] {
      var a := allocations[0];
      SettleAllFrame(buckets[a.bucket := Settle(buckets[a.bucket], a.amount, finality, now)], allocations[1..], finality, now);
    }
  }

  lemma HoldWritesKey(s: State, input: ReserveInput, allocations: seq<Allocation>, now: Time)
    requires KeysSound(s) && PostHold(s, input, allocations, now).Success?
    ensures var r := PostHold(s, input, allocations, now).value;
            && |s.ledger| < |r.ledger| && WritesKey(s, r, r.ledger[|s.ledger|])
            && r.ledger[|s.ledger|].key == ReserveKey(input.key)
            && r.buckets.Keys == s.buckets.Keys
            && forall b :: b in s.buckets && s.buckets[b].remaining <= 0 ==> r.buckets[b] == s.buckets[b]
  {
    var r := PostHold(s, input, allocations, now).value;
    CompactKeepsPositive(allocations);
    HoldAllFrame(s.buckets, Compact(allocations));
    forall k
      ensures FindReservation(r.reservations, k).Some? <==> FindReservation(s.reservations, k).Some? || k == input.key
    {
      FindReservationAppend(s.reservations, r.reservations[|s.reservations|], k);
    }
  }

  lemma SettleWritesKey(s: State, id: ReservationId, finality: Finality, key: string, now: Time)
    requires KeysSound(s) && PostSettle(s, id, finality, key, now).Success?
    ensures var r := PostSettle(s, id, finality, key, now).value;
            && |s.ledger| < |r.ledger| && WritesKey(s, r, r.ledger[|s.ledger|])
            && r.ledger[|s.ledger|].key == CallerKey(key)
            && r.buckets.Keys == s.buckets.Keys
            && forall b :: b in s.buckets && s.buckets[b].status == Expired && PastExpiry(s.buckets[b], now) ==> r.buckets[b].status == Expired
  {
    var r := PostSettle(s, id, finality, key, now).value;
    SettleAllFrame(s.buckets, Compact(s.reservations[id].allocations), finality, now);
    forall k
      ensures FindReservation(r.reservations, k) == FindReservation(s.reservations, k)
    {
      FindReservationSameKeys(s.reservations, id, r.reservations[id], k);
    }
  }

  lemma RowKeepsKeys(s: State, row: Row, now: Time)
    requires KeysSound(s) && Post(s, row, now).Success?
    ensures KeysSound(Post(s, row, now).value)
  {
    var r := Post(s, row, now).value;
    match row
    case OpenRow(user) =>
      forall i | 0 <= i < |s.ledger|
        ensures KeyBacked(r, r.ledger[i].key)
      {
        assert KeyBacked(s, s.ledger[i].key);
      }
    case GrantRow(user, amount, key, bucket) =>
      GrantWritesKey(s, user, amount, key, bucket, now);
      WriteKeepsKeys(s, r, r.ledger[|s.ledger|]);
    case ExpireRow(bucket) =>
      ExpireWritesKey(s, bucket, now);
      WriteKeepsKeys(s, r, r.ledger[|s.ledger|]);
    case HoldRow(input, allocations) =>
      HoldWritesKey(s, input, allocations, now);
      WriteKeepsKeys(s, r, r.ledger[|s.ledger|]);
    case SettleRow(id, finality, key) =>
      SettleWritesKey(s, id, finality, key, now);
      WriteKeepsKeys(s, r, r.ledger[|s.ledger|]);
    case ClawbackRow(order, rule, original) =>
      ClawbackWritesKey(s, order, rule, original, now);
      WriteKeepsKeys(s, r, r.ledger[|s.ledger|]);
  }

  // A row that writes no expiry key leaves "swept before" as it was.
  lemma OtherKeysKeepClock(s: State, r: State, t: Transaction, now: Time)
    requires ClockSound(s, now) && WritesKey(s, r, t) && KeysSound(s) && !t.key.ExpireKey?
    requires forall b :: b in s.buckets && s.buckets[b].status == Expired && PastExpiry(s.buckets[b], now) ==> r.buckets[b].status == Expired
    ensures ClockSound(r, now)
  {
    forall b | b in r.buckets && SweptBefore(r, b)
      ensures r.buckets[b].status == Expired && PastExpiry(r.buckets[b], now)
    {
      FindKeyAppend(s.ledger, t, ExpireKey(b, r.buckets[b].expiresAt));
      var i := FindKey(s.ledger, ExpireKey(b, r.buckets[b].expiresAt)).value;
      assert KeyBacked(s, s.ledger[i].key);
      assert SweptBefore(s, b);
    }
  }

  lemma ExpireKeepsClock(s: State, bucket: BucketId, now: Time)
    requires KeysSound(s) && ClockSound(s, now) && PostExpire(s, bucket, now).Success? && PastExpiry(s.buckets[bucket], now)
    ensures ClockSound(PostExpire(s, bucket, now).value, now)
  {
    var r := PostExpire(s, bucket, now).value;
    ExpireWritesKey(s, bucket, now);
    forall b | b in r.buckets && SweptBefore(r, b)
      ensures r.buckets[b].status == Expired && PastExpiry(r.buckets[b], now)
    {
      FindKeyAppend(s.ledger, r.ledger[|s.ledger|], ExpireKey(b, r.buckets[b].expiresAt));
      assert b == bucket || SweptBefore(s, b);
    }
  }

  lemma RowKeepsClock(s: State, row: Row, now: Time)
    requires Solvent(s.buckets) && KeysSound(s) && ClockSound(s, now) && Legal(s, row, now) && Post(s, row, now).Success?
    ensures ClockSound(Post(s, row, now).value, now)
  {
    var r := Post(s, row, now).value;
    match row
    case OpenRow(user) =>
      forall b | b in r.buckets && SweptBefore(r, b)
        ensures r.buckets[b].status == Expired && PastExpiry(r.buckets[b], now)
      {
        assert SweptBefore(s, b);
      }
    case GrantRow(user, amount, key, bucket) =>
      GrantWritesKey(s, user, amount, key, bucket, now);
      OtherKeysKeepClock(s, r, r.ledger[|s.ledger|], now);
    case ExpireRow(bucket) => ExpireKeepsClock(s, bucket, now);
    case HoldRow(input, allocations) =>
      HoldWritesKey(s, input, allocations, now);
      OtherKeysKeepClock(s, r, r.ledger[|s.ledger|], now);
    case SettleRow(id, finality, key) =>
      SettleWritesKey(s, id, finality, key, now);
      OtherKeysKeepClock(s, r, r.ledger[|s.ledger|], now);
    case ClawbackRow(order, rule, original) =>
      ClawbackWritesKey(s, order, rule, original, now);
      OtherKeysKeepClock(s, r, r.ledger[|s.ledger|], now);
  }

  // ---------------------------------------------------------------- runs

  lemma {:induction false} RowsKeepKeys(s: State, rows: seq<Row>, now: Time, s': State)
    requires KeysSound(s) && Posted(s, rows, now, s', false)
    ensures KeysSound(s')
    decreases |rows|
  {
    if rows != [] {
      RowKeepsKeys(s, rows[0], now);
      RowsKeepKeys(Post(s, rows[0], now).value, rows[1..], now, s');
    }
  }

  lemma {:induction false} RunKeepsKeys(s: State, ops: seq<Operation>)
    requires KeysSound(s)
    ensures KeysSound(Run(s, ops))
    decreases |ops|
  {
    if ops != [] {
      var rows := OperationIsRows(s, ops[0], false);
      RowsKeepKeys(s, rows, ops[0].now, Execute(s, ops[0]));
      RunKeepsKeys(Execute(s, ops[0]), ops[1..]);
    }
  }

  ghost predicate Sound(s: State, clock: Time) {
    Balanced(s) && KeysSound(s) && ClockSound(s, clock)
  }

  lemma {:induction false} RowsKeepSound(s: State, rows: seq<Row>, now: Time, s': State)
    requires Sound(s, now) && Posted(s, rows, now, s', true)
    ensures Sound(s', now)
    decreases |rows|
  {
    if rows != [] {
      BalancedSolvent(s);
      RowKeeps(s, rows[0], now);
      RowKeepsKeys(s, rows[0], now);
      RowKeepsClock(s, rows[0], now);
      RowsKeepSound(Post(s, rows[0], now).value, rows[1..], now, s');
    }
  }

  // Clock readings along a run, from a starting reading, never go back.
  ghost predicate Monotone(clock: Time, ops: seq<Operation>)
    decreases |ops|
  {
    ops == [] || (clock <= ops[0].now && Monotone(ops[0].now, ops[1..]))
  }

  function LastReading(clock: Time, ops: seq<Operation>): Time
    decreases |ops|
  {
    if ops == [] then clock else LastReading(ops[0].now, ops[1..])
  }

  lemma {:induction false} RunKeepsSound(s: State, ops: seq<Operation>, clock: Time)
    requires Sound(s, clock) && Monotone(clock, ops) && RunBucketed(s, ops)
    ensures Sound(Run(s, ops), LastReading(clock, ops))
    decreases |ops|
  {
    if ops != [] {
      BalancedSolvent(s);
      var now := ops[0].now;
      assert ClockSound(s, now);
      var rows := OperationIsRows(s, ops[0], true);
      RowsKeepSound(s, rows, now, Execute(s, ops[0]));
      RunKeepsSound(Execute(s, ops[0]), ops[1..], now);
    }
  }

  // Main result: with a clock that never goes back, a bucket that was swept stays
  // expired, so it is never due again and its expiry key is never needed twice.
  lemma EveryMonotoneRunSound(users: set<UserId>, ops: seq<Operation>, clock: Time)
    requires Monotone(clock, ops) && RunBucketed(Empty(users), ops)
    ensures var s := Run(Empty(users), ops);
            && Sound(s, LastReading(clock, ops))
            && forall b, now :: b in s.buckets && SweptBefore(s, b) ==> !Due(s.buckets[b], now)
  {
    RunKeepsSound(Empty(users), ops, clock);
  }
}
