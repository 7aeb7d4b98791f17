/** When expiry in batches drains what is due: exactly if no due bucket is stale,
    and always under a clock that never goes back. */
module WalletBatches {
  import opened Wrappers
  import opened Credits
  import opened BucketOrder
  import opened WalletSpec
  import opened WalletListing
  import opened WalletRows
  import opened WalletBalance
  import opened WalletInvariant
  import opened WalletKeys
  import opened WalletDecisions
  import opened WalletExpiry

  // ---------------------------------------------------------------- one batch

  ghost function DueRows(s: State, now: Time): seq<Bucket> {
    Listing(s.buckets, DueIds(s.buckets, None, now))
  }

  lemma PrefixDecided(s: State, rows: seq<Bucket>, limit: int, now: Time)
    requires DistinctIds(rows)
    requires forall i :: 0 <= i < |rows| ==> rows[i].id in s.buckets && s.buckets[rows[i].id].owner in s.accounts
    ensures ExpireAll(s, Limited(rows, limit), now).Success? <==> NoneStale(s, Limited(rows, limit))
    ensures ExpireAll(s, Limited(rows, limit), now).Failure? ==> ExpireAll(s, Limited(rows, limit), now) == Failure(DuplicateKey)
  {
    ExpireAllDecided(s, Limited(rows, limit), now);
  }

  // A batch goes through exactly if none of the buckets it lists is stale.
  lemma BatchDecided(s: State, limit: int, now: Time)
    requires Balanced(s)
    ensures ExpireBuckets(s, limit, now).Success? <==> NoneStale(s, Limited(DueRows(s, now), limit))
    ensures ExpireBuckets(s, limit, now).Failure? ==> ExpireBuckets(s, limit, now) == Failure(DuplicateKey)
  {
    ListingOwners(s, DueIds(s.buckets, None, now));
    PrefixDecided(s, DueRows(s, now), limit, now);
  }

  lemma BatchExecuted(s: State, limit: int, now: Time) returns (op: Operation)
    ensures op == DoExpire(limit, now) && Bucketed(s, op)
    ensures Execute(s, op) == if ExpireBuckets(s, limit, now).Success? then ExpireBuckets(s, limit, now).value else s
  {
    op := DoExpire(limit, now);
  }

  lemma BatchBalanced(s: State, limit: int, now: Time)
    requires Balanced(s) && ExpireBuckets(s, limit, now).Success?
    ensures Balanced(ExpireBuckets(s, limit, now).value)
  {
    var op := BatchExecuted(s, limit, now);
    OperationKeepsBalance(s, op);
  }

  // ---------------------------------------------------------------- batch after batch

  lemma PrefixGoesThrough(s: State, rows: seq<Bucket>, n: nat, now: Time)
    requires n <= |rows| && ExpireAll(s, rows, now).Success?
    ensures ExpireAll(s, rows[..n], now).Success?
    decreases n
  {
    if n > 0 {
      assert rows[..n][1..] == rows[1..][..n - 1];
      PrefixGoesThrough(PostExpire(s, rows[0].id, now).value, rows[1..], n - 1, now);
    }
  }

  lemma BatchOfSweep(s: State, limit: int, now: Time)
    requires Keyed(s.buckets) && ExpireBuckets(s, 0, now).Success?
    ensures ExpireBuckets(s, limit, now).Success? && Keyed(ExpireBuckets(s, limit, now).value.buckets)
    ensures ExpireBuckets(ExpireBuckets(s, limit, now).value, 0, now) == ExpireBuckets(s, 0, now)
  {
    var rows := DueRows(s, now);
    PrefixGoesThrough(s, rows, BatchSize(|rows|, limit), now);
    assert rows[..|rows|] == rows;
    assert Limited(rows, limit) == rows[..BatchSize(|rows|, limit)];
    BatchLeavesRest(s, limit, now);
    BatchThenRest(s, limit, now);
  }

  // If a full sweep would go through, so does any number of batches.
  lemma {:induction false} BatchesOfSweep(s: State, limit: int, now: Time, times: nat)
    requires Keyed(s.buckets) && ExpireBuckets(s, 0, now).Success?
    ensures Repeated(s, limit, now, times).Success?
    decreases times
  {
    if times > 0 {
      BatchOfSweep(s, limit, now);
      BatchesOfSweep(ExpireBuckets(s, limit, now).value, limit, now, times - 1);
    }
  }

  lemma {:induction false} BatchesFailAlike(s: State, limit: int, now: Time, times: nat)
    requires Balanced(s)
    ensures Repeated(s, limit, now, times).Failure? ==> Repeated(s, limit, now, times) == Failure(DuplicateKey)
    decreases times
  {
    if times > 0 {
      BatchDecided(s, limit, now);
      if ExpireBuckets(s, limit, now).Success? {
        BatchBalanced(s, limit, now);
        BatchesFailAlike(ExpireBuckets(s, limit, now).value, limit, now, times - 1);
      }
    }
  }

  // Main result: enough batches drain all that is due - ending where one full sweep
  // does - exactly if no due bucket is stale; else one fails on a used key.
  lemma BatchesDecided(s: State, limit: nat, now: Time, times: nat)
    requires Balanced(s) && 0 < limit && |DueIds(s.buckets, None, now)| <= times * limit
    ensures var drained := Repeated(s, limit, now, times);
            && (drained.Success? <==> NoneStale(s, DueRows(s, now)))
            && (drained.Success? ==> drained == ExpireBuckets(s, 0, now) && DueIds(drained.value.buckets, None, now) == {})
            && (drained.Failure? ==> drained == Failure(DuplicateKey))
  {
    BalancedSolvent(s);
    BatchDecided(s, 0, now);
    BatchesFailAlike(s, limit, now, times);
    if ExpireBuckets(s, 0, now).Success? {
      BatchesOfSweep(s, limit, now, times);
    }
    if Repeated(s, limit, now, times).Success? {
      BatchesDrain(s, limit, now, times);
    }
  }

  // ---------------------------------------------------------------- under a sound clock

  lemma SoundNoneStale(s: State, now: Time)
    requires Sound(s, now)
    ensures NoneStale(s, DueRows(s, now))
  {
    ListingOwners(s, DueIds(s.buckets, None, now));
  }

  lemma SoundLater(s: State, clock: Time, now: Time)
    requires Sound(s, clock) && clock <= now
    ensures Sound(s, now)
  {
  }

  // Every batch goes through and leaves the wallet as sound as it was.
  lemma SoundBatch(s: State, limit: int, clock: Time, now: Time)
    requires Sound(s, clock) && clock <= now
    ensures ExpireBuckets(s, limit, now).Success? && Sound(ExpireBuckets(s, limit, now).value, now)
  {
    SoundLater(s, clock, now);
    SoundNoneStale(s, now);
    BalancedSolvent(s);
    BatchDecided(s, 0, now);
    BatchOfSweep(s, limit, now);
    var op := BatchExecuted(s, limit, now);
    var rows := OperationIsRows(s, op, true);
    RowsKeepSound(s, rows, now, Execute(s, op));
  }

  // Main result, over runs: after any run under a clock that never goes back,
  // enough limited batches drain all that is due and end where one sweep does.
  lemma MonotoneBatchesDrain(users: set<UserId>, ops: seq<Operation>, clock: Time, limit: nat, now: Time, times: nat)
    requires Monotone(clock, ops) && RunBucketed(Empty(users), ops) && LastReading(clock, ops) <= now
    requires 0 < limit && |DueIds(Run(Empty(users), ops).buckets, None, now)| <= times * limit
    ensures var s := Run(Empty(users), ops);
            var drained := Repeated(s, limit, now, times);
            && drained.Success? && drained == ExpireBuckets(s, 0, now)
            && DueIds(drained.value.buckets, None, now) == {}
  {
    var s := Run(Empty(users), ops);
    EveryMonotoneRunSound(users, ops, clock);
    SoundLater(s, LastReading(clock, ops), now);
    SoundNoneStale(s, now);
    BatchesDecided(s, limit, now, times);
  }

  // ---------------------------------------------------------------- a stale bucket

  // A stale bucket that is due stops every batch that lists it; if it is the first
  // to expire, that is every batch, of whatever size.
  lemma StaleFirst(s: State, b: BucketId, limit: int, now: Time)
    requires Balanced(s) && b in DueIds(s.buckets, None, now) && Stale(s, b)
    requires forall c :: c in DueIds(s.buckets, None, now) && c != b ==> Before(s.buckets[b], s.buckets[c])
    ensures ExpireBuckets(s, limit, now) == Failure(DuplicateKey)
  {
    var due := DueIds(s.buckets, None, now);
    var rows := DueRows(s, now);
    BalancedSolvent(s);
    BatchDecided(s, limit, now);
    ListingMembers(s.buckets, due);
    assert s.buckets[b] in rows;
    FirstListed(rows, s.buckets[b]);
    assert Limited(rows, limit)[0] == rows[0] && rows[0].id == b;
  }

  lemma FirstListed(rows: seq<Bucket>, b: Bucket)
    requires Sorted(rows) && b in rows
    requires forall c :: c in rows && c != b ==> Before(b, c)
    ensures rows[0] == b
  {
    var i :| 0 <= i < |rows| && rows[i] == b;
    assert rows[0] in rows && (i > 0 ==> Before(rows[0], rows[i]));
  }

  // No sequence of batches, of whatever sizes and at whatever times, moves it.
  ghost predicate Expiries(ops: seq<Operation>) {
    forall i :: 0 <= i < |ops| ==> ops[i].DoExpire?
  }

  lemma StaleInBatch(s: State, b: BucketId, limit: int, now: Time)
    requires Keyed(s.buckets) && b in s.buckets && Stale(s, b) && ExpireBuckets(s, limit, now).Success?
    ensures var r := ExpireBuckets(s, limit, now).value; b in r.buckets && r.buckets[b] == s.buckets[b] && Stale(r, b)
  {
    ListingMembers(s.buckets, DueIds(s.buckets, None, now));
    StaleStays(s, Limited(DueRows(s, now), limit), b, now);
  }

  lemma StaleUnmoved(s: State, b: BucketId, op: Operation)
    requires Balanced(s) && b in s.buckets && Stale(s, b) && op.DoExpire?
    ensures var r := Execute(s, op); Balanced(r) && b in r.buckets && r.buckets[b] == s.buckets[b] && Stale(r, b)
  {
    BalancedSolvent(s);
    var same := BatchExecuted(s, op.limit, op.now);
    OperationKeepsBalance(s, same);
    if ExpireBuckets(s, op.limit, op.now).Success? {
      StaleInBatch(s, b, op.limit, op.now);
    }
  }

  lemma {:induction false} StaleStays(s: State, rows: seq<Bucket>, b: BucketId, now: Time)
    requires DistinctIds(rows) && ExpireAll(s, rows, now).Success? && b in s.buckets && Stale(s, b)
    ensures var r := ExpireAll(s, rows, now).value; b in r.buckets && r.buckets[b] == s.buckets[b] && Stale(r, b)
    decreases |rows|
  {
    if rows != [] {
      ExpireStep(s, rows[0].id, now);
      assert forall i :: 0 <= i < |rows[1..]| ==> rows[1..][i] == rows[i + 1];
      StaleStays(PostExpire(s, rows[0].id, now).value, rows[1..], b, now);
    }
  }

  lemma {:induction false} StaleForGood(s: State, b: BucketId, ops: seq<Operation>)
    requires Balanced(s) && b in s.buckets && Stale(s, b) && Expiries(ops)
    ensures var r := Run(s, ops); b in r.buckets && r.buckets[b] == s.buckets[b] && Stale(r, b)
    decreases |ops|
  {
    if ops != [] {
      StaleUnmoved(s, b, ops[0]);
      assert forall i :: 0 <= i < |ops[1..]| ==> ops[1..][i] == ops[i + 1];
      StaleForGood(Execute(s, ops[0]), b, ops[1..]);
    }
  }

  // What does help is a clawback of the grant behind it: it empties the bucket, which
  // is then never due again unless credits come back to it.
  lemma ClawbackFrees(s: State, order: Order, rule: string, id: TransactionId, b: BucketId, now: Time)
    requires Balanced(s) && PostClawback(s, order, rule, id, now).Success?
    requires s.ledger[id].bucket == Some(b) && b in s.buckets && s.buckets[b].remaining <= s.ledger[id].amount
    ensures var r := PostClawback(s, order, rule, id, now).value; b in r.buckets && forall at :: !Due(r.buckets[b], at)
  {
    ClawbackKeeps(s, order, rule, id, now);
  }
}
