/** Every operation, whether it succeeds, replays or fails, is a sequence of rows.
    Invariants are therefore proved once per row and lifted to runs. */
module WalletRows {
  import opened Wrappers
  import opened Credits
  import opened WalletSpec
  import opened BucketOrder
  import opened WalletListing

  // What every operation guarantees about a row it posts ...
  ghost predicate Sensible(row: Row) {
    match row
    case GrantRow(user, amount, key, b) =>
      amount > 0 && b.owner == user && b.granted == b.remaining == amount && b.reserved == 0 && b.status == Active
    case HoldRow(input, allocations) => input.amount > 0
    case _ => true
  }

  // ... and what it guarantees besides when bucket rows carry their own ids and
  // refunds name bucketed entries.
  ghost predicate Legal(s: State, row: Row, now: Time) {
    && Sensible(row)
    && match row
       case HoldRow(input, allocations) =>
         && input.user in s.accounts && input.amount <= s.accounts[input.user].balance
         && DueIds(s.buckets, Some(input.user), now) == {}
         && allocations == Plan(s, input.user, input.amount, now)
       case ExpireRow(id) => id in s.buckets && Due(s.buckets[id], now)
       case ClawbackRow(order, rule, original) => original < |s.ledger| && s.ledger[original].bucket.Some?
       case _ => true
  }

  ghost predicate LegalAll(s: State, rows: seq<Row>, now: Time, strict: bool)
    decreases |rows|
  {
    || rows == []
    || (&& (if strict then Legal(s, rows[0], now) else Sensible(rows[0]))
        && (Post(s, rows[0], now).Success? ==> LegalAll(Post(s, rows[0], now).value, rows[1..], now, strict)))
  }

  // A refund only names ledger entries that came with a bucket, as every grant
  // does once bucket storage is configured.
  ghost predicate Bucketed(s: State, op: Operation) {
    op.DoClawback? ==> BucketedRefs(s.ledger, op.executions)
  }

  ghost predicate BucketedRefs(ledger: seq<Transaction>, executions: seq<Execution>) {
    forall i :: 0 <= i < |executions| && executions[i].credits && executions[i].resultRef.Some? ==>
      var ref := executions[i].resultRef.value;
      ref < |ledger| ==> ledger[ref].amount <= 0 || ledger[ref].bucket.Some?
  }

  // The rows lead from s to s', each sensible - and, if strict, legal - when posted.
  ghost predicate Posted(s: State, rows: seq<Row>, now: Time, s': State, strict: bool) {
    PostAll(s, rows, now) == Success(s') && LegalAll(s, rows, now, strict)
  }

  lemma {:induction false} PostedAppend(s: State, first: seq<Row>, s1: State, second: seq<Row>, s2: State, now: Time, strict: bool)
    requires Posted(s, first, now, s1, strict) && Posted(s1, second, now, s2, strict)
    ensures Posted(s, first + second, now, s2, strict)
    decreases |first|
  {
    if first == [] {
      assert first + second == second;
    } else {
      PostedAppend(Post(s, first[0], now).value, first[1..], s1, second, s2, now, strict);
      assert (first + second)[1..] == first[1..] + second;
    }
  }

  lemma PostedOne(s: State, row: Row, now: Time, s1: State, strict: bool)
    requires Sensible(row) && (strict ==> Legal(s, row, now)) && Post(s, row, now) == Success(s1)
    ensures Posted(s, [row], now, s1, strict)
  {
    assert [row][1..] == [];
  }

  lemma PostedThen(s: State, first: Row, s1: State, rest: seq<Row>, s2: State, now: Time, strict: bool)
    requires Sensible(first) && (strict ==> Legal(s, first, now)) && Post(s, first, now) == Success(s1) && Posted(s1, rest, now, s2, strict)
    ensures Posted(s, [first] + rest, now, s2, strict)
  {
    PostedOne(s, first, now, s1, strict);
    PostedAppend(s, [first], s1, rest, s2, now, strict);
  }

  ghost predicate AllDue(s: State, due: seq<Bucket>, now: Time) {
    DistinctIds(due) && forall i :: 0 <= i < |due| ==> due[i].id in s.buckets && Due(s.buckets[due[i].id], now)
  }

  lemma {:induction false} ExpireAllIsRows(s: State, due: seq<Bucket>, now: Time, strict: bool) returns (rows: seq<Row>)
    requires strict ==> AllDue(s, due, now)
    requires ExpireAll(s, due, now).Success?
    ensures Posted(s, rows, now, ExpireAll(s, due, now).value, strict)
    decreases |due|
  {
    rows := [];
    if due != [] {
      var s1 := PostExpire(s, due[0].id, now).value;
      assert forall i :: 0 <= i < |due[1..]| ==> due[1..][i] == due[i + 1];
      ExpireOneBucket(s, due[0].id, now);
      var rest := ExpireAllIsRows(s1, due[1..], now, strict);
      rows := [ExpireRow(due[0].id)] + rest;
      PostedThen(s, ExpireRow(due[0].id), s1, rest, ExpireAll(s, due, now).value, now, strict);
    }
  }

  // A listing of due buckets, or a prefix of it, can be swept in order.
  lemma ListingAllDue(s: State, scope: Option<UserId>, limit: int, now: Time)
    requires Keyed(s.buckets)
    ensures AllDue(s, Limited(Listing(s.buckets, DueIds(s.buckets, scope, now)), limit), now)
  {
    var rows := Listing(s.buckets, DueIds(s.buckets, scope, now));
    ListingMembers(s.buckets, DueIds(s.buckets, scope, now));
    forall i | 0 <= i < |rows|
      ensures rows[i].id in s.buckets && Due(s.buckets[rows[i].id], now)
    {
      assert rows[i] in rows;
    }
  }

  // A clawback entry carries the bucket of the entry it takes back.
  lemma ClawbackAppends(s: State, order: Order, e: Execution, now: Time)
    requires e.credits && BucketedRefs(s.ledger, [e])
    requires ClawbackOne(s, order, e, now).Success?
    ensures var s1 := ClawbackOne(s, order, e, now).value.0;
            s1 == s || (exists tx :: s1.ledger == s.ledger + [tx] && tx.bucket.Some?)
  {
    var s1 := ClawbackOne(s, order, e, now).value.0;
    assert [e][0] == e;
    if s1 != s {
      assert s1.ledger == s.ledger + [s1.ledger[|s.ledger|]];
    }
  }

  lemma {:induction false} ClawbackIsRows(s: State, order: Order, executions: seq<Execution>, now: Time, strict: bool) returns (rows: seq<Row>)
    requires strict ==> BucketedRefs(s.ledger, executions)
    requires Clawback(s, order, executions, now).Success?
    ensures Posted(s, rows, now, Clawback(s, order, executions, now).value.0, strict)
    decreases |executions|
  {
    rows := [];
    if executions != [] {
      var e := executions[0];
      assert forall i :: 0 <= i < |executions[1..]| ==> executions[1..][i] == executions[i + 1];
      if !e.credits {
        rows := ClawbackIsRows(s, order, executions[1..], now, strict);
      } else {
        var s1 := ClawbackOne(s, order, e, now).value.0;
        if strict {
          ClawbackAppends(s, order, e, now);
        }
        rows := ClawbackIsRows(s1, order, executions[1..], now, strict);
        if s1 != s {
          var first := ClawbackRow(order, e.rule, e.resultRef.value);
          PostedThen(s, first, s1, rows, Clawback(s, order, executions, now).value.0, now, strict);
          rows := [first] + rows;
        }
      }
    }
  }

  lemma GrantIsRows(s: State, input: GrantInput, id: BucketId, now: Time, strict: bool) returns (rows: seq<Row>)
    requires input.amount > 0
    requires GrantCredits(s, input, id, now).Success?
    ensures Posted(s, rows, now, GrantCredits(s, input, id, now).value.0, strict)
  {
    if FindKey(s.ledger, CallerKey(input.key)).Some? {
      rows := [];
    } else {
      var s1, s2 := Open(s, input.user), GrantCredits(s, input, id, now).value.0;
      var second := GrantRow(input.user, input.amount, input.key, NewBucket(input, id, now));
      PostedOne(s1, second, now, s2, strict);
      PostedThen(s, OpenRow(input.user), s1, [second], s2, now, strict);
      rows := [OpenRow(input.user)] + [second];
    }
  }

  lemma ReserveIsRows(s: State, input: ReserveInput, now: Time, strict: bool) returns (rows: seq<Row>)
    requires strict ==> Keyed(s.buckets)
    requires input.amount > 0
    requires ReserveFresh(s, input, now).Success?
    ensures Posted(s, rows, now, ReserveFresh(s, input, now).value, strict)
  {
    var start := Open(s, input.user);
    var swept := SweepUser(start, input.user, now).value;
    var held := ReserveFresh(s, input, now).value;
    if strict {
      ListingAllDue(start, Some(input.user), 0, now);
      SweepLeavesNoneDue(start, input.user, now);
    }
    var sweeps := ExpireAllIsRows(start, Listing(start.buckets, DueIds(start.buckets, Some(input.user), now)), now, strict);
    var last := HoldRow(input, Plan(swept, input.user, input.amount, now));
    PostedOne(swept, last, now, held, strict);
    PostedAppend(start, sweeps, swept, [last], held, now, strict);
    PostedThen(s, OpenRow(input.user), start, sweeps + [last], held, now, strict);
    rows := [OpenRow(input.user)] + (sweeps + [last]);
  }

  // Main result of this module. The rows are legal whenever bucket rows carry
  // their own ids and refunds name bucketed entries.
  lemma OperationIsRows(s: State, op: Operation, strict: bool) returns (rows: seq<Row>)
    requires strict ==> Keyed(s.buckets) && Bucketed(s, op)
    ensures Posted(s, rows, op.now, Execute(s, op), strict)
  {
    rows := [];
    if Attempt(s, op).Success? {
      match op
      case DoGrant(input, id, now) => rows := GrantIsRows(s, input, id, now, strict);
      case DoFulfill(input, id, now) => rows := GrantIsRows(s, input, id, now, strict);
      case DoReserve(input, now) =>
        if FindReservation(s.reservations, input.key).None? {
          rows := ReserveIsRows(s, input, now, strict);
        }
      case DoFinalize(id, finality, key, now) =>
        if FindKey(s.ledger, CallerKey(key)).None? {
          rows := [SettleRow(id, finality, key)];
          PostedOne(s, rows[0], now, Execute(s, op), strict);
        }
      case DoExpire(limit, now) =>
        if strict {
          ListingAllDue(s, None, limit, now);
        }
        rows := ExpireAllIsRows(s, Limited(Listing(s.buckets, DueIds(s.buckets, None, now)), limit), now, strict);
      case DoClawback(order, executions, now) => rows := ClawbackIsRows(s, order, executions, now, strict);
    }
  }
}
