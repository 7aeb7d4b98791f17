/** Whether a refund is final: a clawback leaves nothing in the buckets an order was
    granted into, and that stays so exactly if no reservation pending at the refund
    holds credits of a bucket not expired by then. */
module RefundFinality {
  import opened Wrappers
  import opened Credits
  import opened WalletSpec
  import opened WalletRows
  import opened WalletBalance
  import opened WalletInvariant
  import opened Refund
  import BucketAudit
  import LateRelease

  // ---------------------------------------------------------------- what a bucket came with

  // Buckets stay, and with them what was granted and until when.
  ghost predicate SameTerms(before: map<BucketId, Bucket>, after: map<BucketId, Bucket>) {
    forall b :: b in before ==> b in after && after[b].granted == before[b].granted && after[b].expiresAt == before[b].expiresAt
  }

  lemma {:induction false} HoldTerms(buckets: map<BucketId, Bucket>, shares: seq<Allocation>)
    requires HoldAll(buckets, shares).Success?
    ensures SameTerms(buckets, HoldAll(buckets, shares).value)
    decreases |shares|
  {
    if shares != [] {
      HoldTerms(buckets[shares[0].bucket := Hold(buckets[shares[0].bucket], shares[0].amount)], shares[1..]);
    }
  }

  lemma {:induction false} SettleTerms(buckets: map<BucketId, Bucket>, shares: seq<Allocation>, finality: Finality, now: Time)
    requires SettleAll(buckets, shares, finality, now).Success?
    ensures SameTerms(buckets, SettleAll(buckets, shares, finality, now).value.0)
    decreases |shares|
  {
    if shares != [] {
      var a := shares[0];
      SettleTerms(buckets[a.bucket := Settle(buckets[a.bucket], a.amount, finality, now)], shares[1..], finality, now);
    }
  }

  lemma RowTerms(s: State, row: Row, now: Time)
    requires Post(s, row, now).Success?
    ensures SameTerms(s.buckets, Post(s, row, now).value.buckets)
  {
    match row
    case HoldRow(input, allocations) => HoldTerms(s.buckets, Compact(allocations));
    case SettleRow(id, finality, key) => SettleTerms(s.buckets, Compact(s.reservations[id].allocations), finality, now);
    case _ =>
  }

  // A grant's bucket was made for the whole of it.
  ghost predicate WholeGrants(s: State) {
    forall i :: 0 <= i < |s.ledger| && s.ledger[i].kind == GrantEntry && s.ledger[i].bucket.Some? ==>
      s.ledger[i].bucket.value in s.buckets && s.buckets[s.ledger[i].bucket.value].granted == s.ledger[i].amount
  }

  lemma RowKeepsWhole(s: State, row: Row, now: Time)
    requires WholeGrants(s) && Sensible(row) && Post(s, row, now).Success?
    ensures WholeGrants(Post(s, row, now).value)
  {
    RowTerms(s, row, now);
    if !row.OpenRow? && !row.GrantRow? {
      OtherRowAppends(s, row, now);
    }
  }

  lemma {:induction false} RowsKeepWhole(s: State, rows: seq<Row>, now: Time, s': State)
    requires WholeGrants(s) && Posted(s, rows, now, s', false)
    ensures WholeGrants(s')
    decreases |rows|
  {
    if rows != [] {
      RowKeepsWhole(s, rows[0], now);
      RowsKeepWhole(Post(s, rows[0], now).value, rows[1..], now, s');
    }
  }

  lemma {:induction false} RunKeepsWhole(s: State, ops: seq<Operation>)
    requires WholeGrants(s)
    ensures WholeGrants(Run(s, ops))
    decreases |ops|
  {
    if ops != [] {
      var rows := OperationIsRows(s, ops[0], false);
      RowsKeepWhole(s, rows, ops[0].now, Execute(s, ops[0]));
      RunKeepsWhole(Execute(s, ops[0]), ops[1..]);
    }
  }

  // ---------------------------------------------------------------- what a clawback leaves

  // The buckets the order's credits were granted into.
  function GrantedBuckets(s: State, executions: seq<Execution>): set<BucketId> {
    set i | 0 <= i < |executions| && executions[i].credits && executions[i].resultRef.Some?
            && executions[i].resultRef.value < |s.ledger| && s.ledger[executions[i].resultRef.value].bucket.Some?
      :: s.ledger[executions[i].resultRef.value].bucket.value
  }

  // No more left in a bucket than the entry that a refund would take back.
  ghost predicate Covered(s: State, executions: seq<Execution>) {
    forall i :: 0 <= i < |executions| && executions[i].credits && executions[i].resultRef.Some? && executions[i].resultRef.value < |s.ledger| ==>
      var t := s.ledger[executions[i].resultRef.value];
      t.bucket.Some? ==> t.bucket.value in s.buckets && s.buckets[t.bucket.value].remaining <= t.amount
  }

  // Nothing but what is left has moved, and that only down.
  ghost predicate OnlyTaken(s: State, r: State) {
    && r.reservations == s.reservations && r.buckets.Keys == s.buckets.Keys
    && forall b :: b in s.buckets ==>
         r.buckets[b].remaining <= s.buckets[b].remaining
         && r.buckets[b].reserved == s.buckets[b].reserved && r.buckets[b].expiresAt == s.buckets[b].expiresAt
  }

  lemma TakenAll(s: State, r: State, b: BucketId, amount: int, t: Transaction)
    requires b in s.buckets && TakenFrom(s, r, b, Min(amount, s.buckets[b].remaining), t) && s.buckets[b].remaining <= amount
    ensures OnlyTaken(s, r) && r.buckets[b].remaining == 0
  {
  }

  lemma OneEmpties(s: State, order: Order, e: Execution, b: BucketId, now: Time)
    requires Counts(s.ledger, order, e) && s.ledger[e.resultRef.value].bucket == Some(b)
    requires FindKey(s.ledger, ClawbackKey(order.outTradeNo, e.rule)).None?
    requires b in s.buckets && s.buckets[b].owner == order.user && order.user in s.accounts
    requires 0 <= s.buckets[b].remaining <= s.accounts[order.user].balance
    requires s.buckets[b].status != Active ==> s.buckets[b].remaining == 0
    requires s.buckets[b].remaining <= s.ledger[e.resultRef.value].amount
    ensures ClawbackOne(s, order, e, now).Success?
    ensures var r := ClawbackOne(s, order, e, now).value.0; OnlyTaken(s, r) && r.buckets[b].remaining == 0
  {
    var id := e.resultRef.value;
    ClawbackGoesThrough(s, order, e.rule, id, now);
    ClawbackShape(s, order, e.rule, id, b, now);
    var r := PostClawback(s, order, e.rule, id, now).value;
    TakenAll(s, r, b, s.ledger[id].amount, r.ledger[|s.ledger|]);
  }

  lemma OneTaken(s: State, order: Order, e: Execution, b: BucketId, now: Time)
    requires Balanced(s) && Counts(s.ledger, order, e) && s.ledger[e.resultRef.value].bucket == Some(b)
    requires FindKey(s.ledger, ClawbackKey(order.outTradeNo, e.rule)).None?
    requires b in s.buckets && s.buckets[b].remaining <= s.ledger[e.resultRef.value].amount
    ensures ClawbackOne(s, order, e, now).Success?
    ensures var r := ClawbackOne(s, order, e, now).value.0; OnlyTaken(s, r) && r.buckets[b].remaining == 0
  {
    assert EntrySound(s, s.ledger[e.resultRef.value]);
    BalanceCoversBucket(s, b);
    assert BucketSound(s, b);
    OneEmpties(s, order, e, b, now);
  }

  ghost predicate Emptied(s: State, r: State, executions: seq<Execution>) {
    && OnlyTaken(s, r)
    && forall b :: b in GrantedBuckets(s, executions) ==> b in r.buckets && r.buckets[b].remaining <= 0
  }

  // One grant taken back, ready for the next.
  lemma FirstEmptied(s: State, order: Order, executions: seq<Execution>, now: Time) returns (m: State)
    requires Balanced(s) && WellFormed(s, order, executions) && NotYetTaken(s, order, executions) && Covered(s, executions)
    requires executions != [] && executions[0].credits
    ensures var one := ClawbackOne(s, order, executions[0], now); one.Success? && one.value.0 == m
    ensures Balanced(m) && WellFormed(m, order, executions[1..]) && NotYetTaken(m, order, executions[1..]) && Covered(m, executions[1..])
    ensures OnlyTaken(s, m)
    ensures forall b :: b in GrantedBuckets(s, executions) ==>
              b in GrantedBuckets(m, executions[1..]) || (b in m.buckets && m.buckets[b].remaining == 0)
  {
    var e := executions[0];
    assert Counts(s.ledger, order, e);
    TakeOne(s, order, e, now);
    OneTaken(s, order, e, s.ledger[e.resultRef.value].bucket.value, now);
    m := ClawbackOne(s, order, e, now).value.0;
    RestStaysReady(s, m, order, executions);
    RestCovered(s, m, order, executions);
  }

  lemma EmptiedThrough(s: State, m: State, r: State, executions: seq<Execution>)
    requires executions != [] && OnlyTaken(s, m) && Emptied(m, r, executions[1..])
    requires forall b :: b in GrantedBuckets(s, executions) ==>
               b in GrantedBuckets(m, executions[1..]) || (b in m.buckets && m.buckets[b].remaining == 0)
    ensures Emptied(s, r, executions)
  {
  }

  lemma SkippedEmptied(s: State, r: State, executions: seq<Execution>)
    requires executions != [] && !executions[0].credits && Emptied(s, r, executions[1..])
    ensures Emptied(s, r, executions)
  {
    var rest := executions[1..];
    assert forall i :: 0 <= i < |rest| ==> rest[i] == executions[i + 1];
    forall b | b in GrantedBuckets(s, executions)
      ensures b in GrantedBuckets(s, rest)
    {
      var i :| 0 <= i < |executions| && executions[i].credits && executions[i].resultRef.Some?
               && executions[i].resultRef.value < |s.ledger| && s.ledger[executions[i].resultRef.value].bucket == Some(b);
      assert rest[i - 1] == executions[i];
    }
  }

  lemma RestReady(s: State, order: Order, executions: seq<Execution>)
    requires executions != [] && WellFormed(s, order, executions) && NotYetTaken(s, order, executions) && Covered(s, executions)
    ensures WellFormed(s, order, executions[1..]) && NotYetTaken(s, order, executions[1..]) && Covered(s, executions[1..])
  {
    var rest := executions[1..];
    assert forall i :: 0 <= i < |rest| ==> rest[i] == executions[i + 1];
  }

  lemma ClawbackUnfolds(s: State, order: Order, executions: seq<Execution>, now: Time, m: State)
    requires executions != [] && Clawback(m, order, executions[1..], now).Success?
    requires if executions[0].credits then
               ClawbackOne(s, order, executions[0], now).Success? && m == ClawbackOne(s, order, executions[0], now).value.0
             else m == s
    ensures Clawback(s, order, executions, now).Success?
    ensures Clawback(s, order, executions, now).value.0 == Clawback(m, order, executions[1..], now).value.0
  {
  }

  // A clawback of whole grants empties their buckets.
  lemma {:induction false} ClawbackEmpties(s: State, order: Order, executions: seq<Execution>, now: Time)
    requires Balanced(s) && WellFormed(s, order, executions) && NotYetTaken(s, order, executions) && Covered(s, executions)
    ensures Clawback(s, order, executions, now).Success?
    ensures var r := Clawback(s, order, executions, now).value.0; Balanced(r) && Emptied(s, r, executions)
    decreases |executions|
  {
    if executions != [] {
      var m := s;
      if executions[0].credits {
        m := FirstEmptied(s, order, executions, now);
      } else {
        RestReady(s, order, executions);
      }
      ClawbackEmpties(m, order, executions[1..], now);
      ClawbackUnfolds(s, order, executions, now, m);
      var r := Clawback(s, order, executions, now).value.0;
      if executions[0].credits {
        EmptiedThrough(s, m, r, executions);
      } else {
        SkippedEmptied(s, r, executions);
      }
    }
  }

  lemma RestCovered(s: State, m: State, order: Order, executions: seq<Execution>)
    requires executions != [] && executions[0].credits && WellFormed(s, order, executions) && Covered(s, executions)
    requires SameSources(s, m, executions[1..]) && RecordsSound(s)
    ensures Covered(m, executions[1..])
    ensures forall b :: b in GrantedBuckets(s, executions) ==>
              Some(b) == s.ledger[executions[0].resultRef.value].bucket || b in GrantedBuckets(m, executions[1..])
  {
    var rest := executions[1..];
    assert forall i :: 0 <= i < |rest| ==> rest[i] == executions[i + 1];
    forall i | 0 <= i < |rest| && rest[i].credits
      ensures Counts(s.ledger, order, rest[i])
    {
      assert rest[i] == executions[i + 1];
    }
    forall b | b in GrantedBuckets(s, executions) && Some(b) != s.ledger[executions[0].resultRef.value].bucket
      ensures b in GrantedBuckets(m, rest)
    {
      var i :| 0 <= i < |executions| && executions[i].credits && executions[i].resultRef.Some?
               && executions[i].resultRef.value < |s.ledger| && s.ledger[executions[i].resultRef.value].bucket == Some(b);
      assert rest[i - 1] == executions[i];
    }
  }

  // ---------------------------------------------------------------- what stays gone

  // Nothing left, and nothing held that could come back.
  ghost predicate Drained(s: State, b: BucketId, from: Time) {
    && b in s.buckets && s.buckets[b].remaining == 0
    && (s.buckets[b].reserved == 0 || PastExpiry(s.buckets[b], from))
  }

  lemma {:induction false} HoldSkips(buckets: map<BucketId, Bucket>, shares: seq<Allocation>, b: BucketId)
    requires HoldAll(buckets, shares).Success? && AllPositive(shares) && b in buckets && buckets[b].remaining == 0
    ensures var r := HoldAll(buckets, shares).value; b in r && r[b] == buckets[b]
    decreases |shares|
  {
    if shares != [] {
      assert shares[0].amount > 0;
      HoldSkips(buckets[shares[0].bucket := Hold(buckets[shares[0].bucket], shares[0].amount)], shares[1..], b);
    }
  }

  lemma {:induction false} SettleSkips(buckets: map<BucketId, Bucket>, shares: seq<Allocation>, finality: Finality, now: Time, b: BucketId)
    requires SettleAll(buckets, shares, finality, now).Success? && AllPositive(shares)
    requires b in buckets && buckets[b].remaining == 0 && (buckets[b].reserved == 0 || PastExpiry(buckets[b], now))
    ensures var r := SettleAll(buckets, shares, finality, now).value.0;
            b in r && r[b].remaining == 0 && r[b].expiresAt == buckets[b].expiresAt && (buckets[b].reserved == 0 ==> r[b].reserved == 0)
    decreases |shares|
  {
    if shares != [] {
      var a := shares[0];
      assert a.amount > 0;
      SettleSkips(buckets[a.bucket := Settle(buckets[a.bucket], a.amount, finality, now)], shares[1..], finality, now, b);
    }
  }

  lemma RowKeepsDrained(s: State, row: Row, now: Time, b: BucketId, from: Time)
    requires Drained(s, b, from) && from <= now && Post(s, row, now).Success?
    ensures Drained(Post(s, row, now).value, b, from)
  {
    match row
    case HoldRow(input, allocations) =>
      CompactKeepsPositive(allocations);
      HoldSkips(s.buckets, Compact(allocations), b);
    case SettleRow(id, finality, key) =>
      CompactKeepsPositive(s.reservations[id].allocations);
      SettleSkips(s.buckets, Compact(s.reservations[id].allocations), finality, now, b);
    case _ =>
  }

  lemma {:induction false} RowsKeepDrained(s: State, rows: seq<Row>, now: Time, s': State, b: BucketId, from: Time)
    requires Drained(s, b, from) && from <= now && Posted(s, rows, now, s', false)
    ensures Drained(s', b, from)
    decreases |rows|
  {
    if rows != [] {
      RowKeepsDrained(s, rows[0], now, b, from);
      RowsKeepDrained(Post(s, rows[0], now).value, rows[1..], now, s', b, from);
    }
  }

  ghost predicate NotBefore(from: Time, ops: seq<Operation>) {
    forall i :: 0 <= i < |ops| ==> from <= ops[i].now
  }

  lemma {:induction false} RunKeepsDrained(s: State, ops: seq<Operation>, b: BucketId, from: Time)
    requires Drained(s, b, from) && NotBefore(from, ops)
    ensures Drained(Run(s, ops), b, from)
    decreases |ops|
  {
    if ops != [] {
      var rows := OperationIsRows(s, ops[0], false);
      RowsKeepDrained(s, rows, ops[0].now, Execute(s, ops[0]), b, from);
      assert forall i :: 0 <= i < |ops[1..]| ==> ops[1..][i] == ops[i + 1];
      RunKeepsDrained(Execute(s, ops[0]), ops[1..], b, from);
    }
  }

  // ---------------------------------------------------------------- what can come back

  // A pending reservation holds credits of the bucket.
  predicate Holds(r: Reservation, b: BucketId) {
    r.status == Pending && AllocatedTo(r.allocations, b) > 0
  }

  // Credits that a release would put back into the bucket.
  ghost predicate HeldBack(s: State, b: BucketId, now: Time) {
    b in s.buckets && !PastExpiry(s.buckets[b], now) && exists i :: 0 <= i < |s.reservations| && Holds(s.reservations[i], b)
  }

  lemma {:induction false} WaitingHolds(rs: seq<Reservation>, b: BucketId, expiresAt: Option<Time>)
    requires forall i :: 0 <= i < |rs| ==> AllPositive(rs[i].allocations)
    ensures 0 <= Allotted(rs, b, expiresAt, Waiting)
    ensures Allotted(rs, b, expiresAt, Waiting) > 0 <==> exists i :: 0 <= i < |rs| && Holds(rs[i], b)
  {
    if rs != [] {
      var front, last := rs[..|rs| - 1], rs[|rs| - 1];
      WaitingHolds(front, b, expiresAt);
      AllocatedNonNegative(last.allocations, b);
      assert forall i :: 0 <= i < |front| ==> front[i] == rs[i];
      assert Holds(last, b) <==> Share(last, b, expiresAt, Waiting) > 0;
    }
  }

  lemma ReservedHolds(s: State, b: BucketId)
    requires Balanced(s) && b in s.buckets
    ensures s.buckets[b].reserved > 0 <==> exists i :: 0 <= i < |s.reservations| && Holds(s.reservations[i], b)
  {
    assert BucketSound(s, b);
    forall i | 0 <= i < |s.reservations|
      ensures AllPositive(s.reservations[i].allocations)
    {
      assert ReservationSound(s, s.reservations[i]);
    }
    WaitingHolds(s.reservations, b, s.buckets[b].expiresAt);
  }

  predicate Longer(key: LedgerKey, n: nat) {
    key.CallerKey? && |key.key| >= n
  }

  lemma {:induction false} UnusedKey(ledger: seq<Transaction>) returns (key: string)
    ensures key != "" && FindKey(ledger, CallerKey(key)).None?
  {
    var n := 1;
    var i := 0;
    while i < |ledger|
      invariant 0 <= i <= |ledger| && n >= 1
      invariant forall j :: 0 <= j < i ==> !Longer(ledger[j].key, n)
    {
      if Longer(ledger[i].key, n) {
        n := |ledger[i].key.key| + 1;
      }
      i := i + 1;
    }
    key := seq(n, _ => 'k');
  }

  // Whatever comes later - from then on - leaves nothing in these buckets.
  ghost predicate StaysGone(s: State, ids: set<BucketId>, from: Time) {
    forall later :: RunBucketed(s, later) && NotBefore(from, later) ==> NothingLeft(Run(s, later), ids)
  }

  ghost predicate NothingLeft(s: State, ids: set<BucketId>) {
    forall b :: b in ids ==> b in s.buckets && s.buckets[b].remaining == 0
  }

  lemma RunOne(s: State, op: Operation)
    ensures Run(s, [op]) == Execute(s, op) && (RunBucketed(s, [op]) <==> Bucketed(s, op))
  {
    assert [op][1..] == [];
  }

  lemma ReturnedInto(s: State, f: State, r: Reservation, b: BucketId, now: Time)
    requires LateRelease.Returned(s, f, r.owner, r.amount, r.allocations, now)
    requires b in s.buckets && 0 <= s.buckets[b].remaining && !PastExpiry(s.buckets[b], now) && AllocatedTo(r.allocations, b) > 0
    ensures b in f.buckets && f.buckets[b].remaining > 0
  {
  }

  lemma ReleaseBringsBack(s: State, b: BucketId, from: Time) returns (later: seq<Operation>)
    requires Balanced(s) && HeldBack(s, b, from)
    ensures RunBucketed(s, later) && NotBefore(from, later)
    ensures b in Run(s, later).buckets && Run(s, later).buckets[b].remaining > 0
  {
    var i: nat :| i < |s.reservations| && Holds(s.reservations[i], b);
    var key := UnusedKey(s.ledger);
    var op := DoFinalize(i, Release, key, from);
    later := [op];
    RunOne(s, op);
    LateRelease.ReleaseReturns(s, i, key, from);
    assert 0 <= s.buckets[b].remaining by {
      assert BucketSound(s, b);
    }
    FinalizeExecutes(s, i, key, from);
    ReturnedInto(s, Execute(s, op), s.reservations[i], b, from);
  }

  lemma FinalizeExecutes(s: State, id: ReservationId, key: string, now: Time)
    requires Finalize(s, id, Release, key, now).Success?
    ensures Execute(s, DoFinalize(id, Release, key, now)) == Finalize(s, id, Release, key, now).value.0
  {
  }

  lemma GoneUnlessHeld(s: State, ids: set<BucketId>, from: Time)
    requires Balanced(s) && NothingLeft(s, ids)
    ensures StaysGone(s, ids, from) <==> forall b :: b in ids ==> !HeldBack(s, b, from)
  {
    if b :| b in ids && HeldBack(s, b, from) {
      var later := ReleaseBringsBack(s, b, from);
      assert !NothingLeft(Run(s, later), ids);
    } else {
      forall later | RunBucketed(s, later) && NotBefore(from, later)
        ensures NothingLeft(Run(s, later), ids)
      {
        forall b | b in ids
          ensures b in Run(s, later).buckets && Run(s, later).buckets[b].remaining == 0
        {
          ReservedHolds(s, b);
          assert BucketSound(s, b);
          RunKeepsDrained(s, later, b, from);
        }
      }
    }
  }

  // ---------------------------------------------------------------- the refund

  lemma NamedCovered(users: set<UserId>, ops: seq<Operation>, order: Order, executions: seq<Execution>)
    requires RunBucketed(Empty(users), ops) && NamesGrants(Run(Empty(users), ops), order, executions)
    ensures Covered(Run(Empty(users), ops), executions)
  {
    var s := Run(Empty(users), ops);
    RunKeepsWhole(Empty(users), ops);
    forall i | 0 <= i < |executions| && executions[i].credits && s.ledger[executions[i].resultRef.value].bucket.Some?
      ensures s.ledger[executions[i].resultRef.value].bucket.value in s.buckets
      ensures s.buckets[s.ledger[executions[i].resultRef.value].bucket.value].remaining <= s.ledger[executions[i].resultRef.value].amount
    {
      assert Counts(s.ledger, order, executions[i]);
      BucketAudit.HoldsAtMostGranted(users, ops, s.ledger[executions[i].resultRef.value].bucket.value);
    }
  }

  lemma NoneLeft(r: State, b: BucketId)
    requires Balanced(r) && b in r.buckets && r.buckets[b].remaining <= 0
    ensures r.buckets[b].remaining == 0
  {
    assert BucketSound(r, b);
  }

  lemma SameHeld(s: State, r: State, b: BucketId, now: Time)
    requires OnlyTaken(s, r)
    ensures HeldBack(r, b, now) <==> HeldBack(s, b, now)
  {
  }

  lemma RefundDecided(s: State, order: Order, executions: seq<Execution>, now: Time)
    requires Balanced(s) && WellFormed(s, order, executions) && NotYetTaken(s, order, executions) && Covered(s, executions)
    ensures var ids, effect := GrantedBuckets(s, executions), Clawback(s, order, executions, now);
            && effect.Success? && NothingLeft(effect.value.0, ids)
            && (StaysGone(effect.value.0, ids, now) <==> forall b :: b in ids ==> !HeldBack(s, b, now))
  {
    ClawbackEmpties(s, order, executions, now);
    var r, ids := Clawback(s, order, executions, now).value.0, GrantedBuckets(s, executions);
    forall b | b in ids
      ensures b in r.buckets && r.buckets[b].remaining == 0 && (HeldBack(r, b, now) <==> HeldBack(s, b, now))
    {
      NoneLeft(r, b);
      SameHeld(s, r, b, now);
    }
    GoneUnlessHeld(r, ids, now);
  }

  // Main result, over runs: refunding an order leaves nothing in the buckets its
  // credits were granted into, and they stay empty, whatever is done from then on,
  // exactly if at the refund no pending reservation holds credits of one of them that
  // is not past its expiry.
  lemma RefundFinal(users: set<UserId>, ops: seq<Operation>, order: Order, executions: seq<Execution>, now: Time)
    requires RunBucketed(Empty(users), ops)
    requires var s := Run(Empty(users), ops); NamesGrants(s, order, executions) && NotYetTaken(s, order, executions)
    ensures var s := Run(Empty(users), ops);
            var ids, effect := GrantedBuckets(s, executions), Clawback(s, order, executions, now);
            && effect.Success? && NothingLeft(effect.value.0, ids)
            && (StaysGone(effect.value.0, ids, now) <==> forall b :: b in ids ==> !HeldBack(s, b, now))
  {
    var s := Run(Empty(users), ops);
    EveryRunBalances(users, ops);
    RunKeepsApart(Empty(users), ops);
    NamedGrantsWellFormed(s, order, executions);
    NamedCovered(users, ops, order, executions);
    RefundDecided(s, order, executions, now);
  }
}
