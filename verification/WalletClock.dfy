/** Why sweeping needs a clock that does not go back: a run in which it does, after
    which a covered reservation is refused and no batch of expiries goes through. */
module WalletClock {
  import opened Wrappers
  import opened Credits
  import opened BucketOrder
  import opened WalletSpec
  import opened Totals
  import opened WalletListing
  import opened WalletBalance
  import opened WalletInvariant
  import opened WalletDecisions
  import opened WalletBatches

  lemma SingleListing(buckets: map<BucketId, Bucket>, b: BucketId)
    requires b in buckets
    ensures Listing(buckets, {b}) == [buckets[b]]
  {
    assert {b} - {b} == {};
    assert Enumerate(buckets, {b}) == [buckets[b]];
  }

  lemma EmptyListing(buckets: map<BucketId, Bucket>)
    ensures Listing(buckets, {}) == []
  {
  }

  const USERS := {"u", "v"}

  const EARLY := GrantInput("u", 5, "first", Some(Admin), false, None, Some(10))
  const LATER := GrantInput("u", 100, "second", Some(Admin), false, None, None)
  const HELD := ReserveInput("u", 2, "held", None)
  const ASKED := ReserveInput("u", 1, "asked", None)

  // Credits expiring at 10 are granted, two of them held at 1; a sweep is told it
  // is 20; the hold is released at 5, before the credits expire; more credits come.
  const STEPS: seq<Operation> := [
    DoGrant(EARLY, 1, 0),
    DoReserve(HELD, 1),
    DoExpire(0, 20),
    DoFinalize(0, Release, "back", 5),
    DoGrant(LATER, 2, 30)
  ]

  function First(remaining: int, reserved: int, status: BucketStatus): Bucket {
    Bucket(1, "u", Admin, Some(10), 5, remaining, reserved, status, 0)
  }

  function Second(): Bucket {
    Bucket(2, "u", Admin, None, 100, 100, 0, Active, 30)
  }

  function Entry(kind: TransactionKind, amount: int, balance: int, reserved: int, key: LedgerKey, bucket: BucketId,
                 reservation: Option<ReservationId>, at: Time): Transaction
  {
    Transaction("u", kind, amount, balance, reserved, key, Some(bucket), reservation, at)
  }

  const LEDGER: seq<Transaction> := [
    Entry(GrantEntry, 5, 5, 0, CallerKey("first"), 1, None, 0),
    Entry(ReserveEntry, -2, 3, 2, ReserveKey("held"), 1, Some(0), 1),
    Entry(ExpireEntry, -3, 0, 2, ExpireKey(1, Some(10)), 1, None, 20),
    Entry(ReleaseEntry, 2, 2, 0, CallerKey("back"), 1, Some(0), 5),
    Entry(GrantEntry, 100, 102, 0, CallerKey("second"), 2, None, 30)
  ]

  function Reserved(status: ReservationStatus, at: Time): Reservation {
    Reservation("u", 2, status, "held", [Allocation(1, 2)], None, at)
  }

  function After1(): State {
    State(USERS, map["u" := Account(5, 0)], map[1 := First(5, 0, Active)], [], LEDGER[..1])
  }

  function After2(): State {
    State(USERS, map["u" := Account(3, 2)], map[1 := First(3, 2, Active)], [Reserved(Pending, 1)], LEDGER[..2])
  }

  function After3(): State {
    State(USERS, map["u" := Account(0, 2)], map[1 := First(0, 2, Expired)], [Reserved(Pending, 1)], LEDGER[..3])
  }

  function After4(): State {
    State(USERS, map["u" := Account(2, 0)], map[1 := First(2, 0, Active)], [Reserved(Released, 5)], LEDGER[..4])
  }

  function After5(): State {
    State(USERS, map["u" := Account(102, 0)], map[1 := First(2, 0, Active), 2 := Second()], [Reserved(Released, 5)], LEDGER)
  }

  lemma Step1()
    ensures Execute(Empty(USERS), STEPS[0]) == After1()
  {
    assert LEDGER[..1] == [LEDGER[0]];
  }

  lemma NothingToSweep()
    ensures SweepUser(Open(After1(), "u"), "u", 1) == Success(After1())
  {
    assert DueIds(After1().buckets, Some("u"), 1) == {};
    EmptyListing(After1().buckets);
  }

  lemma PlansTwo()
    ensures Plan(After1(), "u", 2, 1) == [Allocation(1, 2)]
  {
    assert AvailableIds(After1().buckets, "u", 1) == {1};
    SingleListing(After1().buckets, 1);
  }

  lemma HoldsTwo()
    ensures PostHold(After1(), HELD, [Allocation(1, 2)], 1) == Success(After2())
  {
    var s, shares := After1(), [Allocation(1, 2)];
    assert forall i :: 0 <= i < 1 ==> LEDGER[..1][i].key != ReserveKey("held");
    assert shares[1..] == [] && Compact(shares) == shares;
    var held := After2().buckets;
    assert Hold(s.buckets[1], 2) == First(3, 2, Active) && s.buckets[1 := First(3, 2, Active)] == held;
    assert HoldAll(held, []) == Success(held);
    assert HoldAll(s.buckets, shares) == Success(held);
    assert s.accounts["u" := Account(3, 2)] == After2().accounts;
    assert s.reservations + [Reserved(Pending, 1)] == After2().reservations;
    assert SingleBucket(shares) == Some(1);
    assert LEDGER[..2] == LEDGER[..1] + [LEDGER[1]];
  }

  // A reservation put together from its parts.
  lemma FreshFrom(s: State, input: ReserveInput, now: Time)
    requires SweepUser(Open(s, input.user), input.user, now) == Success(s)
    requires input.user in s.accounts && s.accounts[input.user].balance >= input.amount
    ensures ReserveFresh(s, input, now) == PostHold(s, input, Plan(s, input.user, input.amount, now), now)
  {
  }

  lemma ExecutedFrom(s: State, input: ReserveInput, r: State, now: Time)
    requires ReserveRefusal(s.users, input, now).None? && FindReservation(s.reservations, input.key).None?
    requires ReserveFresh(s, input, now) == Success(r)
    ensures Execute(s, DoReserve(input, now)) == r
  {
  }

  lemma FreshIsHold()
    ensures ReserveFresh(After1(), HELD, 1) == PostHold(After1(), HELD, Plan(After1(), "u", 2, 1), 1)
  {
    NothingToSweep();
    FreshFrom(After1(), HELD, 1);
  }

  lemma PlanIsHeld()
    ensures PostHold(After1(), HELD, Plan(After1(), "u", 2, 1), 1) == Success(After2())
  {
    PlansTwo();
    HoldsTwo();
  }

  lemma FreshResult()
    ensures ReserveFresh(After1(), HELD, 1) == Success(After2())
  {
    FreshIsHold();
    PlanIsHeld();
  }

  lemma HeldIsValid(s: State)
    requires s == After1()
    ensures ReserveRefusal(s.users, HELD, 1).None? && FindReservation(s.reservations, HELD.key).None?
  {
  }

  lemma Step2(s: State, r: State, input: ReserveInput, op: Operation)
    requires s == After1() && r == After2() && input == HELD && op == DoReserve(input, 1)
    ensures Execute(s, op) == r
  {
    assert ReserveFresh(s, input, 1) == Success(r) by {
      FreshResult();
    }
    HeldIsValid(s);
    ExecutedFrom(s, input, r, 1);
  }

  lemma ExpiresHeld(s: State, r: State)
    requires s == After2() && r == After3()
    ensures PostExpire(s, 1, 20) == Success(r)
  {
    assert forall i :: 0 <= i < 2 ==> s.ledger[i].key != ExpireKey(1, Some(10));
    assert r.ledger == s.ledger + [LEDGER[2]];
    assert s.accounts["u" := Account(0, 2)] == r.accounts;
    assert s.buckets[1 := First(0, 2, Expired)] == r.buckets;
  }

  lemma ExpiresAlone(s: State, r: State)
    requires 1 in s.buckets && s.buckets[1].id == 1 && DueIds(s.buckets, None, 20) == {1} && PostExpire(s, 1, 20) == Success(r)
    ensures Execute(s, DoExpire(0, 20)) == r
  {
    SingleListing(s.buckets, 1);
    assert ExpireAll(s, [s.buckets[1]], 20) == Success(r);
  }

  lemma Step3()
    ensures Execute(After2(), STEPS[2]) == After3()
  {
    var s, r := After2(), After3();
    ExpiresHeld(s, r);
    assert DueIds(s.buckets, None, 20) == {1};
    ExpiresAlone(s, r);
  }

  lemma Step4()
    ensures Execute(After3(), STEPS[3]) == After4()
  {
    var s := After3();
    assert forall i :: 0 <= i < 3 ==> LEDGER[..3][i].key != CallerKey("back");
    var shares := [Allocation(1, 2)];
    assert shares[1..] == [] && Compact(shares) == shares && TotalAllocated(shares) == 2;
    var freed := After4().buckets;
    assert Settle(s.buckets[1], 2, Release, 5) == First(2, 0, Active) && s.buckets[1 := First(2, 0, Active)] == freed;
    assert SettleAll(freed, [], Release, 5) == Success((freed, 0));
    assert SettleAll(s.buckets, shares, Release, 5) == Success((freed, 2));
    assert s.accounts["u" := Account(2, 0)] == After4().accounts;
    assert s.reservations[0 := Reserved(Released, 5)] == After4().reservations;
    assert SingleBucket(shares) == Some(1) && RestoredAmount(s.reservations[0], shares, 2, Release) == 2;
    assert LEDGER[..4] == LEDGER[..3] + [LEDGER[3]];
    assert PostSettle(s, 0, Release, "back", 5) == Success(After4());
  }

  lemma Step5()
    ensures Execute(After4(), STEPS[4]) == After5()
  {
    assert forall i :: 0 <= i < 4 ==> LEDGER[..4][i].key != CallerKey("second");
    assert LEDGER == LEDGER[..4] + [LEDGER[4]];
  }

  lemma RunStep(s: State, next: State, k: nat)
    requires k < |STEPS| && Execute(s, STEPS[k]) == next
    ensures Run(s, STEPS[k..]) == Run(next, STEPS[k + 1..])
  {
    assert STEPS[k..][0] == STEPS[k] && STEPS[k..][1..] == STEPS[k + 1..];
  }

  lemma RunsThere()
    ensures Run(Empty(USERS), STEPS) == After5()
  {
    Step1();
    Step2(After1(), After2(), HELD, STEPS[1]);
    Step3();
    Step4();
    Step5();
    assert STEPS[0..] == STEPS && STEPS[5..] == [];
    RunStep(Empty(USERS), After1(), 0);
    RunStep(After1(), After2(), 1);
    RunStep(After2(), After3(), 2);
    RunStep(After3(), After4(), 3);
    RunStep(After4(), After5(), 4);
  }

  lemma StillSpendable()
    ensures Spendable(After5(), "u", 30) == 100
  {
    var s := After5();
    assert AvailableIds(s.buckets, "u", 30) == {2};
    var left := RemainingOf(s.buckets, {2});
    TotalRemove(left, 2);
    assert left - {2} == map[];
  }

  lemma SweepRefused(s: State)
    requires s == After5()
    ensures SweepUser(s, "u", 30) == Failure(DuplicateKey)
  {
    assert DueIds(s.buckets, Some("u"), 30) == {1};
    SingleListing(s.buckets, 1);
    assert s.ledger[2].key == ExpireKey(1, Some(10));
    assert PostExpire(s, 1, 30) == Failure(DuplicateKey);
  }

  // A reservation whose sweep is refused.
  lemma RefusedWith(s: State, input: ReserveInput, now: Time)
    requires ReserveRefusal(s.users, input, now).None? && FindReservation(s.reservations, input.key).None?
    requires input.user in s.accounts && SweepUser(s, input.user, now) == Failure(DuplicateKey)
    ensures Reserve(s, input, now) == Failure(DuplicateKey)
  {
  }

  lemma Refused(s: State)
    requires s == After5()
    ensures Reserve(s, ASKED, 30) == Failure(DuplicateKey)
  {
    assert forall i :: 0 <= i < |s.reservations| ==> s.reservations[i].key != "asked";
    SweepRefused(s);
    RefusedWith(s, ASKED, 30);
  }

  // A hundred credits that never expire are there to spend, and a request for one
  // is refused: the first bucket is due again, and its sweep is on the ledger.
  lemma CoveredAndRefused()
    ensures var s := Run(Empty(USERS), STEPS);
            && Spendable(s, "u", 30) >= 1 && ValidRequest(s, ASKED, 30) && FindReservation(s.reservations, "asked").None?
            && Reserve(s, ASKED, 30) == Failure(DuplicateKey)
  {
    RunsThere();
    StillSpendable();
    Refused(After5());
    assert forall i :: 0 <= i < |After5().reservations| ==> After5().reservations[i].key != "asked";
  }

  // ---------------------------------------------------------------- everyone else

  const OTHER := GrantInput("v", 7, "third", Some(Admin), false, None, Some(40))
  const THEN: Operation := DoGrant(OTHER, 3, 30)

  function Third(): Bucket {
    Bucket(3, "v", Admin, Some(40), 7, 7, 0, Active, 30)
  }

  function After6(): State {
    State(USERS, map["u" := Account(102, 0), "v" := Account(7, 0)], map[1 := First(2, 0, Active), 2 := Second(), 3 := Third()],
          [Reserved(Released, 5)],
          LEDGER + [Transaction("v", GrantEntry, 7, 7, 0, CallerKey("third"), Some(3), None, 30)])
  }

  // A first grant to a user without an account.
  lemma FirstGrant(s: State, input: GrantInput, id: BucketId, now: Time)
    requires GrantRefusal(s.users, input).None? && FindKey(s.ledger, CallerKey(input.key)).None?
    requires input.user !in s.accounts && id !in s.buckets
    ensures Execute(s, DoGrant(input, id, now)) ==
              State(s.users, s.accounts[input.user := Account(input.amount, 0)], s.buckets[id := NewBucket(input, id, now)], s.reservations,
                    s.ledger + [Transaction(input.user, GrantEntry, input.amount, input.amount, 0, CallerKey(input.key), Some(id), None, now)])
  {
  }

  lemma Step6(s: State)
    requires s == After5()
    ensures Execute(s, THEN) == After6()
  {
    assert forall i :: 0 <= i < 5 ==> s.ledger[i].key != CallerKey("third");
    FirstGrant(s, OTHER, 3, 30);
  }

  lemma {:induction false} RunThen(s: State, ops: seq<Operation>, op: Operation)
    ensures Run(s, ops + [op]) == Execute(Run(s, ops), op)
    decreases |ops|
  {
    if ops == [] {
      assert ops + [op] == [op] && [op][1..] == [];
    } else {
      assert (ops + [op])[0] == ops[0] && (ops + [op])[1..] == ops[1..] + [op];
      RunThen(Execute(s, ops[0]), ops[1..], op);
    }
  }

  lemma {:induction false} NoRefunds(s: State, ops: seq<Operation>)
    requires forall i :: 0 <= i < |ops| ==> !ops[i].DoClawback?
    ensures RunBucketed(s, ops)
    decreases |ops|
  {
    if ops != [] {
      assert forall i :: 0 <= i < |ops[1..]| ==> ops[1..][i] == ops[i + 1];
      NoRefunds(Execute(s, ops[0]), ops[1..]);
    }
  }

  lemma FirstIsStale(s: State)
    requires s == After6()
    ensures DueIds(s.buckets, None, 50) == {1, 3} && Stale(s, 1) && Before(s.buckets[1], s.buckets[3])
  {
    assert s.ledger[2].key == ExpireKey(1, Some(10));
  }

  lemma ThirdIsFresh(s: State)
    requires s == After6()
    ensures s.buckets[3].owner == "v" && !Stale(s, 3)
  {
  }

  lemma RunsBalanced(ops: seq<Operation>)
    requires forall i :: 0 <= i < |ops| ==> !ops[i].DoClawback?
    ensures Balanced(Run(Empty(USERS), ops))
  {
    NoRefunds(Empty(USERS), ops);
    EveryRunBalances(USERS, ops);
  }

  lemma RunsFurther() returns (ops: seq<Operation>, s: State)
    ensures ops == STEPS + [THEN] && s == After6() && s == Run(Empty(USERS), ops)
  {
    RunsThere();
    RunThen(Empty(USERS), STEPS, THEN);
    Step6(After5());
    ops, s := STEPS + [THEN], After6();
  }

  lemma Blocked(s: State, limit: int)
    requires Balanced(s) && DueIds(s.buckets, None, 50) == {1, 3} && Stale(s, 1) && Before(s.buckets[1], s.buckets[3])
    ensures ExpireBuckets(s, limit, 50) == Failure(DuplicateKey)
  {
    StaleFirst(s, 1, limit, 50);
  }

  // The same run and a grant to somebody else, due at 50: no batch of any size
  // expires it, because the stale bucket comes first and fails them all.
  lemma BatchesBlocked(limit: int) returns (s: State)
    ensures s == Run(Empty(USERS), STEPS + [THEN]) && Balanced(s)
    ensures 3 in DueIds(s.buckets, None, 50) && s.buckets[3].owner == "v" && !Stale(s, 3)
    ensures ExpireBuckets(s, limit, 50) == Failure(DuplicateKey)
  {
    var ops;
    ops, s := RunsFurther();
    assert forall i :: 0 <= i < |ops| ==> !ops[i].DoClawback?;
    RunsBalanced(ops);
    FirstIsStale(s);
    ThirdIsFresh(s);
    Blocked(s, limit);
  }
}
