/** Credits granted before bucket storage was configured: they are part of the
    balance and of no bucket. What the balance holds beyond the buckets stays
    non-negative - unless a refund takes back such a grant after it was spent. */
module LooseCredits {
  import opened Wrappers
  import opened Totals
  import opened Credits
  import opened WalletSpec
  import opened WalletListing
  import opened WalletRows
  import opened WalletBalance
  import opened WalletInvariant

  // ---------------------------------------------------------------- the invariant

  // What the balance holds beyond the user's buckets.
  ghost function Loose(s: State, user: UserId): int
    requires user in s.accounts
  {
    s.accounts[user].balance - Total(Remainders(s.buckets, user))
  }

  ghost predicate NoneOverdrawn(s: State) {
    forall u :: u in s.accounts ==> 0 <= Loose(s, u)
  }

  ghost predicate BucketsFit(s: State) {
    Solvent(s.buckets) && Keyed(s.buckets) && forall b :: b in s.buckets ==> s.buckets[b].owner in s.accounts
  }

  // A reservation may draw on loose credits: its shares need not cover its amount.
  ghost predicate Fits(s: State, r: Reservation) {
    && r.owner in s.accounts && AllPositive(r.allocations) && TotalAllocated(r.allocations) <= r.amount
    && OwnedBy(s.buckets, r.allocations, r.owner)
  }

  ghost predicate RecordsFit(s: State) {
    && (forall i :: 0 <= i < |s.reservations| ==> Fits(s, s.reservations[i]))
    && (forall i :: 0 <= i < |s.ledger| ==> EntrySound(s, s.ledger[i]))
  }

  ghost predicate Backed(s: State) {
    BucketsFit(s) && RecordsFit(s) && NoneOverdrawn(s)
  }

  // The ledger and the reservations after a row that adds one entry and, perhaps,
  // one reservation or a mark on one.
  lemma RecordsStayFit(s: State, r: State, t: Transaction)
    requires RecordsFit(s) && Extends(s, r) && r.ledger == s.ledger + [t] && EntrySound(r, t)
    requires forall i :: 0 <= i < |r.reservations| && i >= |s.reservations| ==> Fits(r, r.reservations[i])
    requires forall i :: 0 <= i < |s.reservations| ==>
               && i < |r.reservations|
               && r.reservations[i] == s.reservations[i].(status := r.reservations[i].status, finalizedAt := r.reservations[i].finalizedAt)
    ensures RecordsFit(r)
  {
    forall i | 0 <= i < |r.reservations|
      ensures Fits(r, r.reservations[i])
    {
      if i < |s.reservations| {
        assert Fits(s, s.reservations[i]);
      }
    }
    forall i | 0 <= i < |r.ledger|
      ensures EntrySound(r, r.ledger[i])
    {
      if i < |s.ledger| {
        assert EntrySound(s, s.ledger[i]);
      }
    }
  }

  lemma BalanceCovers(s: State, b: BucketId)
    requires BucketsFit(s) && NoneOverdrawn(s) && b in s.buckets
    ensures 0 <= s.buckets[b].remaining <= s.accounts[s.buckets[b].owner].balance
  {
    var user := s.buckets[b].owner;
    TotalNonNegative(Remainders(s.buckets, user));
    assert Remainders(s.buckets, user)[b] == s.buckets[b].remaining;
    assert 0 <= Loose(s, user);
  }

  // ---------------------------------------------------------------- grants

  lemma OpenBacked(s: State, user: UserId)
    requires Backed(s)
    ensures Backed(Open(s, user))
  {
    var r := Open(s, user);
    if user !in s.accounts {
      assert Remainders(s.buckets, user) == map[];
      forall u | u in r.accounts
        ensures 0 <= Loose(r, u)
      {
        assert u in s.accounts ==> 0 <= Loose(s, u);
      }
      forall i | 0 <= i < |r.reservations|
        ensures Fits(r, r.reservations[i])
      {
        assert Fits(s, s.reservations[i]);
      }
      forall i | 0 <= i < |r.ledger|
        ensures EntrySound(r, r.ledger[i])
      {
        assert EntrySound(s, s.ledger[i]);
      }
    }
  }

  lemma GrantLoose(s: State, r: State, k: Bucket, t: Transaction)
    requires BucketsFit(s) && NoneOverdrawn(s) && GrantedInto(s, r, k, t)
    ensures NoneOverdrawn(r)
  {
    forall u | u in r.accounts
      ensures 0 <= Loose(r, u)
    {
      BucketAdded(s.buckets, k, u);
      assert 0 <= Loose(s, u);
    }
  }

  lemma GrantFits(s: State, r: State, k: Bucket, t: Transaction)
    requires BucketsFit(s) && RecordsFit(s) && GrantedInto(s, r, k, t)
    requires 0 < k.remaining && k.reserved == 0 && k.status == Active
    ensures BucketsFit(r) && RecordsFit(r)
  {
    RecordsStayFit(s, r, t);
  }

  lemma GrantBacked(s: State, user: UserId, amount: int, key: string, bucket: Bucket, now: Time)
    requires Backed(s) && Legal(s, GrantRow(user, amount, key, bucket), now) && PostGrant(s, user, amount, key, bucket, now).Success?
    ensures Backed(PostGrant(s, user, amount, key, bucket, now).value)
  {
    var r := PostGrant(s, user, amount, key, bucket, now).value;
    var t := r.ledger[|s.ledger|];
    GrantShape(s, bucket, key, now);
    GrantLoose(s, r, bucket, t);
    GrantFits(s, r, bucket, t);
  }

  // A grant while bucket storage is not configured: an entry, and no bucket.
  function PostLooseGrant(s: State, user: UserId, amount: int, key: string, now: Time): Outcome<State> {
    if user !in s.accounts then Failure(RecordNotFound)
    else
      var a := s.accounts[user];
      Record(SetAccount(s, user, a.balance + amount, a.reserved), user, GrantEntry, amount, CallerKey(key), None, None, now)
  }

  function LooseGrant(s: State, user: UserId, amount: int, key: string, now: Time): Outcome<State> {
    if amount <= 0 then Failure(InvalidCreditAmount)
    else if FindKey(s.ledger, CallerKey(key)).Some? then Success(s)
    else PostLooseGrant(Open(s, user), user, amount, key, now)
  }

  // Only one account's figures change, and no bucket.
  lemma OnlyAccountMoves(s: State, r: State, user: UserId, t: Transaction)
    requires Backed(s) && user in s.accounts && r.accounts.Keys == s.accounts.Keys && r.buckets == s.buckets && r.reservations == s.reservations
    requires forall u :: u in s.accounts && u != user ==> r.accounts[u] == s.accounts[u]
    requires r.ledger == s.ledger + [t] && t.bucket.None?
    ensures Backed(r) <==> 0 <= Loose(s, user) + r.accounts[user].balance - s.accounts[user].balance
  {
    RecordsStayFit(s, r, t);
    forall u | u in s.accounts
      ensures 0 <= Loose(s, u) && Loose(r, u) == Loose(s, u) + r.accounts[u].balance - s.accounts[u].balance
    {
      assert 0 <= Loose(s, u);
    }
  }

  lemma LooseGrantBacked(s: State, user: UserId, amount: int, key: string, now: Time)
    requires Backed(s) && LooseGrant(s, user, amount, key, now).Success?
    ensures Backed(LooseGrant(s, user, amount, key, now).value)
  {
    var start, r := Open(s, user), LooseGrant(s, user, amount, key, now).value;
    OpenBacked(s, user);
    if FindKey(s.ledger, CallerKey(key)).None? {
      OnlyAccountMoves(start, r, user, r.ledger[|start.ledger|]);
      assert 0 <= Loose(start, user);
    }
  }

  // ---------------------------------------------------------------- expiries and clawbacks

  lemma TakenFits(s: State, r: State, b: BucketId, amount: int, t: Transaction)
    requires BucketsFit(s) && RecordsFit(s) && TakenFrom(s, r, b, amount, t)
    ensures BucketsFit(r) && RecordsFit(r)
  {
    RecordsStayFit(s, r, t);
  }

  lemma TakenBacked(s: State, r: State, b: BucketId, amount: int, t: Transaction)
    requires Backed(s) && TakenFrom(s, r, b, amount, t)
    ensures Backed(r)
  {
    TakenFits(s, r, b, amount, t);
    forall u | u in r.accounts
      ensures 0 <= Loose(r, u)
    {
      BucketChange(s.buckets, b, r.buckets[b], u);
      assert 0 <= Loose(s, u);
    }
  }

  lemma ExpireBacked(s: State, bucket: BucketId, now: Time)
    requires Backed(s) && PostExpire(s, bucket, now).Success?
    ensures Backed(PostExpire(s, bucket, now).value)
  {
    var r := PostExpire(s, bucket, now).value;
    BalanceCovers(s, bucket);
    ExpireShape(s, bucket, now);
    TakenBacked(s, r, bucket, s.buckets[bucket].remaining, r.ledger[|s.ledger|]);
  }

  lemma BucketedClawbackBacked(s: State, order: Order, rule: string, id: TransactionId, now: Time)
    requires Backed(s) && PostClawback(s, order, rule, id, now).Success? && s.ledger[id].bucket.Some?
    ensures Backed(PostClawback(s, order, rule, id, now).value)
  {
    var r, b := PostClawback(s, order, rule, id, now).value, s.ledger[id].bucket.value;
    assert EntrySound(s, s.ledger[id]);
    BalanceCovers(s, b);
    ClawbackShape(s, order, rule, id, b, now);
    TakenBacked(s, r, b, Min(s.ledger[id].amount, s.buckets[b].remaining), r.ledger[|s.ledger|]);
  }

  // What a refund may take back of a grant: all of it is still loose, or no bucket
  // of the user holds anything.
  ghost predicate MayTakeBack(s: State, id: TransactionId)
    requires id < |s.ledger|
  {
    var t := s.ledger[id];
    t.bucket.Some? || (t.user in s.accounts && (t.amount <= Loose(s, t.user) || Total(Remainders(s.buckets, t.user)) == 0))
  }

  lemma LooseClawbackShape(s: State, order: Order, rule: string, id: TransactionId, now: Time)
    requires PostClawback(s, order, rule, id, now).Success? && s.ledger[id].bucket.None?
    ensures var r, user := PostClawback(s, order, rule, id, now).value, s.ledger[id].user;
            var taken := Min(s.ledger[id].amount, s.accounts[user].balance);
            && user in s.accounts && |s.ledger| < |r.ledger| && r.ledger == s.ledger + [r.ledger[|s.ledger|]] && r.ledger[|s.ledger|].bucket.None?
            && r.accounts.Keys == s.accounts.Keys && r.buckets == s.buckets && r.reservations == s.reservations
            && (forall u :: u in s.accounts && u != user ==> r.accounts[u] == s.accounts[u])
            && r.accounts[user].balance == s.accounts[user].balance - (if taken > 0 then taken else 0)
  {
  }

  // Main result: a refund of a grant keeps the balance above the buckets exactly if
  // the grant had a bucket, or is still loose as a whole, or no bucket of the user
  // holds anything.
  lemma RefundDecided(s: State, order: Order, rule: string, id: TransactionId, now: Time)
    requires Backed(s) && PostClawback(s, order, rule, id, now).Success?
    ensures Backed(PostClawback(s, order, rule, id, now).value) <==> MayTakeBack(s, id)
  {
    if s.ledger[id].bucket.Some? {
      BucketedClawbackBacked(s, order, rule, id, now);
    } else {
      var r, user := PostClawback(s, order, rule, id, now).value, s.ledger[id].user;
      LooseClawbackShape(s, order, rule, id, now);
      OnlyAccountMoves(s, r, user, r.ledger[|s.ledger|]);
      TotalNonNegative(Remainders(s.buckets, user));
      assert 0 <= Loose(s, user);
    }
  }

  // ---------------------------------------------------------------- reservations

  lemma HoldLoose(s: State, r: State, x: Reservation, t: Transaction)
    requires NoneOverdrawn(s) && HeldFor(s, r, x, t) && OwnedBy(s.buckets, x.allocations, x.owner)
    requires x.amount - TotalAllocated(x.allocations) <= Loose(s, x.owner)
    ensures NoneOverdrawn(r)
  {
    forall u | u in r.accounts
      ensures 0 <= Loose(r, u)
    {
      HoldAllTotals(s.buckets, x.allocations, x.owner, u);
      assert 0 <= Loose(s, u);
    }
  }

  lemma HoldFits(s: State, r: State, x: Reservation, t: Transaction)
    requires BucketsFit(s) && RecordsFit(s) && HeldFor(s, r, x, t) && AllPositive(x.allocations)
    requires OwnedBy(s.buckets, x.allocations, x.owner) && TotalAllocated(x.allocations) <= x.amount
    ensures BucketsFit(r) && RecordsFit(r)
  {
    HoldAllEffect(s.buckets, x.allocations);
    if |x.allocations| == 1 {
      assert x.allocations[0] in x.allocations;
    }
    RecordsStayFit(s, r, t);
  }

  // The plan takes what the buckets have, up to the amount; the rest is loose.
  lemma PlanFits(s: State, user: UserId, amount: int, now: Time)
    requires BucketsFit(s) && user in s.accounts && DueIds(s.buckets, Some(user), now) == {}
    requires 0 < amount <= s.accounts[user].balance
    ensures var plan := Plan(s, user, amount, now);
            && AllPositive(plan) && OwnedBy(s.buckets, plan, user) && TotalAllocated(plan) <= amount
            && (0 <= Loose(s, user) ==> amount - TotalAllocated(plan) <= Loose(s, user))
  {
    PlanTotals(s, user, amount, now);
    AvailableIsEverything(s, user, now);
  }

  lemma HoldBacked(s: State, input: ReserveInput, allocations: seq<Allocation>, now: Time)
    requires Backed(s) && Legal(s, HoldRow(input, allocations), now) && PostHold(s, input, allocations, now).Success?
    ensures Backed(PostHold(s, input, allocations, now).value)
  {
    var r := PostHold(s, input, allocations, now).value;
    PlanFits(s, input.user, input.amount, now);
    assert 0 <= Loose(s, input.user);
    HoldShape(s, input, allocations, now);
    var x := Reservation(input.user, input.amount, Pending, input.key, allocations, input.expiresAt, now);
    HoldLoose(s, r, x, r.ledger[|s.ledger|]);
    HoldFits(s, r, x, r.ledger[|s.ledger|]);
  }

  // The state after a commit or release, whose shares may fall short of its amount.
  ghost predicate SettledLoosely(s: State, r: State, id: ReservationId, finality: Finality, now: Time, t: Transaction) {
    && id < |s.reservations|
    && var x := s.reservations[id];
    && x.owner in s.accounts
    && var settled := SettleAll(s.buckets, x.allocations, finality, now);
    && settled.Success? && r.buckets == settled.value.0
    && r.accounts.Keys == s.accounts.Keys
    && (forall u :: u in s.accounts && u != x.owner ==> r.accounts[u] == s.accounts[u])
    && s.accounts[x.owner].balance + settled.value.1 <= r.accounts[x.owner].balance
    && r.reservations == s.reservations[id := x.(status := if finality.Commit? then Committed else Released, finalizedAt := now)]
    && r.ledger == s.ledger + [t] && t.user == x.owner
    && t.bucket == (if |x.allocations| == 1 then Some(x.allocations[0].bucket) else None)
  }

  lemma SettleLooseShape(s: State, id: ReservationId, finality: Finality, key: string, now: Time)
    requires Solvent(s.buckets) && PostSettle(s, id, finality, key, now).Success? && Fits(s, s.reservations[id])
    ensures var r := PostSettle(s, id, finality, key, now).value;
            |s.ledger| < |r.ledger| && SettledLoosely(s, r, id, finality, now, r.ledger[|s.ledger|])
  {
    CompactKeepsPositive(s.reservations[id].allocations);
    SettleAllEffect(s.buckets, s.reservations[id].allocations, finality, now);
  }

  lemma SettleLoose(s: State, r: State, id: ReservationId, finality: Finality, now: Time, t: Transaction)
    requires NoneOverdrawn(s) && SettledLoosely(s, r, id, finality, now, t) && Fits(s, s.reservations[id])
    ensures NoneOverdrawn(r)
  {
    var x := s.reservations[id];
    forall u | u in r.accounts
      ensures 0 <= Loose(r, u)
    {
      SettleAllTotals(s.buckets, x.allocations, finality, now, x.owner, u);
      assert 0 <= Loose(s, u);
    }
  }

  lemma SettleFits(s: State, r: State, id: ReservationId, finality: Finality, now: Time, t: Transaction)
    requires BucketsFit(s) && RecordsFit(s) && SettledLoosely(s, r, id, finality, now, t)
    ensures BucketsFit(r) && RecordsFit(r)
  {
    var x := s.reservations[id];
    assert Fits(s, x);
    SettleAllEffect(s.buckets, x.allocations, finality, now);
    if |x.allocations| == 1 {
      assert x.allocations[0] in x.allocations;
    }
    RecordsStayFit(s, r, t);
  }

  lemma SettleBacked(s: State, id: ReservationId, finality: Finality, key: string, now: Time)
    requires Backed(s) && PostSettle(s, id, finality, key, now).Success?
    ensures Backed(PostSettle(s, id, finality, key, now).value)
  {
    var r := PostSettle(s, id, finality, key, now).value;
    assert Fits(s, s.reservations[id]);
    SettleLooseShape(s, id, finality, key, now);
    SettleLoose(s, r, id, finality, now, r.ledger[|s.ledger|]);
    SettleFits(s, r, id, finality, now, r.ledger[|s.ledger|]);
  }

  // ---------------------------------------------------------------- runs

  lemma RowBacked(s: State, row: Row, now: Time)
    requires Backed(s) && Legal(s, row, now) && Post(s, row, now).Success?
    ensures Backed(Post(s, row, now).value)
  {
    match row
    case OpenRow(user) => OpenBacked(s, user);
    case GrantRow(user, amount, key, bucket) => GrantBacked(s, user, amount, key, bucket, now);
    case ExpireRow(bucket) => ExpireBacked(s, bucket, now);
    case HoldRow(input, allocations) => HoldBacked(s, input, allocations, now);
    case SettleRow(id, finality, key) => SettleBacked(s, id, finality, key, now);
    case ClawbackRow(order, rule, original) => BucketedClawbackBacked(s, order, rule, original, now);
  }

  lemma {:induction false} RowsBacked(s: State, rows: seq<Row>, now: Time, s': State)
    requires Backed(s) && Posted(s, rows, now, s', true)
    ensures Backed(s')
    decreases |rows|
  {
    if rows != [] {
      RowBacked(s, rows[0], now);
      RowsBacked(Post(s, rows[0], now).value, rows[1..], now, s');
    }
  }

  // Each grant a refund takes back can be taken back at its turn.
  ghost predicate RefundsFit(s: State, order: Order, executions: seq<Execution>, now: Time)
    decreases |executions|
  {
    executions == [] || (
      var e := executions[0];
      if !e.credits then RefundsFit(s, order, executions[1..], now)
      else
        && (e.resultRef.Some? && e.resultRef.value < |s.ledger| ==> MayTakeBack(s, e.resultRef.value))
        && (ClawbackOne(s, order, e, now).Success? ==> RefundsFit(ClawbackOne(s, order, e, now).value.0, order, executions[1..], now)))
  }

  lemma {:induction false} RefundBacked(s: State, order: Order, executions: seq<Execution>, now: Time)
    requires Backed(s) && RefundsFit(s, order, executions, now) && Clawback(s, order, executions, now).Success?
    ensures Backed(Clawback(s, order, executions, now).value.0)
    decreases |executions|
  {
    if executions != [] {
      var e := executions[0];
      if !e.credits {
        RefundBacked(s, order, executions[1..], now);
      } else {
        var r := ClawbackOne(s, order, e, now).value.0;
        if r != s {
          RefundDecided(s, order, e.rule, e.resultRef.value, now);
        }
        RefundBacked(r, order, executions[1..], now);
      }
    }
  }

  datatype Event = Ordinary(op: Operation) | BeforeBuckets(user: UserId, amount: int, key: string, now: Time)

  ghost function Happen(s: State, e: Event): State {
    match e
    case Ordinary(op) => Execute(s, op)
    case BeforeBuckets(user, amount, key, now) =>
      var r := LooseGrant(s, user, amount, key, now);
      if r.Success? then r.value else s
  }

  ghost function Live(s: State, events: seq<Event>): State
    decreases |events|
  {
    if events == [] then s else Live(Happen(s, events[0]), events[1..])
  }

  ghost predicate EventFits(s: State, e: Event) {
    e.Ordinary? && e.op.DoClawback? ==> RefundsFit(s, e.op.order, e.op.executions, e.op.now)
  }

  ghost predicate AllFit(s: State, events: seq<Event>)
    decreases |events|
  {
    events == [] || (EventFits(s, events[0]) && AllFit(Happen(s, events[0]), events[1..]))
  }

  lemma OperationBacked(s: State, op: Operation)
    requires Backed(s) && !op.DoClawback?
    ensures Backed(Execute(s, op))
  {
    var rows := OperationIsRows(s, op, true);
    RowsBacked(s, rows, op.now, Execute(s, op));
  }

  lemma EventBacked(s: State, e: Event)
    requires Backed(s) && EventFits(s, e)
    ensures Backed(Happen(s, e))
  {
    match e
    case BeforeBuckets(user, amount, key, now) =>
      if LooseGrant(s, user, amount, key, now).Success? {
        LooseGrantBacked(s, user, amount, key, now);
      }
    case Ordinary(op) =>
      if !op.DoClawback? {
        OperationBacked(s, op);
      } else if Clawback(s, op.order, op.executions, op.now).Success? {
        RefundBacked(s, op.order, op.executions, op.now);
      }
  }

  lemma {:induction false} LiveBacked(s: State, events: seq<Event>)
    requires Backed(s) && AllFit(s, events)
    ensures Backed(Live(s, events))
    decreases |events|
  {
    if events != [] {
      EventBacked(s, events[0]);
      LiveBacked(Happen(s, events[0]), events[1..]);
    }
  }

  // Main result, over runs: grants from before bucket storage and after it, in any
  // mix with all other operations, keep every balance at or above its buckets as
  // long as refunds fit.
  lemma EveryLifeBacked(users: set<UserId>, events: seq<Event>)
    requires AllFit(Empty(users), events)
    ensures Backed(Live(Empty(users), events))
  {
    LiveBacked(Empty(users), events);
  }

  // Where the stricter invariant holds, nothing is loose.
  lemma BalancedIsBacked(s: State)
    requires Balanced(s)
    ensures Backed(s) && forall u :: u in s.accounts ==> Loose(s, u) == 0
  {
    BalancedSolvent(s);
    forall u | u in s.accounts
      ensures Loose(s, u) == 0
    {
      assert AccountSound(s, u);
    }
    forall b | b in s.buckets
      ensures s.buckets[b].owner in s.accounts
    {
      assert BucketSound(s, b);
    }
    forall i | 0 <= i < |s.reservations|
      ensures Fits(s, s.reservations[i])
    {
      assert ReservationSound(s, s.reservations[i]);
    }
  }

  // ---------------------------------------------------------------- a refund that does not fit

  const EARLY := BeforeBuckets("u", 5, "early", 0)
  const HELD := ReserveInput("u", 2, "held", None)
  const LATER := GrantInput("u", 4, "later", Some(Admin), false, None, None)
  const REFUND := Order("order", "u")

  // Five credits without a bucket, two of them held, four more with a bucket.
  const EVENTS := [EARLY, Ordinary(DoReserve(HELD, 1)), Ordinary(DoGrant(LATER, 1, 2))]

  function Entry(kind: TransactionKind, amount: int, balance: int, reserved: int, key: LedgerKey, bucket: Option<BucketId>,
                 reservation: Option<ReservationId>, at: Time): Transaction
  {
    Transaction("u", kind, amount, balance, reserved, key, bucket, reservation, at)
  }

  function Entries(): seq<Transaction> {
    [Entry(GrantEntry, 5, 5, 0, CallerKey("early"), None, None, 0), Entry(ReserveEntry, -2, 3, 2, ReserveKey("held"), None, Some(0), 1),
     Entry(GrantEntry, 4, 7, 2, CallerKey("later"), Some(1), None, 2)]
  }

  function After1(): State {
    State({"u"}, map["u" := Account(5, 0)], map[], [], Entries()[..1])
  }

  function After2(): State {
    State({"u"}, map["u" := Account(3, 2)], map[], [Reservation("u", 2, Pending, "held", [], None, 1)], Entries()[..2])
  }

  function After3(): State {
    State({"u"}, map["u" := Account(7, 2)], map[1 := Bucket(1, "u", Admin, None, 4, 4, 0, Active, 2)],
          [Reservation("u", 2, Pending, "held", [], None, 1)], Entries())
  }

  lemma Happens1(s: State)
    requires s == Empty({"u"})
    ensures Happen(s, EARLY) == After1()
  {
    assert Entries()[..1] == [Entries()[0]];
  }

  lemma NothingListed(s: State, user: UserId, now: Time)
    requires s.buckets == map[]
    ensures SweepUser(s, user, now) == Success(s) && Plan(s, user, 2, now) == []
  {
    assert DueIds(s.buckets, Some(user), now) == {} && AvailableIds(s.buckets, user, now) == {};
  }

  lemma HeldLoosely(s: State, r: State, now: Time)
    requires s == After1() && r == After2() && now == 1
    ensures PostHold(s, HELD, [], now) == Success(r)
  {
    assert Entries()[..2] == Entries()[..1] + [Entries()[1]];
    assert s.accounts["u" := Account(3, 2)] == r.accounts;
    assert forall i :: 0 <= i < |s.ledger| ==> s.ledger[i].key != ReserveKey("held");
    assert HoldAll(s.buckets, Compact([])) == Success(s.buckets) && SingleBucket([]) == None;
    assert s.reservations + [Reservation("u", 2, Pending, "held", [], None, 1)] == r.reservations;
  }

  lemma Happens2(s: State, op: Operation)
    requires s == After1() && op == DoReserve(HELD, 1)
    ensures Execute(s, op) == After2()
  {
    NothingListed(s, "u", 1);
    HeldLoosely(s, After2(), 1);
    assert ReserveFresh(s, HELD, 1) == Success(After2());
  }

  lemma Happens3(s: State, op: Operation)
    requires s == After2() && op == DoGrant(LATER, 1, 2)
    ensures Execute(s, op) == After3()
  {
    assert forall i :: 0 <= i < 2 ==> s.ledger[i].key != CallerKey("later");
    assert Entries() == Entries()[..2] + [Entries()[2]];
  }

  lemma LiveIsThree(s: State, events: seq<Event>, s1: State, s2: State, s3: State)
    requires |events| == 3
    requires s1 == Happen(s, events[0]) && s2 == Happen(s1, events[1]) && s3 == Happen(s2, events[2])
    ensures Live(s, events) == s3
    ensures EventFits(s, events[0]) && EventFits(s1, events[1]) && EventFits(s2, events[2]) ==> AllFit(s, events)
  {
    assert events[1..][0] == events[1] && events[1..][1..] == events[2..];
    assert events[2..][0] == events[2] && events[2..][1..] == [];
    assert Live(s, events) == Live(s1, events[1..]) && Live(s1, events[1..]) == Live(s2, events[2..]);
    assert Live(s2, events[2..]) == Live(s3, []);
    assert AllFit(s3, []) && (AllFit(s2, events[2..]) <==> EventFits(s2, events[2]));
    assert AllFit(s1, events[1..]) <==> EventFits(s1, events[1]) && AllFit(s2, events[2..]);
  }

  lemma LivesThere(events: seq<Event>) returns (s: State)
    requires events == EVENTS
    ensures s == Live(Empty({"u"}), events) && s == After3() && AllFit(Empty({"u"}), events)
  {
    var start, s1, s2 := Empty({"u"}), After1(), After2();
    s := After3();
    Happens1(start);
    Happens2(s1, DoReserve(HELD, 1));
    Happens3(s2, DoGrant(LATER, 1, 2));
    LiveIsThree(start, events, s1, s2, s);
  }

  lemma SpentAndBucketed(s: State) returns (r: State)
    requires s == After3()
    ensures Total(Remainders(s.buckets, "u")) == 4 && Loose(s, "u") == 3
    ensures PostClawback(s, REFUND, "rule", 0, 3) == Success(r)
    ensures "u" in r.accounts && r.accounts["u"].balance == 2 && r.buckets == s.buckets
  {
    var left := Remainders(s.buckets, "u");
    TotalRemove(left, 1);
    assert left - {1} == map[];
    assert forall i :: 0 <= i < 3 ==> s.ledger[i].key != ClawbackKey("order", "rule");
    r := PostClawback(s, REFUND, "rule", 0, 3).value;
  }

  // Refunding the five takes them from a balance of seven, and the bucket of four is
  // no longer covered.
  lemma LooseAndOverdrawn() returns (s: State, r: State)
    ensures s == Live(Empty({"u"}), EVENTS) && Backed(s)
    ensures PostClawback(s, REFUND, "rule", 0, 3) == Success(r) && !MayTakeBack(s, 0) && !Backed(r)
    ensures "u" in r.accounts && r.accounts["u"].balance == 2 && 1 in r.buckets && r.buckets[1].remaining == 4
  {
    var events := EVENTS;
    s := LivesThere(events);
    EveryLifeBacked({"u"}, events);
    r := SpentAndBucketed(s);
    RefundDecided(s, REFUND, "rule", 0, 3);
  }
}
