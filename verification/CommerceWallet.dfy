/** The wallet inside the larger system: whatever payments, deliveries and refunds
    do to it is a run of wallet operations, and only deliveries write ledger
    entries under delivery keys. */
module CommerceWallet {
  import opened Wrappers
  import opened DeliveryKeys
  import opened Commerce
  import opened FulfillmentSpec
  import opened Delivery
  import opened Payments
  import Credits
  import W = WalletSpec
  import WalletRows
  import WalletBalance
  import WalletInvariant
  import WalletKeys
  import LedgerReplay

  ghost predicate RunReaches(users: set<UserId>, ops: seq<W.Operation>, w: W.State) {
    WalletInvariant.RunBucketed(W.Empty(users), ops) && w == W.Run(W.Empty(users), ops)
  }

  ghost predicate Reachable(users: set<UserId>, w: W.State) {
    exists ops :: RunReaches(users, ops, w)
  }

  lemma {:induction false} RunAppend(s: W.State, ops: seq<W.Operation>, op: W.Operation)
    requires WalletInvariant.RunBucketed(s, ops) && WalletRows.Bucketed(W.Run(s, ops), op)
    ensures WalletInvariant.RunBucketed(s, ops + [op]) && W.Run(s, ops + [op]) == W.Execute(W.Run(s, ops), op)
    decreases |ops|
  {
    if ops == [] {
      assert ops + [op] == [op] && [op][1..] == [];
    } else {
      assert (ops + [op])[1..] == ops[1..] + [op];
      RunAppend(W.Execute(s, ops[0]), ops[1..], op);
    }
  }

  lemma ReachableStep(users: set<UserId>, w: W.State, op: W.Operation)
    requires Reachable(users, w) && WalletRows.Bucketed(w, op)
    ensures Reachable(users, W.Execute(w, op))
  {
    var ops :| RunReaches(users, ops, w);
    RunAppend(W.Empty(users), ops, op);
    assert RunReaches(users, ops + [op], W.Execute(w, op));
  }

  lemma EmptyReachable(users: set<UserId>)
    ensures Reachable(users, W.Empty(users))
  {
    assert RunReaches(users, [], W.Empty(users));
  }

  lemma ReachableSound(users: set<UserId>, w: W.State)
    requires Reachable(users, w)
    ensures WalletBalance.Balanced(w) && WalletKeys.KeysSound(w) && LedgerReplay.Faithful(w) && LedgerReplay.NonNegative(w)
  {
    var ops :| RunReaches(users, ops, w);
    WalletInvariant.EveryRunBalances(users, ops);
    LedgerReplay.EveryRunReplays(users, ops);
    WalletKeys.RunKeepsKeys(W.Empty(users), ops);
  }

  // ---------------------------------------------------------------- what a step may add

  predicate ForeignEntry(t: Credits.Transaction) {
    t.key.CallerKey? ==> Foreign(t.key.key)
  }

  ghost predicate AddsForeign(before: seq<Credits.Transaction>, after: seq<Credits.Transaction>) {
    before <= after && forall i :: |before| <= i < |after| ==> ForeignEntry(after[i])
  }

  lemma {:induction false} ExpireAllAddsForeign(s: W.State, rows: seq<Credits.Bucket>, now: Time)
    requires W.ExpireAll(s, rows, now).Success?
    ensures AddsForeign(s.ledger, W.ExpireAll(s, rows, now).value.ledger)
    decreases |rows|
  {
    if rows != [] {
      ExpireAllAddsForeign(W.PostExpire(s, rows[0].id, now).value, rows[1..], now);
    }
  }

  lemma {:induction false} ClawbackAddsForeign(s: W.State, order: W.Order, executions: seq<W.Execution>, now: Time)
    requires W.Clawback(s, order, executions, now).Success?
    ensures AddsForeign(s.ledger, W.Clawback(s, order, executions, now).value.0.ledger)
    decreases |executions|
  {
    if executions != [] {
      if executions[0].credits {
        var first := W.ClawbackOne(s, order, executions[0], now).value;
        ClawbackAddsForeign(first.0, order, executions[1..], now);
      } else {
        ClawbackAddsForeign(s, order, executions[1..], now);
      }
    }
  }

  lemma HoldAddsForeign(s: W.State, input: W.ReserveInput, shares: seq<Credits.Allocation>, now: Time)
    requires W.PostHold(s, input, shares, now).Success?
    ensures AddsForeign(s.ledger, W.PostHold(s, input, shares, now).value.ledger)
  {
  }

  lemma ReserveAddsForeign(s: W.State, input: W.ReserveInput, now: Time)
    requires W.ReserveFresh(s, input, now).Success?
    ensures AddsForeign(s.ledger, W.ReserveFresh(s, input, now).value.ledger)
  {
    var account := W.Open(s, input.user);
    ExpireAllAddsForeign(account, W.Listing(account.buckets, W.DueIds(account.buckets, Some(input.user), now)), now);
    var swept := W.SweepUser(account, input.user, now).value;
    HoldAddsForeign(swept, input, W.Plan(swept, input.user, input.amount, now), now);
  }

  lemma ForeignOperationAdds(s: W.State, op: W.Operation)
    requires ForeignOperation(op) || op.DoClawback?
    ensures AddsForeign(s.ledger, W.Execute(s, op).ledger)
  {
    if W.Attempt(s, op).Success? {
      match op
      case DoReserve(input, now) =>
        if W.FindReservation(s.reservations, input.key).None? {
          ReserveAddsForeign(s, input, now);
        }
      case DoExpire(limit, now) =>
        ExpireAllAddsForeign(s, W.Limited(W.Listing(s.buckets, W.DueIds(s.buckets, None, now)), limit), now);
      case DoClawback(order, executions, now) => ClawbackAddsForeign(s, order, executions, now);
      case _ =>
    }
  }

  // ---------------------------------------------------------------- deliveries

  lemma RuleReaches(users: set<UserId>, s: Store, cat: Catalog, no: OrderNo, order: Order, rule: Rule, chance: Chance, now: Time)
    requires Reachable(users, s.wallet) && ApplyRule(s, cat, no, order, rule, chance, now).outcome.Success?
    ensures Reachable(users, ApplyRule(s, cat, no, order, rule, chance, now).outcome.value.wallet)
  {
    if !IsApplied(s, no, rule.id) && rule.kind.GrantCredits? {
      var op := W.DoFulfill(CreditsInput(no, order, rule, now), chance.ids(rule.id), now);
      assert ApplyRule(s, cat, no, order, rule, chance, now).outcome.value.wallet == W.Execute(s.wallet, op);
      ReachableStep(users, s.wallet, op);
    }
  }

  lemma {:induction false} RulesReach(users: set<UserId>, s: Store, cat: Catalog, no: OrderNo, order: Order, rules: seq<Rule>,
                                      chance: Chance, now: Time)
    requires Reachable(users, s.wallet) && ApplyRules(s, cat, no, order, rules, chance, now).outcome.Success?
    ensures Reachable(users, ApplyRules(s, cat, no, order, rules, chance, now).outcome.value.wallet)
    decreases |rules|
  {
    if rules != [] {
      RuleReaches(users, s, cat, no, order, rules[0], chance, now);
      RulesReach(users, ApplyRule(s, cat, no, order, rules[0], chance, now).outcome.value, cat, no, order, rules[1..], chance, now);
    }
  }

  lemma FulfillReaches(users: set<UserId>, s: Store, cat: Catalog, no: OrderNo, chance: Chance, now: Time)
    requires Reachable(users, s.wallet)
    ensures Reachable(users, FulfillOrder(s, cat, no, chance, now).0.wallet)
  {
    if FulfillInside(s, cat, no, chance, now).outcome.Success? && s.orders[no].status != Fulfilled {
      RulesReach(users, s, cat, no, s.orders[no], RulesFor(cat, s.orders[no].sku), chance, now);
    }
  }

  // ---------------------------------------------------------------- refunds

  // The applied executions of one order.
  ghost predicate ExecutionsOf(s: Store, no: OrderNo, listing: seq<Execution>) {
    && (forall i :: 0 <= i < |listing| ==> listing[i].order == no && listing[i].status == Applied)
    && (forall i :: 0 <= i < |listing| ==>
          ExecutionKey(no, listing[i].rule) in s.executions && s.executions[ExecutionKey(no, listing[i].rule)] == listing[i])
    && (forall i, j :: 0 <= i < j < |listing| ==> listing[i].rule != listing[j].rule)
  }

  ghost predicate Filed(executions: map<string, Execution>) {
    forall key :: key in executions ==> key == ExecutionKey(executions[key].order, executions[key].rule)
  }

  function KeyOf(e: Execution): string {
    ExecutionKey(e.order, e.rule)
  }

  // A listing of records filed under the given keys, each once.
  ghost predicate ListingOf(executions: map<string, Execution>, keys: set<string>, listing: seq<Execution>) {
    && (forall i :: 0 <= i < |listing| ==> Lists(executions, keys, listing[i]))
    && (forall i, j :: 0 <= i < j < |listing| ==> KeyOf(listing[i]) != KeyOf(listing[j]))
  }

  ghost predicate Lists(executions: map<string, Execution>, keys: set<string>, e: Execution) {
    KeyOf(e) in keys && KeyOf(e) in executions && executions[KeyOf(e)] == e
  }

  lemma {:induction false} ListsByKey(executions: map<string, Execution>, keys: set<string>, listing: seq<Execution>)
    requires Filed(executions) && keys <= executions.Keys && IsListing(executions, keys, listing)
    ensures ListingOf(executions, keys, listing)
    decreases |listing|
  {
    if keys != {} {
      var key :| key in keys && executions[key] == listing[0] && IsListing(executions, keys - {key}, listing[1..]);
      ListsByKey(executions, keys - {key}, listing[1..]);
      ListsOneMore(executions, keys, key, listing[1..]);
      assert listing == [executions[key]] + listing[1..];
    }
  }

  lemma ListsOneMore(executions: map<string, Execution>, keys: set<string>, key: string, rest: seq<Execution>)
    requires Filed(executions) && keys <= executions.Keys && key in keys && ListingOf(executions, keys - {key}, rest)
    ensures ListingOf(executions, keys, [executions[key]] + rest)
  {
    var listing := [executions[key]] + rest;
    assert key in executions && KeyOf(executions[key]) == key;
    forall i | 0 <= i < |listing|
      ensures Lists(executions, keys, listing[i]) && (i > 0 ==> KeyOf(listing[i]) != key)
    {
      if i > 0 {
        assert Lists(executions, keys - {key}, rest[i - 1]);
      }
    }
    forall i, j | 0 <= i < j < |listing|
      ensures KeyOf(listing[i]) != KeyOf(listing[j])
    {
      if i > 0 {
        assert listing[i] == rest[i - 1] && listing[j] == rest[j - 1];
      }
    }
  }

  lemma ListsExecutions(s: Store, cat: Catalog, no: OrderNo, listing: seq<Execution>)
    requires RecordsSound(s, cat) && IsListing(s.executions, AppliedKeys(s.executions, no), listing)
    ensures ExecutionsOf(s, no, listing)
  {
    forall key | key in s.executions
      ensures key == ExecutionKey(s.executions[key].order, s.executions[key].rule)
    {
      assert RecordSound(s, cat, key);
    }
    ListsByKey(s.executions, AppliedKeys(s.executions, no), listing);
  }

  lemma AppliedNamesGrant(s: Store, cat: Catalog, no: OrderNo, e: Execution)
    requires RecordsSound(s, cat) && IsApplied(s, no, e.rule) && e == s.executions[ExecutionKey(no, e.rule)] && e.order == no
    ensures no in s.orders && e.user == s.orders[no].user
    ensures e.ref.Some?
    ensures e.target.ToCredits? ==>
              && e.ref.value < |s.wallet.ledger|
              && var t := s.wallet.ledger[e.ref.value];
                 && t.key == Credits.CallerKey(CreditsKey(no, e.rule)) && t.user == e.user
                 && t.kind == Credits.GrantEntry && t.amount > 0 && t.bucket.Some?
    ensures e.target.ToEntitlement? ==>
              e.ref.value < |s.grants| && s.grants[e.ref.value].key == EntitlementKey(no, e.rule) && s.grants[e.ref.value].user == e.user
  {
    assert RecordSound(s, cat, ExecutionKey(no, e.rule));
    var i :| 0 <= i < |RulesFor(cat, e.sku)| && BackedBy(s, e, RulesFor(cat, e.sku)[i]);
  }

  // The refs stay good while the ledger only grows.
  ghost predicate Redeemable(ledger: seq<Credits.Transaction>, e: Execution) {
    e.target.ToCredits? ==> e.ref.Some? && e.ref.value < |ledger| && ledger[e.ref.value].bucket.Some?
  }

  ghost predicate AllRedeemable(ledger: seq<Credits.Transaction>, listing: seq<Execution>) {
    forall i :: 0 <= i < |listing| ==> Redeemable(ledger, listing[i])
  }

  lemma ClawOneStep(users: set<UserId>, w: W.State, order: W.Order, e: Execution, now: Time)
    requires Reachable(users, w) && e.target.ToCredits? && Redeemable(w.ledger, e)
    requires W.ClawbackOne(w, order, WalletExecution(e), now).Success?
    ensures var r := W.ClawbackOne(w, order, WalletExecution(e), now).value.0;
            Reachable(users, r) && AddsForeign(w.ledger, r.ledger)
  {
    var op := W.DoClawback(order, [WalletExecution(e)], now);
    var first := W.ClawbackOne(w, order, WalletExecution(e), now).value;
    assert op.executions[1..] == [];
    assert W.Clawback(first.0, order, [], now) == Success((first.0, 0));
    assert W.Clawback(w, order, op.executions, now) == Success((first.0, first.1 + 0));
    ReachableStep(users, w, op);
    ForeignOperationAdds(w, op);
  }

  // Grants keep their key, owner and kind; they may end, and then never revive.
  ghost predicate SameDeals(before: seq<Grant>, after: seq<Grant>) {
    && |before| == |after|
    && forall i :: 0 <= i < |before| ==> SameDeal(before[i], after[i])
  }

  predicate SameDeal(a: Grant, b: Grant) {
    && a.key == b.key && a.user == b.user && a.entitlement == b.entitlement && a.source == b.source
    && a.startsAt == b.startsAt && (b.status == Active ==> b == a)
  }

  // Money and grants move as a refund moves them; nothing else does.
  ghost predicate Refunding(users: set<UserId>, s: Store, r: Store) {
    && Reachable(users, r.wallet) && AddsForeign(s.wallet.ledger, r.wallet.ledger)
    && r.orders == s.orders && r.executions == s.executions && SameDeals(s.grants, r.grants)
  }

  lemma RefundingThrough(users: set<UserId>, s: Store, m: Store, r: Store)
    requires Refunding(users, s, m) && Refunding(users, m, r)
    ensures Refunding(users, s, r)
  {
    forall i | 0 <= i < |s.grants|
      ensures SameDeal(s.grants[i], r.grants[i])
    {
      assert SameDeal(s.grants[i], m.grants[i]) && SameDeal(m.grants[i], r.grants[i]);
    }
    forall i | |s.wallet.ledger| <= i < |r.wallet.ledger|
      ensures ForeignEntry(r.wallet.ledger[i])
    {
      assert i < |m.wallet.ledger| ==> r.wallet.ledger[i] == m.wallet.ledger[i];
    }
  }

  lemma StillRedeemable(before: seq<Credits.Transaction>, after: seq<Credits.Transaction>, listing: seq<Execution>)
    requires listing != [] && before <= after && AllRedeemable(before, listing)
    ensures AllRedeemable(after, listing[1..])
  {
    forall i | 0 <= i < |listing[1..]|
      ensures Redeemable(after, listing[1..][i])
    {
      assert Redeemable(before, listing[i + 1]);
    }
  }

  // One execution compensated.
  lemma CompensateStep(users: set<UserId>, s: Store, order: W.Order, listing: seq<Execution>, d: Decision, now: Time) returns (m: Store)
    requires listing != [] && Reachable(users, s.wallet) && AllRedeemable(s.wallet.ledger, listing)
    requires Compensate(s, order, listing, d, now).Success?
    ensures Refunding(users, s, m) && AllRedeemable(m.wallet.ledger, listing[1..])
    ensures Compensate(m, order, listing[1..], d, now) == Compensate(s, order, listing, d, now)
  {
    var e := listing[0];
    if e.target.ToEntitlement? {
      m := if d.revoke then s.(grants := Revoke(s.grants, e.ref, now)) else s;
    } else if !d.clawback {
      m := s;
    } else {
      ClawOneStep(users, s.wallet, order, e, now);
      m := s.(wallet := W.ClawbackOne(s.wallet, order, WalletExecution(e), now).value.0);
    }
    StillRedeemable(s.wallet.ledger, m.wallet.ledger, listing);
  }

  lemma {:induction false} CompensateReaches(users: set<UserId>, s: Store, order: W.Order, listing: seq<Execution>, d: Decision, now: Time)
    requires Reachable(users, s.wallet) && Compensate(s, order, listing, d, now).Success?
    requires AllRedeemable(s.wallet.ledger, listing)
    ensures Refunding(users, s, Compensate(s, order, listing, d, now).value)
    decreases |listing|
  {
    if listing != [] {
      var m := CompensateStep(users, s, order, listing, d, now);
      CompensateReaches(users, m, order, listing[1..], d, now);
      RefundingThrough(users, s, m, Compensate(m, order, listing[1..], d, now).value);
    }
  }
}
