/** Safety of the whole payment system over every run: duplicate webhooks, retries,
    failures at any point, refunds, renewals and everyday wallet use, in any order. */
module CommerceRuns {
  import opened Wrappers
  import opened DeliveryKeys
  import opened Commerce
  import opened FulfillmentSpec
  import opened Delivery
  import opened Payments
  import opened PaymentInbox
  import opened CommerceWallet
  import opened InboxSafety
  import Credits
  import W = WalletSpec
  import WalletBalance
  import WalletKeys
  import LedgerReplay

  // ---------------------------------------------------------------- steps beside delivery

  predicate SameBuyer(a: Order, b: Order) {
    a.user == b.user && a.sku == b.sku && a.kind == b.kind && a.key == b.key && (b.status == Fulfilled ==> a.status == Fulfilled)
  }

  ghost predicate OrdersMove(before: map<OrderNo, Order>, after: map<OrderNo, Order>) {
    && (forall no :: no in before ==> no in after && SameBuyer(before[no], after[no]))
    && (forall no :: no in after && no !in before ==> after[no].status != Fulfilled)
  }

  ghost predicate GrantsMove(before: seq<Grant>, after: seq<Grant>) {
    && |before| <= |after|
    && (forall i :: 0 <= i < |before| ==> SameDeal(before[i], after[i]))
    && (forall i :: |before| <= i < |after| ==> Foreign(after[i].key))
    && (GrantKeysUnique(before) ==> GrantKeysUnique(after))
  }

  // A step that delivers nothing: statuses may move, grants may end, credits may
  // flow, but nothing appears under a delivery key.
  ghost predicate Beside(s: Store, r: Store) {
    && r.executions == s.executions
    && OrdersMove(s.orders, r.orders) && GrantsMove(s.grants, r.grants)
    && AddsForeign(s.wallet.ledger, r.wallet.ledger)
  }

  lemma BesideRecords(s: Store, r: Store, cat: Catalog)
    requires Beside(s, r) && RecordsSound(s, cat)
    ensures RecordsSound(r, cat)
  {
    forall key | key in r.executions
      ensures RecordSound(r, cat, key)
    {
      assert RecordSound(s, cat, key);
      var e := s.executions[key];
      if e.status == Applied {
        var i :| 0 <= i < |RulesFor(cat, e.sku)| && BackedBy(s, e, RulesFor(cat, e.sku)[i]);
        assert BackedBy(r, e, RulesFor(cat, e.sku)[i]);
      }
    }
  }

  lemma BesideOnRecord(s: Store, r: Store)
    requires Beside(s, r) && NothingOffRecord(s) && WalletKeys.KeysUnique(r.wallet.ledger)
    ensures NothingOffRecord(r)
  {
    forall no: OrderNo, rule, i | 0 <= i < |r.grants| && r.grants[i].key == EntitlementKey(no, rule)
      ensures Names(r, no, rule, i, true)
    {
      TargetKeysAreOurs(no, rule);
      assert i < |s.grants| && SameDeal(s.grants[i], r.grants[i]);
      assert Names(s, no, rule, i, true);
    }
    forall no: OrderNo, rule, i | 0 <= i < |r.wallet.ledger| && r.wallet.ledger[i].key == Credits.CallerKey(CreditsKey(no, rule))
      ensures Names(r, no, rule, i, false)
    {
      TargetKeysAreOurs(no, rule);
      assert !ForeignEntry(r.wallet.ledger[i]);
      assert i < |s.wallet.ledger|;
      assert Names(s, no, rule, i, false);
    }
  }

  lemma BesideComplete(s: Store, r: Store, cat: Catalog)
    requires Beside(s, r) && AllOrNothing(s, cat) && RecordsSound(s, cat)
    ensures AllOrNothing(r, cat)
  {
    forall no | no in r.orders && (r.orders[no].status == Fulfilled || exists q :: IsApplied(r, no, q))
      ensures Complete(r, cat, no)
    {
      if no !in s.orders {
        var q :| IsApplied(r, no, q);
        assert RecordSound(s, cat, ExecutionKey(no, q));
        var e := s.executions[ExecutionKey(no, q)];
        ExecutionKeyUnique(no, q, e.order, e.rule);
        assert false;
      } else {
        assert SameBuyer(s.orders[no], r.orders[no]);
        assert forall q :: IsApplied(r, no, q) ==> IsApplied(s, no, q);
        assert Complete(s, cat, no);
      }
    }
  }

  lemma BesideKeeps(s: Store, r: Store, cat: Catalog)
    requires Beside(s, r) && Delivered(s, cat) && WalletKeys.KeysUnique(r.wallet.ledger)
    ensures Delivered(r, cat)
  {
    BesideRecords(s, r, cat);
    BesideOnRecord(s, r);
    BesideComplete(s, r, cat);
  }

  lemma BesideThrough(s: Store, m: Store, r: Store)
    requires Beside(s, m) && Beside(m, r)
    ensures Beside(s, r)
  {
    forall no | no in s.orders
      ensures no in r.orders && SameBuyer(s.orders[no], r.orders[no])
    {
      assert SameBuyer(s.orders[no], m.orders[no]);
    }
    forall no | no in r.orders && no !in s.orders
      ensures r.orders[no].status != Fulfilled
    {
      if no in m.orders {
        assert SameBuyer(m.orders[no], r.orders[no]);
      }
    }
    forall i | 0 <= i < |s.grants|
      ensures SameDeal(s.grants[i], r.grants[i])
    {
      assert SameDeal(s.grants[i], m.grants[i]) && SameDeal(m.grants[i], r.grants[i]);
    }
    forall i | |s.grants| <= i < |r.grants|
      ensures Foreign(r.grants[i].key)
    {
      if i < |m.grants| {
        assert SameDeal(m.grants[i], r.grants[i]);
      }
    }
    forall i | |s.wallet.ledger| <= i < |r.wallet.ledger|
      ensures ForeignEntry(r.wallet.ledger[i])
    {
      if i < |m.wallet.ledger| {
        assert r.wallet.ledger[i] == m.wallet.ledger[i];
      }
    }
  }

  // ---------------------------------------------------------------- what lasts

  ghost predicate SameBuyers(before: map<OrderNo, Order>, after: map<OrderNo, Order>) {
    forall no :: no in before ==>
      && no in after && after[no].user == before[no].user && after[no].sku == before[no].sku
      && after[no].kind == before[no].kind && after[no].key == before[no].key
  }

  // Every delivery made stays on record with the grant or entry it made; orders and
  // grants keep their owner, ledger entries everything.
  ghost predicate Lasting(s: Store, r: Store) {
    && SameBuyers(s.orders, r.orders)
    && (forall no: OrderNo, rule :: IsApplied(s, no, rule) ==>
          IsApplied(r, no, rule) && r.executions[ExecutionKey(no, rule)] == s.executions[ExecutionKey(no, rule)])
    && |s.grants| <= |r.grants| && (forall i :: 0 <= i < |s.grants| ==> SameDeal(s.grants[i], r.grants[i]))
    && s.wallet.ledger <= r.wallet.ledger
  }

  lemma LastingThrough(s: Store, m: Store, r: Store)
    requires Lasting(s, m) && Lasting(m, r)
    ensures Lasting(s, r)
  {
    forall no: OrderNo, rule | IsApplied(s, no, rule)
      ensures IsApplied(r, no, rule) && r.executions[ExecutionKey(no, rule)] == s.executions[ExecutionKey(no, rule)]
    {
      assert IsApplied(m, no, rule);
    }
    forall i | 0 <= i < |s.grants|
      ensures SameDeal(s.grants[i], r.grants[i])
    {
      assert SameDeal(s.grants[i], m.grants[i]) && SameDeal(m.grants[i], r.grants[i]);
    }
  }

  lemma BesideLasts(s: Store, r: Store)
    requires Beside(s, r)
    ensures Lasting(s, r)
  {
    assert forall no :: no in s.orders ==> SameBuyer(s.orders[no], r.orders[no]);
  }

  lemma PreservedLasts(s: Store, r: Store)
    requires Preserves(s, r) && SameBuyers(s.orders, r.orders)
    ensures Lasting(s, r)
  {
    assert forall i :: 0 <= i < |s.grants| ==> r.grants[i] == s.grants[i];
  }

  // ---------------------------------------------------------------- invariant of the stores

  ghost predicate OrderKeysUnique(orders: map<OrderNo, Order>) {
    forall a, b :: a in orders && b in orders && a != b && orders[a].key.Some? ==> orders[a].key != orders[b].key
  }

  ghost predicate Safe(s: Store, cat: Catalog, users: set<UserId>) {
    Delivered(s, cat) && Reachable(users, s.wallet) && OrderKeysUnique(s.orders)
  }

  lemma BesideSafe(s: Store, r: Store, cat: Catalog, users: set<UserId>)
    requires Safe(s, cat, users) && Beside(s, r) && Reachable(users, r.wallet) && OrderKeysUnique(r.orders)
    ensures Safe(r, cat, users)
  {
    ReachableSound(users, r.wallet);
    BesideKeeps(s, r, cat);
  }

  lemma SetOrderBeside(s: Store, no: OrderNo, order: Order)
    requires if no in s.orders then SameBuyer(s.orders[no], order) else order.status != Fulfilled
    ensures Beside(s, SetOrder(s, no, order))
  {
  }

  // An order is updated in place, its key kept.
  lemma SetOrderSafe(s: Store, cat: Catalog, users: set<UserId>, no: OrderNo, order: Order)
    requires Safe(s, cat, users) && no in s.orders && SameBuyer(s.orders[no], order) && order.key == s.orders[no].key
    ensures Safe(SetOrder(s, no, order), cat, users) && Beside(s, SetOrder(s, no, order))
  {
    SetOrderBeside(s, no, order);
    BesideSafe(s, SetOrder(s, no, order), cat, users);
  }

  lemma NewOrderSafe(s: Store, cat: Catalog, users: set<UserId>, no: OrderNo, order: Order)
    requires Safe(s, cat, users) && no !in s.orders && order.status != Fulfilled
    requires order.key.Some? ==> !HasKey(s.orders, order.key.value)
    ensures Safe(SetOrder(s, no, order), cat, users) && Beside(s, SetOrder(s, no, order))
  {
    SetOrderBeside(s, no, order);
    BesideSafe(s, SetOrder(s, no, order), cat, users);
  }

  lemma FulfillSafe(s: Store, cat: Catalog, users: set<UserId>, no: OrderNo, chance: Chance, now: Time)
    requires Safe(s, cat, users)
    ensures Safe(FulfillOrder(s, cat, no, chance, now).0, cat, users) && Lasting(s, FulfillOrder(s, cat, no, chance, now).0)
  {
    FulfillKeeps(s, cat, no, chance, now);
    FulfillReaches(users, s, cat, no, chance, now);
    OrdersAfterFulfill(s, cat, no, chance, now);
    PreservedLasts(s, FulfillOrder(s, cat, no, chance, now).0);
  }

  lemma {:induction false} RulesKeepOrders(s: Store, cat: Catalog, no: OrderNo, order: Order, rules: seq<Rule>, chance: Chance, now: Time)
    requires ApplyRules(s, cat, no, order, rules, chance, now).outcome.Success?
    ensures ApplyRules(s, cat, no, order, rules, chance, now).outcome.value.orders == s.orders
    decreases |rules|
  {
    if rules != [] {
      RulesKeepOrders(ApplyRule(s, cat, no, order, rules[0], chance, now).outcome.value, cat, no, order, rules[1..], chance, now);
    }
  }

  lemma OrdersAfterFulfill(s: Store, cat: Catalog, no: OrderNo, chance: Chance, now: Time)
    requires OrderKeysUnique(s.orders)
    ensures OrderKeysUnique(FulfillOrder(s, cat, no, chance, now).0.orders)
    ensures SameBuyers(s.orders, FulfillOrder(s, cat, no, chance, now).0.orders)
  {
    if FulfillInside(s, cat, no, chance, now).outcome.Success? && s.orders[no].status != Fulfilled {
      RulesKeepOrders(s, cat, no, s.orders[no], RulesFor(cat, s.orders[no].sku), chance, now);
    }
  }

  // ---------------------------------------------------------------- refunds

  lemma AdjustSafe(s: Store, cat: Catalog, users: set<UserId>, no: OrderNo, weather: Weather)
    requires Safe(s, cat, users) && no in s.orders
    ensures Safe(Adjust(s, no, weather).0, cat, users) && Beside(s, Adjust(s, no, weather).0)
  {
    var r := Adjust(s, no, weather).0;
    if r != s {
      var order, listing := W.Order(no, s.orders[no].user), AppliedListing(s.executions, no, weather.query);
      ListedAreRedeemable(s, cat, no, listing);
      CompensateReaches(users, s, order, listing, weather.decision, weather.now);
      assert GrantsMove(s.grants, r.grants);
      BesideSafe(s, r, cat, users);
    }
  }

  lemma ListedAreRedeemable(s: Store, cat: Catalog, no: OrderNo, listing: seq<Execution>)
    requires RecordsSound(s, cat) && IsListing(s.executions, AppliedKeys(s.executions, no), listing)
    ensures AllRedeemable(s.wallet.ledger, listing)
  {
    ListsExecutions(s, cat, no, listing);
    forall i | 0 <= i < |listing|
      ensures Redeemable(s.wallet.ledger, listing[i])
    {
      AppliedNamesGrant(s, cat, no, listing[i]);
    }
  }

  // ---------------------------------------------------------------- grace

  lemma CreateForeignGrant(s: Store, cat: Catalog, g: Grant)
    requires Foreign(g.key) && CreateGrant(s.grants, s.wallet.users, cat, g).Success?
    ensures Beside(s, s.(grants := CreateGrant(s.grants, s.wallet.users, cat, g).value.0))
  {
    var r := CreateGrant(s.grants, s.wallet.users, cat, g).value.0;
    assert forall i :: 0 <= i < |s.grants| ==> r[i] == s.grants[i];
  }

  lemma {:induction false} GrantGraceBeside(s: Store, cfg: Config, cat: Catalog, no: OrderNo, user: UserId, entitlements: seq<string>, startsAt: Time)
    requires GrantGrace(s, cfg, cat, no, user, entitlements, startsAt).Success?
    ensures var r := GrantGrace(s, cfg, cat, no, user, entitlements, startsAt).value;
            Beside(s, r) && r.wallet == s.wallet && r.orders == s.orders
    decreases |entitlements|
  {
    if entitlements != [] {
      var grant := Grant(user, entitlements[0], Active, SubscriptionGrace, startsAt, Some(startsAt + GraceDays(cfg) * DAY),
                         GraceKey(no, entitlements[0]));
      GraceKeysAreForeign(no, entitlements[0]);
      CreateForeignGrant(s, cat, grant);
      var m := s.(grants := CreateGrant(s.grants, s.wallet.users, cat, grant).value.0);
      GrantGraceBeside(m, cfg, cat, no, user, entitlements[1..], startsAt);
      BesideThrough(s, m, GrantGrace(m, cfg, cat, no, user, entitlements[1..], startsAt).value);
    }
  }

  lemma {:induction false} ExpireGraceKeepsDeals(grants: seq<Grant>, user: UserId, entitlements: seq<string>, at: Time)
    ensures SameDeals(grants, ExpireGrace(grants, user, entitlements, at))
    decreases |entitlements|
  {
    if entitlements != [] {
      var swept := seq(|grants|, i requires 0 <= i < |grants| =>
        if GraceOver(grants[i], user, entitlements[0], at) then grants[i].(status := Expired, expiresAt := Some(at)) else grants[i]);
      ExpireGraceKeepsDeals(swept, user, entitlements[1..], at);
    }
  }

  lemma DealsMove(before: seq<Grant>, after: seq<Grant>)
    requires SameDeals(before, after)
    ensures GrantsMove(before, after)
  {
  }

  // ---------------------------------------------------------------- renewals

  lemma RenewalOrderSafe(s: Store, cat: Catalog, users: set<UserId>, no: OrderNo, event: Event)
    requires Safe(s, cat, users) && no in s.orders
    ensures Safe(SetOrder(s, no, RenewalOrderAfter(s.orders[no], event)), cat, users)
    ensures Beside(s, SetOrder(s, no, RenewalOrderAfter(s.orders[no], event)))
  {
    SetOrderSafe(s, cat, users, no, RenewalOrderAfter(s.orders[no], event));
  }

  lemma ResolveSafe(s: Store, cfg: Config, cat: Catalog, users: set<UserId>, no: OrderNo, event: Event)
    requires Safe(s, cat, users) && no in s.orders && Resolve(s, cfg, no, event).Success?
    ensures var r := Resolve(s, cfg, no, event).value;
            Safe(r.0, cat, users) && Beside(s, r.0) && r.1 in r.0.orders
  {
    var r := Resolve(s, cfg, no, event).value;
    if r.0 != s {
      var key := RenewalKey(no, CycleOf(cfg, event));
      NewOrderSafe(s, cat, users, cfg.digest(key), Derived(s.orders[no], key, event));
    } else {
      assert GrantsMove(s.grants, s.grants);
    }
  }

  lemma InitialSafe(s: Store, cat: Catalog, users: set<UserId>, no: OrderNo, event: Event, weather: Weather)
    requires Safe(s, cat, users) && no in s.orders
    ensures Safe(ApplyInitial(s, cat, no, event, weather).0, cat, users) && Lasting(s, ApplyInitial(s, cat, no, event, weather).0)
  {
    var marked := SetOrder(s, no, MarkInitialPaid(s.orders[no], event));
    SetOrderSafe(s, cat, users, no, MarkInitialPaid(s.orders[no], event));
    BesideLasts(s, marked);
    FulfillSafe(marked, cat, users, no, weather.chance, weather.now);
    LastingThrough(s, marked, FulfillOrder(marked, cat, no, weather.chance, weather.now).0);
    var r := FulfillOrder(marked, cat, no, weather.chance, weather.now);
    var atomic := s.orders[no].paidAt.Some? && event.periodStart.Some?;
    if r.1.Failure? && atomic {
      FulfillKeeps(marked, cat, no, weather.chance, weather.now);
      MarkRolledBack(s, marked, r.0, s.(executions := r.0.executions), cat);
    }
  }

  // What counts as applied is the same before the mark and after the roll-back.
  lemma {:induction false} RolledBackApplied(s: Store, marked: Store, failed: Store, r: Store)
    requires marked == s.(orders := marked.orders) && failed == marked.(executions := failed.executions)
    requires Preserves(marked, failed) && Preserves(failed, marked) && r == s.(executions := failed.executions)
    ensures forall no: OrderNo, q :: IsApplied(r, no, q) <==> IsApplied(s, no, q)
    ensures forall no: OrderNo, q :: IsApplied(s, no, q) ==> r.executions[ExecutionKey(no, q)] == s.executions[ExecutionKey(no, q)]
  {
    forall no: OrderNo, q
      ensures IsApplied(r, no, q) <==> IsApplied(s, no, q)
      ensures IsApplied(s, no, q) ==> r.executions[ExecutionKey(no, q)] == s.executions[ExecutionKey(no, q)]
    {
      assert IsApplied(failed, no, q) == IsApplied(r, no, q) && IsApplied(marked, no, q) == IsApplied(s, no, q);
    }
  }

  // The failure record outlives the rolled-back mark.
  lemma {:induction false} MarkRolledBack(s: Store, marked: Store, failed: Store, r: Store, cat: Catalog)
    requires Delivered(s, cat) && marked == s.(orders := marked.orders) && OrdersMove(s.orders, marked.orders)
    requires marked.orders.Keys == s.orders.Keys
    requires Delivered(failed, cat) && failed == marked.(executions := failed.executions)
    requires Preserves(marked, failed) && Preserves(failed, marked)
    requires r == s.(executions := failed.executions)
    ensures Delivered(r, cat) && Lasting(s, r)
  {
    RolledBackApplied(s, marked, failed, r);
    RolledBackRecords(s, marked, failed, r, cat);
    OnRecordSame(s, r);
    AllOrNothingSame(s, r, cat);
  }

  lemma RolledBackRecords(s: Store, marked: Store, failed: Store, r: Store, cat: Catalog)
    requires OrdersMove(s.orders, marked.orders) && marked.orders.Keys == s.orders.Keys && failed.orders == marked.orders
    requires RecordsSound(failed, cat) && r == failed.(orders := s.orders)
    ensures RecordsSound(r, cat)
  {
    forall key | key in r.executions
      ensures RecordSound(r, cat, key)
    {
      assert RecordSound(failed, cat, key);
      var e := failed.executions[key];
      assert SameBuyer(s.orders[e.order], marked.orders[e.order]);
      if e.status == Applied {
        BackedSame(failed, r, cat, e);
      }
    }
  }

  lemma ToRenewalSafe(s: Store, s1: Store, cfg: Config, cat: Catalog, users: set<UserId>, no: OrderNo, event: Event, weather: Weather)
    requires Safe(s, cat, users) && Safe(s1, cat, users) && Beside(s, s1) && no in s1.orders && IsRenewalKind(event.kind)
    ensures var r := ApplyToRenewal(s, s1, cfg, cat, no, event, weather).0;
            Safe(r, cat, users) && Lasting(s, r)
  {
    var order := s1.orders[no];
    if order.kind != Renewal || order.user == "" || order.sku == "" {
      BesideLasts(s, s1);
    } else {
      var s2 := SetOrder(s1, no, RenewalOrderAfter(order, event));
      RenewalOrderSafe(s1, cat, users, no, event);
      BesideThrough(s, s1, s2);
      UpdatedRenewalSafe(s, s2, cfg, cat, users, no, event, weather, ApplyToRenewal(s, s1, cfg, cat, no, event, weather).0);
    }
  }

  // What follows once the renewal order's status is updated.
  ghost predicate AfterUpdate(s: Store, s2: Store, cfg: Config, cat: Catalog, no: OrderNo, event: Event, weather: Weather, r: Store)
    requires no in s2.orders
  {
    if event.kind.RenewalPaid? then r == FulfillOrder(s2, cat, no, weather.chance, weather.now).0
    else if event.kind.RenewalFailed? then GraceGiven(s, s2, cfg, cat, no, event, r)
    else GraceTaken(s2, cfg, no, event, r)
  }

  ghost predicate GraceGiven(s: Store, s2: Store, cfg: Config, cat: Catalog, no: OrderNo, event: Event, r: Store)
    requires no in s2.orders
  {
    var order, grace := s2.orders[no], GraceFor(cfg, s2.orders[no].sku);
    if grace.None? || GrantGrace(s2, cfg, cat, no, order.user, grace.value, GraceStart(event)).Failure? then r == s
    else r == GrantGrace(s2, cfg, cat, no, order.user, grace.value, GraceStart(event)).value
  }

  ghost predicate GraceTaken(s2: Store, cfg: Config, no: OrderNo, event: Event, r: Store)
    requires no in s2.orders
  {
    var order, grace := s2.orders[no], GraceFor(cfg, s2.orders[no].sku);
    r == if !cfg.sweepsGrace || grace.None? then s2 else s2.(grants := ExpireGrace(s2.grants, order.user, grace.value, event.receivedAt))
  }

  lemma UpdatedRenewalSafe(s: Store, s2: Store, cfg: Config, cat: Catalog, users: set<UserId>, no: OrderNo, event: Event, weather: Weather, r: Store)
    requires Safe(s, cat, users) && Safe(s2, cat, users) && Beside(s, s2) && no in s2.orders
    requires AfterUpdate(s, s2, cfg, cat, no, event, weather, r)
    ensures Safe(r, cat, users) && Lasting(s, r)
  {
    if event.kind.RenewalPaid? {
      PaidRenewalSafe(s, s2, cat, users, no, weather);
    } else if event.kind.RenewalFailed? {
      GraceSafe(s, s2, cfg, cat, users, no, event, r);
    } else {
      GraceOverSafe(s, s2, cfg, cat, users, no, event, r);
    }
  }

  lemma PaidRenewalSafe(s: Store, s2: Store, cat: Catalog, users: set<UserId>, no: OrderNo, weather: Weather)
    requires Safe(s2, cat, users) && Beside(s, s2)
    ensures var r := FulfillOrder(s2, cat, no, weather.chance, weather.now).0; Safe(r, cat, users) && Lasting(s, r)
  {
    BesideLasts(s, s2);
    FulfillSafe(s2, cat, users, no, weather.chance, weather.now);
    LastingThrough(s, s2, FulfillOrder(s2, cat, no, weather.chance, weather.now).0);
  }

  lemma GraceOverSafe(s: Store, s2: Store, cfg: Config, cat: Catalog, users: set<UserId>, no: OrderNo, event: Event, r: Store)
    requires Safe(s2, cat, users) && Beside(s, s2) && no in s2.orders
    requires GraceTaken(s2, cfg, no, event, r)
    ensures Safe(r, cat, users) && Lasting(s, r)
  {
    var order, grace := s2.orders[no], GraceFor(cfg, s2.orders[no].sku);
    if cfg.sweepsGrace && grace.Some? {
      ExpireGraceKeepsDeals(s2.grants, order.user, grace.value, event.receivedAt);
      DealsMove(s2.grants, r.grants);
      BesideSafe(s2, r, cat, users);
      BesideThrough(s, s2, r);
    }
    BesideLasts(s, r);
  }

  lemma GraceSafe(s: Store, s2: Store, cfg: Config, cat: Catalog, users: set<UserId>, no: OrderNo, event: Event, r: Store)
    requires Safe(s, cat, users) && Safe(s2, cat, users) && Beside(s, s2) && no in s2.orders
    requires GraceGiven(s, s2, cfg, cat, no, event, r)
    ensures Safe(r, cat, users) && Lasting(s, r)
  {
    var order, grace := s2.orders[no], GraceFor(cfg, s2.orders[no].sku);
    if grace.Some? && GrantGrace(s2, cfg, cat, no, order.user, grace.value, GraceStart(event)).Success? {
      GrantGraceBeside(s2, cfg, cat, no, order.user, grace.value, GraceStart(event));
      BesideSafe(s2, r, cat, users);
      BesideThrough(s, s2, r);
      BesideLasts(s, r);
    }
  }

  // ---------------------------------------------------------------- one processor call

  lemma RenewalSafe(s: Store, cfg: Config, cat: Catalog, users: set<UserId>, event: Event, weather: Weather)
    requires Safe(s, cat, users) && IsRenewalKind(event.kind)
    ensures Safe(ApplyRenewal(s, cfg, cat, event, weather).0, cat, users)
    ensures Lasting(s, ApplyRenewal(s, cfg, cat, event, weather).0)
  {
    if event.orderNo != "" && event.orderNo in s.orders {
      var no: OrderNo := event.orderNo;
      if CheckoutBacked(s.orders[no], event) {
        InitialSafe(s, cat, users, no, event, weather);
      } else if Resolve(s, cfg, no, event).Success? {
        ResolveSafe(s, cfg, cat, users, no, event);
        var r := Resolve(s, cfg, no, event).value;
        ToRenewalSafe(s, r.0, cfg, cat, users, r.1, event, weather);
      }
    }
  }

  lemma ProcessSafe(s: Store, cfg: Config, cat: Catalog, users: set<UserId>, event: Event, weather: Weather)
    requires Safe(s, cat, users)
    ensures Safe(ProcessPayment(s, cfg, cat, event, weather).0, cat, users)
    ensures Lasting(s, ProcessPayment(s, cfg, cat, event, weather).0)
  {
    if IsRenewalKind(event.kind) {
      RenewalSafe(s, cfg, cat, users, event, weather);
    } else if event.orderNo != "" && event.orderNo in s.orders && OrderAfter(s.orders[event.orderNo], event, weather.now).Success? {
      var no: OrderNo := event.orderNo;
      var order := OrderAfter(s.orders[no], event, weather.now).value;
      var s1 := SetOrder(s, no, order);
      SetOrderSafe(s, cat, users, no, order);
      BesideLasts(s, s1);
      if !event.kind.PaymentPaid? {
        AdjustSafe(s1, cat, users, no, weather);
        BesideLasts(s1, Adjust(s1, no, weather).0);
        LastingThrough(s, s1, Adjust(s1, no, weather).0);
      } else if order.kind == Checkout {
        FulfillSafe(s1, cat, users, no, weather.chance, weather.now);
        LastingThrough(s, s1, FulfillOrder(s1, cat, no, weather.chance, weather.now).0);
      }
    }
  }

  // A step of the inbox leaves the stores alone or processes one event on them.
  ghost predicate OneCall(s: Store, r: Store, cfg: Config, cat: Catalog, event: Event, weather: Weather) {
    r == s || r == ProcessPayment(s, cfg, cat, event, weather).0
  }

  lemma ProcessEventCalls(sys: System, cfg: Config, cat: Catalog, id: RowId, force: bool, env: Env)
    requires id < |sys.rows|
    ensures OneCall(sys.store, ProcessEvent(sys, cfg, cat, id, force, env).store, cfg, cat, sys.rows[id].event, env.weather)
  {
  }

  lemma ReceiveCalls(sys: System, cfg: Config, cat: Catalog, event: Event, env: Env) returns (processed: Event)
    ensures OneCall(sys.store, Receive(sys, cfg, cat, event, env).store, cfg, cat, processed, env.weather)
  {
    var existing := FindRow(sys.rows, event.provider, event.eventId);
    if existing.None? {
      ProcessEventCalls(sys.(rows := sys.rows + [Row(event, Received, 0, None)]), cfg, cat, |sys.rows|, false, env);
      processed := event;
    } else {
      ProcessEventCalls(sys, cfg, cat, existing.value, false, env);
      processed := sys.rows[existing.value].event;
    }
  }

  lemma OneCallSafe(s: Store, r: Store, cfg: Config, cat: Catalog, users: set<UserId>, event: Event, weather: Weather)
    requires Safe(s, cat, users) && OneCall(s, r, cfg, cat, event, weather)
    ensures Safe(r, cat, users) && Lasting(s, r)
  {
    ProcessSafe(s, cfg, cat, users, event, weather);
  }

  // ---------------------------------------------------------------- every run

  lemma WalletUseSafe(s: Store, cat: Catalog, users: set<UserId>, op: W.Operation)
    requires Safe(s, cat, users) && ForeignOperation(op)
    ensures var r := s.(wallet := W.Execute(s.wallet, op)); Safe(r, cat, users) && Lasting(s, r)
  {
    var r := s.(wallet := W.Execute(s.wallet, op));
    ReachableStep(users, s.wallet, op);
    ForeignOperationAdds(s.wallet, op);
    assert GrantsMove(s.grants, r.grants);
    BesideSafe(s, r, cat, users);
    BesideLasts(s, r);
  }

  lemma ReceiveSafe(sys: System, cfg: Config, cat: Catalog, users: set<UserId>, event: Event, env: Env)
    requires Safe(sys.store, cat, users)
    ensures Safe(Receive(sys, cfg, cat, event, env).store, cat, users) && Lasting(sys.store, Receive(sys, cfg, cat, event, env).store)
  {
    var processed := ReceiveCalls(sys, cfg, cat, event, env);
    OneCallSafe(sys.store, Receive(sys, cfg, cat, event, env).store, cfg, cat, users, processed, env.weather);
  }

  lemma AddGrantSafe(s: Store, cat: Catalog, users: set<UserId>, g: Grant)
    requires Safe(s, cat, users) && Foreign(g.key) && CreateGrant(s.grants, s.wallet.users, cat, g).Success?
    ensures var r := s.(grants := CreateGrant(s.grants, s.wallet.users, cat, g).value.0);
            Safe(r, cat, users) && Lasting(s, r)
  {
    var r := s.(grants := CreateGrant(s.grants, s.wallet.users, cat, g).value.0);
    CreateForeignGrant(s, cat, g);
    BesideSafe(s, r, cat, users);
    BesideLasts(s, r);
  }

  lemma ActSafe(sys: System, cfg: Config, cat: Catalog, users: set<UserId>, step: Step)
    requires Safe(sys.store, cat, users) && Allowed(sys, step)
    ensures Safe(Act(sys, cfg, cat, step).store, cat, users) && Lasting(sys.store, Act(sys, cfg, cat, step).store)
  {
    match step
    case Webhook(event, env) => ReceiveSafe(sys, cfg, cat, users, event, env);
    case Reprocess(row, env) =>
      if row < |sys.rows| {
        ProcessEventCalls(sys, cfg, cat, row, true, env);
        OneCallSafe(sys.store, ProcessEvent(sys, cfg, cat, row, true, env).store, cfg, cat, users, sys.rows[row].event, env.weather);
      }
    case PlaceOrder(no, order) =>
      NewOrderSafe(sys.store, cat, users, no, order);
      BesideLasts(sys.store, Act(sys, cfg, cat, step).store);
    case UseWallet(op) => WalletUseSafe(sys.store, cat, users, op);
    case AddGrant(grant) =>
      if CreateGrant(sys.store.grants, sys.store.wallet.users, cat, grant).Success? {
        AddGrantSafe(sys.store, cat, users, grant);
      }
  }

  lemma {:induction false} RunSafe(sys: System, cfg: Config, cat: Catalog, users: set<UserId>, steps: seq<Step>)
    requires Safe(sys.store, cat, users) && AllowedRun(sys, cfg, cat, steps)
    ensures Safe(RunSteps(sys, cfg, cat, steps).store, cat, users) && Lasting(sys.store, RunSteps(sys, cfg, cat, steps).store)
    decreases |steps|
  {
    if steps != [] {
      var next := Act(sys, cfg, cat, steps[0]);
      ActSafe(sys, cfg, cat, users, steps[0]);
      RunSafe(next, cfg, cat, users, steps[1..]);
      LastingThrough(sys.store, next.store, RunSteps(next, cfg, cat, steps[1..]).store);
    }
  }

  lemma {:induction false} EveryRunSafe(users: set<UserId>, cfg: Config, cat: Catalog, steps: seq<Step>)
    requires AllowedRun(Start(users), cfg, cat, steps)
    ensures var r := RunSteps(Start(users), cfg, cat, steps);
            && Delivered(r.store, cat) && OrderKeysUnique(r.store.orders) && InboxSound(r)
            && WalletBalance.Balanced(r.store.wallet) && LedgerReplay.Faithful(r.store.wallet)
  {
    EmptyReachable(users);
    assert Delivered(EmptyStore(users), cat);
    RunSafe(Start(users), cfg, cat, users, steps);
    ReachableSound(users, RunSteps(Start(users), cfg, cat, steps).store.wallet);
    EveryRunKeepsInbox(Start(users), cfg, cat, steps);
  }
}
