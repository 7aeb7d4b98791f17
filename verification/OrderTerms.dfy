/** What an order says besides its status: what was bought never changes, the first
    payment and the first delivery stay on record, and each billing cycle has an order of
    its own. */
module OrderTerms {
  import opened Wrappers
  import opened DeliveryKeys
  import opened Commerce
  import opened FulfillmentSpec
  import opened Payments
  import opened PaymentInbox
  import opened CommerceRuns
  import opened Renewals
  import opened OrderEvents
  import opened LatePayments

  // ---------------------------------------------------------------- what never changes

  // Only status, provider and trade number may change, and times be added; what is
  // fulfilled says when.
  predicate SamePurchase(a: Order, b: Order) {
    && b == a.(status := b.status, provider := b.provider, tradeNo := b.tradeNo, paidAt := b.paidAt, fulfilledAt := b.fulfilledAt)
    && (a.paidAt.Some? ==> b.paidAt == a.paidAt) && (a.fulfilledAt.Some? ==> b.fulfilledAt == a.fulfilledAt)
    && (b.status == Fulfilled && a.status != Fulfilled ==> b.fulfilledAt.Some?)
  }

  ghost predicate SamePurchases(before: map<OrderNo, Order>, after: map<OrderNo, Order>) {
    forall no :: no in before ==> no in after && SamePurchase(before[no], after[no])
  }

  lemma PurchasesThrough(a: map<OrderNo, Order>, b: map<OrderNo, Order>, c: map<OrderNo, Order>)
    requires SamePurchases(a, b) && SamePurchases(b, c)
    ensures SamePurchases(a, c)
  {
    forall no | no in a
      ensures no in c && SamePurchase(a[no], c[no])
    {
      assert SamePurchase(a[no], b[no]) && SamePurchase(b[no], c[no]);
    }
  }

  lemma FulfillPurchases(s: Store, cat: Catalog, no: OrderNo, chance: Chance, now: Time)
    ensures SamePurchases(s.orders, FulfillOrder(s, cat, no, chance, now).0.orders)
  {
    if FulfillInside(s, cat, no, chance, now).outcome.Success? && s.orders[no].status != Fulfilled {
      RulesKeepOrders(s, cat, no, s.orders[no], RulesFor(cat, s.orders[no].sku), chance, now);
    }
  }

  lemma SetPurchases(s: Store, no: OrderNo, order: Order)
    requires no in s.orders ==> SamePurchase(s.orders[no], order)
    ensures SamePurchases(s.orders, SetOrder(s, no, order).orders)
  {
  }

  lemma MarkedAndTried(s: Store, cat: Catalog, no: OrderNo, order: Order, chance: Chance, now: Time)
    requires no in s.orders ==> SamePurchase(s.orders[no], order)
    ensures SamePurchases(s.orders, FulfillOrder(SetOrder(s, no, order), cat, no, chance, now).0.orders)
  {
    var s1 := SetOrder(s, no, order);
    SetPurchases(s, no, order);
    FulfillPurchases(s1, cat, no, chance, now);
    PurchasesThrough(s.orders, s1.orders, FulfillOrder(s1, cat, no, chance, now).0.orders);
  }

  lemma ToRenewalPurchases(s: Store, s1: Store, cfg: Config, cat: Catalog, no: OrderNo, event: Event, weather: Weather)
    requires no in s1.orders && SamePurchases(s.orders, s1.orders) && IsRenewalKind(event.kind)
    ensures SamePurchases(s.orders, ApplyToRenewal(s, s1, cfg, cat, no, event, weather).0.orders)
  {
    var order := s1.orders[no];
    var s2 := SetOrder(s1, no, RenewalOrderAfter(order, event));
    SetPurchases(s1, no, RenewalOrderAfter(order, event));
    PurchasesThrough(s.orders, s1.orders, s2.orders);
    if event.kind.RenewalPaid? {
      FulfillPurchases(s2, cat, no, weather.chance, weather.now);
      PurchasesThrough(s.orders, s2.orders, FulfillOrder(s2, cat, no, weather.chance, weather.now).0.orders);
    } else if event.kind.RenewalFailed? && GraceFor(cfg, order.sku).Some? {
      var grace := GraceFor(cfg, order.sku).value;
      if GrantGrace(s2, cfg, cat, no, order.user, grace, GraceStart(event)).Success? {
        GraceKeepsOrders(s2, cfg, cat, no, order.user, grace, GraceStart(event));
      }
    }
  }

  lemma RenewalPurchases(s: Store, cfg: Config, cat: Catalog, event: Event, weather: Weather)
    requires IsRenewalKind(event.kind)
    ensures SamePurchases(s.orders, ApplyRenewal(s, cfg, cat, event, weather).0.orders)
  {
    if event.orderNo != "" && event.orderNo in s.orders {
      var no: OrderNo := event.orderNo;
      if CheckoutBacked(s.orders[no], event) {
        MarkedAndTried(s, cat, no, MarkInitialPaid(s.orders[no], event), weather.chance, weather.now);
      } else if Resolve(s, cfg, no, event).Success? {
        var (s1, target) := Resolve(s, cfg, no, event).value;
        ToRenewalPurchases(s, s1, cfg, cat, target, event, weather);
      }
    }
  }

  lemma EventPurchases(s: Store, cfg: Config, cat: Catalog, event: Event, weather: Weather)
    ensures SamePurchases(s.orders, ProcessPayment(s, cfg, cat, event, weather).0.orders)
  {
    if IsRenewalKind(event.kind) {
      RenewalPurchases(s, cfg, cat, event, weather);
    } else if event.orderNo != "" && event.orderNo in s.orders && OrderAfter(s.orders[event.orderNo], event, weather.now).Success? {
      var no: OrderNo := event.orderNo;
      var order := OrderAfter(s.orders[no], event, weather.now).value;
      SetPurchases(s, no, order);
      AdjustKeepsOrders(SetOrder(s, no, order), no, weather);
      MarkedAndTried(s, cat, no, order, weather.chance, weather.now);
    }
  }

  // Main result, over runs: what was bought, by whom and for how much never changes, nor
  // when it was first paid or delivered.
  lemma {:induction false} PurchasesStay(sys: System, cfg: Config, cat: Catalog, steps: seq<Step>)
    requires AllowedRun(sys, cfg, cat, steps)
    ensures SamePurchases(sys.store.orders, RunSteps(sys, cfg, cat, steps).store.orders)
    decreases |steps|
  {
    if steps != [] {
      var next, call := Act(sys, cfg, cat, steps[0]), CallOf(sys, steps[0]);
      StepProcesses(sys, cfg, cat, steps[0]);
      if call.Some? {
        EventPurchases(sys.store, cfg, cat, call.value.0, call.value.1);
      }
      PurchasesStay(next, cfg, cat, steps[1..]);
      PurchasesThrough(sys.store.orders, next.store.orders, RunSteps(sys, cfg, cat, steps).store.orders);
    }
  }

  // ---------------------------------------------------------------- what a payment records

  predicate FirstAt(after: Option<Time>, before: Option<Time>, at: Time) {
    after == if before.Some? then before else Some(at)
  }

  // A plain payment of an open order: by whom, under which number and when it was first
  // paid, and, if it delivers it, when.
  lemma PaymentRecorded(s: Store, cfg: Config, cat: Catalog, event: Event, weather: Weather, no: OrderNo)
    requires no in s.orders && PaysPlainly(s, event, no) && s.orders[no].status != Paid && s.orders[no].status != Fulfilled
    ensures var r, order := ProcessPayment(s, cfg, cat, event, weather).0.orders, s.orders[no];
            && no in r && r[no].provider == event.provider && r[no].tradeNo == event.tradeNo
            && FirstAt(r[no].paidAt, order.paidAt, weather.now)
            && (r[no].status == Fulfilled ==> FirstAt(r[no].fulfilledAt, order.fulfilledAt, weather.now))
            && (r[no].status != Fulfilled ==> r[no].fulfilledAt == order.fulfilledAt)
  {
    var order := OrderAfter(s.orders[no], event, weather.now).value;
    var s1 := SetOrder(s, no, order);
    if FulfillInside(s1, cat, no, weather.chance, weather.now).outcome.Success? {
      RulesKeepOrders(s1, cat, no, order, RulesFor(cat, order.sku), weather.chance, weather.now);
    }
  }

  // The time a renewal payment speaks of: the start of its period, or its receipt.
  predicate PaidFrom(at: Time, event: Event) {
    if event.periodStart.Some? then Some(at) == event.periodStart else at == event.receivedAt
  }

  // What a payment of a renewal order's cycle records: paid from the period's start.
  ghost predicate CycleRecorded(r: map<OrderNo, Order>, no: OrderNo, order: Order, event: Event, now: Time) {
    && no in r && r[no].provider == (if event.provider != "" then event.provider else order.provider) && r[no].tradeNo == event.tradeNo
    && (exists at :: PaidFrom(at, event) && FirstAt(r[no].paidAt, order.paidAt, at))
    && (r[no].status == Fulfilled ==> FirstAt(r[no].fulfilledAt, order.fulfilledAt, now))
  }

  lemma TargetRecorded(s: Store, s1: Store, cfg: Config, cat: Catalog, no: OrderNo, event: Event, weather: Weather)
    requires no in s1.orders && s1.orders[no].kind == Renewal && s1.orders[no].user != "" && s1.orders[no].sku != ""
    requires event.kind.RenewalPaid? && s1.orders[no].status != Fulfilled
    ensures CycleRecorded(ApplyToRenewal(s, s1, cfg, cat, no, event, weather).0.orders, no, s1.orders[no], event, weather.now)
  {
    var order := RenewalOrderAfter(s1.orders[no], event);
    var s2 := SetOrder(s1, no, order);
    if FulfillInside(s2, cat, no, weather.chance, weather.now).outcome.Success? {
      RulesKeepOrders(s2, cat, no, order, RulesFor(cat, order.sku), weather.chance, weather.now);
    }
    assert PaidFrom(PaidAt(event), event) && FirstAt(order.paidAt, s1.orders[no].paidAt, PaidAt(event));
  }

  lemma CyclePaymentRecorded(s: Store, cfg: Config, cat: Catalog, event: Event, weather: Weather, no: OrderNo)
    requires OrderKeysUnique(s.orders) && no in s.orders && PaysCycle(s, cfg, event, no) && s.orders[no].status != Fulfilled
    ensures CycleRecorded(ProcessPayment(s, cfg, cat, event, weather).0.orders, no, s.orders[no], event, weather.now)
  {
    assert Renewable(s.orders[event.orderNo]) ==> HasKey(s.orders, RenewalKey(event.orderNo, CycleOf(cfg, event)));
    var s1 := Resolve(s, cfg, event.orderNo, event).value.0;
    ResolvedIs(s, cfg, event, no);
    TargetRecorded(s, s1, cfg, cat, no, event, weather);
  }

  // And for a checkout's first payment reported as a renewal.
  lemma InitialPaymentRecorded(s: Store, cfg: Config, cat: Catalog, event: Event, weather: Weather, no: OrderNo)
    requires no in s.orders && PaysInitially(s, event, no) && s.orders[no].status != Fulfilled
    ensures var r, order := ProcessPayment(s, cfg, cat, event, weather), s.orders[no];
            && no in r.0.orders
            && (r.1 == Done || !MarkUndone(order, event) ==>
                  && r.0.orders[no].provider == (if event.provider != "" then event.provider else order.provider)
                  && r.0.orders[no].tradeNo == event.tradeNo
                  && exists at :: PaidFrom(at, event) && FirstAt(r.0.orders[no].paidAt, order.paidAt, at))
            && (r.1 != Done && MarkUndone(order, event) ==> r.0.orders[no] == order)
  {
    var order := MarkInitialPaid(s.orders[no], event);
    var s1 := SetOrder(s, no, order);
    if FulfillInside(s1, cat, no, weather.chance, weather.now).outcome.Success? {
      RulesKeepOrders(s1, cat, no, order, RulesFor(cat, order.sku), weather.chance, weather.now);
    }
    assert PaidFrom(PaidAt(event), event) && FirstAt(order.paidAt, s.orders[no].paidAt, PaidAt(event));
  }

  // ---------------------------------------------------------------- currencies

  predicate IsUpper(c: char) {
    'A' <= c <= 'Z'
  }

  // The same letter but for its case, or the same other character.
  predicate SameLetter(a: char, b: char) {
    a == b || (IsUpper(a) && b as int == a as int + 32) || (IsUpper(b) && a as int == b as int + 32)
  }

  predicate SameText(a: string, b: string) {
    |a| == |b| && forall i :: 0 <= i < |a| ==> SameLetter(a[i], b[i])
  }

  lemma {:induction false} LowerLength(s: string)
    ensures |Lower(s)| == |s|
  {
    if s != "" {
      LowerLength(s[1..]);
    }
  }

  lemma {:induction false} LowerAlike(a: string, b: string)
    ensures Lower(a) == Lower(b) <==> SameText(a, b)
    decreases |a|
  {
    LowerLength(a);
    LowerLength(b);
    if a != "" && b != "" {
      LowerAlike(a[1..], b[1..]);
      assert Lower(a) == [LowerChar(a[0])] + Lower(a[1..]) && Lower(b) == [LowerChar(b[0])] + Lower(b[1..]);
      assert Lower(a)[0] == LowerChar(a[0]) && Lower(a)[1..] == Lower(a[1..]) && Lower(b)[0] == LowerChar(b[0]) && Lower(b)[1..] == Lower(b[1..]);
      assert SameText(a, b) <==> SameLetter(a[0], b[0]) && SameText(a[1..], b[1..]) by {
        assert forall i :: 0 <= i < |a[1..]| ==> a[1..][i] == a[i + 1];
        assert forall i :: 0 <= i < |b[1..]| ==> b[1..][i] == b[i + 1];
      }
    }
  }

  // The checks of a payment: amounts that both name are the same, and so are currencies,
  // whatever their case.
  lemma ChecksDecided(order: Order, event: Event)
    ensures Matches(order, event) <==>
              && (event.amount <= 0 || order.amount <= 0 || event.amount == order.amount)
              && (event.currency == "" || order.currency == "" || SameText(order.currency, event.currency))
  {
    LowerAlike(order.currency, event.currency);
  }

  // ---------------------------------------------------------------- billing cycles

  // The instant a renewal event's cycle begins with.
  predicate CycleBegins(event: Event, at: Time) {
    if event.kind.RenewalPaid? then event.periodStart == Some(at) || (event.periodStart.None? && event.periodEnd == Some(at))
    else event.periodEnd == Some(at) || (event.periodEnd.None? && event.periodStart == Some(at))
  }

  predicate WithoutPeriod(event: Event) {
    event.periodStart.None? && event.periodEnd.None?
  }

  // Two events are of one cycle if their periods meet at one instant, or if neither has
  // a period and both came in in one month.
  ghost predicate OneCycle(cfg: Config, a: Event, b: Event) {
    || (exists at :: CycleBegins(a, at) && CycleBegins(b, at))
    || (WithoutPeriod(a) && WithoutPeriod(b) && cfg.monthOf(a.receivedAt) == cfg.monthOf(b.receivedAt))
  }

  lemma CycleDecided(cfg: Config, a: Event, b: Event)
    requires IsRenewalKind(a.kind) && IsRenewalKind(b.kind)
    ensures CycleOf(cfg, a) == CycleOf(cfg, b) <==> OneCycle(cfg, a, b)
  {
    if !WithoutPeriod(a) && CycleOf(cfg, a) == CycleOf(cfg, b) {
      assert CycleBegins(a, CycleOf(cfg, a).instant) && CycleBegins(b, CycleOf(cfg, a).instant);
    }
  }

  lemma OtherCycleOther(s: Store, cfg: Config, no: OrderNo, event: Event, again: Event, target: OrderNo)
    requires no in s.orders && Renewable(s.orders[no]) && target in s.orders && s.orders[target].key == Some(RenewalKey(no, CycleOf(cfg, event)))
    requires CycleOf(cfg, event) != CycleOf(cfg, again) && Resolve(s, cfg, no, again).Success?
    ensures Resolve(s, cfg, no, again).value.1 != target
  {
  }

  // Main result: after any run, a later renewal event of a checkout is about the order of
  // an earlier one exactly if the two are of one cycle.
  lemma OneOrderPerCycle(sys: System, cfg: Config, cat: Catalog, users: set<UserId>, no: OrderNo, event: Event, again: Event, steps: seq<Step>)
    requires Safe(sys.store, cat, users) && no in sys.store.orders && Renewable(sys.store.orders[no])
    requires IsRenewalKind(event.kind) && IsRenewalKind(again.kind) && Resolve(sys.store, cfg, no, event).Success?
    requires AllowedRun(sys.(store := Resolve(sys.store, cfg, no, event).value.0), cfg, cat, steps)
    ensures var first := Resolve(sys.store, cfg, no, event).value;
            var later := RunSteps(sys.(store := first.0), cfg, cat, steps).store;
            && no in later.orders
            && (OneCycle(cfg, event, again) <==> Resolve(later, cfg, no, again).Success? && Resolve(later, cfg, no, again).value.1 == first.1)
  {
    var first := Resolve(sys.store, cfg, no, event).value;
    var resumed := sys.(store := first.0);
    ResolveSafe(sys.store, cfg, cat, users, no, event);
    RunSafe(resumed, cfg, cat, users, steps);
    var later := RunSteps(resumed, cfg, cat, steps).store;
    CycleDecided(cfg, event, again);
    if OneCycle(cfg, event, again) {
      SameCycleSameOrder(sys, cfg, cat, users, no, event, again, steps);
    } else {
      if Resolve(later, cfg, no, again).Success? {
        OtherCycleOther(later, cfg, no, event, again, first.1);
      }
    }
  }

  // The order derived for a cycle: the same buyer and SKU, paid for what the event says,
  // or else what the checkout cost.
  lemma DerivedTerms(s: Store, cfg: Config, no: OrderNo, event: Event)
    requires no in s.orders && IsRenewalKind(event.kind) && Resolve(s, cfg, no, event).Success? && Resolve(s, cfg, no, event).value.0 != s
    ensures var (r, target) := Resolve(s, cfg, no, event).value;
            var source := s.orders[no];
            && Renewable(source) && target !in s.orders && target in r.orders && r == s.(orders := s.orders[target := r.orders[target]])
            && var order := r.orders[target];
               && order.user == source.user && order.sku == source.sku && order.kind == Renewal && order.tradeNo == event.tradeNo
               && order.amount == (if event.amount > 0 then event.amount else if source.amount > 0 then source.amount else 0)
               && order.currency == (if event.currency != "" then event.currency else source.currency)
               && order.provider == (if event.provider != "" then event.provider else source.provider)
               && order.status == (if event.kind.RenewalPaid? then Paid else Failed)
               && (if event.kind.RenewalPaid? then order.paidAt.Some? && PaidFrom(order.paidAt.value, event) else order.paidAt.None?)
  {
  }
}
