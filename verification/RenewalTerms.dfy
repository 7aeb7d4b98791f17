/** Which order a renewal payment pays: the checkout's own first payment, or the order of
    its cycle, made and delivered when the first event of the cycle is its payment. */
module RenewalTerms {
  import opened Wrappers
  import opened DeliveryKeys
  import opened Commerce
  import opened FulfillmentSpec
  import opened Delivery
  import opened Payments
  import opened CommerceRuns
  import opened Renewals
  import opened DeliveryOutcome
  import opened OrderEvents
  import opened LatePayments

  // A payment within two minutes of the checkout's own, or for one not yet paid.
  predicate PaysTheCheckout(order: Order, event: Event) {
    order.paidAt.None? || (event.periodStart.Some? && -120 <= order.paidAt.value - event.periodStart.value <= 120)
  }

  // Only this order has moved.
  ghost predicate OnlyThis(before: map<OrderNo, Order>, after: map<OrderNo, Order>, no: OrderNo) {
    no in before && no in after && after == before[no := after[no]]
  }

  lemma DeliveryMovesOne(s: Store, cat: Catalog, no: OrderNo, chance: Chance, now: Time)
    requires no in s.orders
    ensures OnlyThis(s.orders, FulfillOrder(s, cat, no, chance, now).0.orders, no)
  {
    if FulfillInside(s, cat, no, chance, now).outcome.Success? && s.orders[no].status != Fulfilled {
      RulesKeepOrders(s, cat, no, s.orders[no], RulesFor(cat, s.orders[no].sku), chance, now);
    }
  }

  lemma InitialMovesOne(s: Store, cat: Catalog, no: OrderNo, event: Event, weather: Weather)
    requires no in s.orders
    ensures OnlyThis(s.orders, ApplyInitial(s, cat, no, event, weather).0.orders, no)
  {
    DeliveryMovesOne(SetOrder(s, no, MarkInitialPaid(s.orders[no], event)), cat, no, weather.chance, weather.now);
  }

  lemma CycleKeepsCheckout(s: Store, s1: Store, cfg: Config, cat: Catalog, no: OrderNo, target: OrderNo, event: Event, weather: Weather)
    requires event.kind.RenewalPaid? && target in s1.orders && no in s1.orders && s1.orders[no].kind == Checkout
    ensures var r := ApplyToRenewal(s, s1, cfg, cat, target, event, weather).0.orders; no in r && r[no] == s1.orders[no]
  {
    if target != no {
      OtherOrderKept(SetOrder(s1, target, RenewalOrderAfter(s1.orders[target], event)), cat, no, target, weather.chance, weather.now);
    }
  }

  // Main result: it pays the checkout itself, and makes no other order, exactly then;
  // otherwise the checkout stays as it is.
  lemma PaymentGoesTo(s: Store, cfg: Config, cat: Catalog, event: Event, weather: Weather, no: OrderNo)
    requires event.kind.RenewalPaid? && event.orderNo == no && no != "" && no in s.orders && Renewable(s.orders[no])
    ensures var r := ProcessPayment(s, cfg, cat, event, weather).0.orders;
            if PaysTheCheckout(s.orders[no], event) then OnlyThis(s.orders, r, no) else no in r && r[no] == s.orders[no]
  {
    if PaysTheCheckout(s.orders[no], event) {
      InitialMovesOne(s, cat, no, event, weather);
    } else if Resolve(s, cfg, no, event).Success? {
      var (s1, target) := Resolve(s, cfg, no, event).value;
      CycleKeepsCheckout(s, s1, cfg, cat, no, target, event, weather);
    }
  }

  // What delivering a SKU to a user for the first time takes.
  predicate CanDeliver(s: Store, cat: Catalog, user: UserId, sku: string, chance: Chance) {
    && user in s.wallet.users && RulesFor(cat, sku) != [] && !chance.commitFails
    && Carries(cat, RulesFor(cat, sku), chance, s.wallet.buckets.Keys, {})
  }

  lemma NothingOfUnknown(s: Store, cat: Catalog, no: OrderNo, rule: string)
    requires Delivered(s, cat) && no !in s.orders
    ensures !IsApplied(s, no, rule)
  {
    if IsApplied(s, no, rule) {
      assert RecordSound(s, cat, ExecutionKey(no, rule));
      var e := s.executions[ExecutionKey(no, rule)];
      ExecutionKeyUnique(no, rule, e.order, e.rule);
    }
  }

  lemma NewOrderTried(s: Store, cat: Catalog, users: set<UserId>, no: OrderNo, order: Order, chance: Chance, now: Time)
    requires Safe(s, cat, users) && no !in s.orders && order.status == Paid && order.kind == Renewal && order.user != "" && order.sku != ""
    requires order.key.Some? ==> !HasKey(s.orders, order.key.value)
    ensures var s1 := SetOrder(s, no, order);
            var r, through := FulfillOrder(s1, cat, no, chance, now).0, CanDeliver(s, cat, order.user, order.sku, chance);
            && Delivered(r, cat) && no in r.orders && r.orders[no].status == (if through then Fulfilled else Paid)
            && DeliveredEach(r, cat, no, if through then 1 else 0)
  {
    var s1 := SetOrder(s, no, order);
    var rules := RulesFor(cat, order.sku);
    NewOrderSafe(s, cat, users, no, order);
    forall q
      ensures !IsApplied(s1, no, q)
    {
      NothingOfUnknown(s, cat, no, q);
      assert IsApplied(s1, no, q) == IsApplied(s, no, q);
    }
    assert AppliedRules(s1, no, rules) == {};
    PaidOutcome(s1, cat, no, chance, now);
    FulfillKeeps(s1, cat, no, chance, now);
    CompleteDelivers(FulfillOrder(s1, cat, no, chance, now).0, cat, no);
  }

  // Main result: the first event of a cycle, if it is the payment, makes the cycle's order
  // for the checkout's buyer and SKU, and delivers it - each rule once - exactly if
  // nothing stands in the way.
  lemma RenewalDelivered(s: Store, cfg: Config, cat: Catalog, users: set<UserId>, event: Event, weather: Weather, no: OrderNo)
    requires Safe(s, cat, users) && event.kind.RenewalPaid? && event.orderNo == no && no != "" && no in s.orders && Renewable(s.orders[no])
    requires !PaysTheCheckout(s.orders[no], event)
    requires var key := RenewalKey(no, CycleOf(cfg, event)); !HasKey(s.orders, key) && cfg.digest(key) !in s.orders
    ensures var r, made := ProcessPayment(s, cfg, cat, event, weather).0, cfg.digest(RenewalKey(no, CycleOf(cfg, event)));
            var through := CanDeliver(s, cat, s.orders[no].user, s.orders[no].sku, weather.chance);
            && made in r.orders && r.orders[made].kind == Renewal && r.orders[made].user == s.orders[no].user
            && r.orders[made].sku == s.orders[no].sku
            && r.orders[made].status == (if through then Fulfilled else Paid)
            && DeliveredEach(r, cat, made, if through then 1 else 0)
  {
    var key := RenewalKey(no, CycleOf(cfg, event));
    var made := cfg.digest(key);
    var order := Derived(s.orders[no], key, event);
    var paid := RenewalOrderAfter(order, event);
    var s1 := SetOrder(s, made, order);
    assert SetOrder(s1, made, paid) == SetOrder(s, made, paid);
    NewOrderTried(s, cat, users, made, paid, weather.chance, weather.now);
    var s2 := SetOrder(s, made, paid);
    OrdersAfterTry(s2, cat, made, weather.chance, weather.now);
  }

  lemma OrdersAfterTry(s: Store, cat: Catalog, no: OrderNo, chance: Chance, now: Time)
    requires no in s.orders
    ensures var r := FulfillOrder(s, cat, no, chance, now).0;
            no in r.orders && SameBuyer(s.orders[no], r.orders[no].(status := s.orders[no].status))
  {
    if FulfillInside(s, cat, no, chance, now).outcome.Success? && s.orders[no].status != Fulfilled {
      RulesKeepOrders(s, cat, no, s.orders[no], RulesFor(cat, s.orders[no].sku), chance, now);
    }
  }
}
