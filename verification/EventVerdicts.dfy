/** What the inbox is told of every event: whether it is done, has to be tried again, or
    is held by policy. */
module EventVerdicts {
  import opened Wrappers
  import opened DeliveryKeys
  import opened Commerce
  import opened FulfillmentSpec
  import opened Payments
  import opened CommerceRuns
  import opened DeliveryOutcome
  import opened OrderEvents
  import opened RefundEvents

  predicate Proper(order: Order) {
    order.user != "" && order.sku != "" && !order.kind.NewLicense?
  }

  // Delivering this order, marked paid by the event, works: it was fulfilled before, or
  // its delivery goes through.
  predicate DeliveryWorks(s: Store, cat: Catalog, no: OrderNo, chance: Chance)
    requires no in s.orders
  {
    Proper(s.orders[no]) && if s.orders[no].status == Fulfilled then !chance.commitFails else GoesThrough(s, cat, no, chance)
  }

  lemma MarkedWorks(s: Store, cat: Catalog, users: set<UserId>, no: OrderNo, order: Order, chance: Chance, now: Time)
    requires Safe(s, cat, users) && no in s.orders && SameBuyer(s.orders[no], order) && order.key == s.orders[no].key
    requires order.status == if s.orders[no].status == Fulfilled then Fulfilled else Paid
    ensures FulfillOrder(SetOrder(s, no, order), cat, no, chance, now).1.Success? <==> DeliveryWorks(s, cat, no, chance)
  {
    SetOrderSafe(s, cat, users, no, order);
    StatusAside(s, cat, no, order, chance);
    CallDecided(SetOrder(s, no, order), cat, no, chance, now);
  }

  // ---------------------------------------------------------------- payments and refunds

  // Main result: a payment is done exactly if its order is known, it passes its checks and
  // the delivery works, or there is none to make because it is no checkout.
  lemma PaymentVerdict(s: Store, cfg: Config, cat: Catalog, users: set<UserId>, event: Event, weather: Weather)
    requires Safe(s, cat, users) && event.kind.PaymentPaid?
    ensures var known := event.orderNo != "" && event.orderNo in s.orders;
            ProcessPayment(s, cfg, cat, event, weather).1 ==
              if known && Matches(s.orders[event.orderNo], event)
                 && (s.orders[event.orderNo].kind != Checkout || DeliveryWorks(s, cat, event.orderNo, weather.chance)) then Done else Broken
  {
    if event.orderNo != "" && event.orderNo in s.orders && OrderAfter(s.orders[event.orderNo], event, weather.now).Success? {
      var no: OrderNo := event.orderNo;
      MarkedWorks(s, cat, users, no, OrderAfter(s.orders[no], event, weather.now).value, weather.chance, weather.now);
    }
  }

  // A cancellation, refund or dispute is what the policy decided; an event of a kind that
  // no processor knows is never done.
  lemma OtherVerdict(s: Store, cfg: Config, cat: Catalog, users: set<UserId>, event: Event, weather: Weather)
    requires Safe(s, cat, users) && !event.kind.PaymentPaid? && !IsRenewalKind(event.kind)
    ensures ProcessPayment(s, cfg, cat, event, weather).1 ==
              if event.orderNo == "" || event.orderNo !in s.orders || event.kind.OtherKind? then Broken
              else AdjustVerdict(s.orders[event.orderNo], weather)
  {
    if event.orderNo != "" && event.orderNo in s.orders && !event.kind.OtherKind? {
      var no: OrderNo := event.orderNo;
      var order := OrderAfter(s.orders[no], event, weather.now).value;
      SetOrderSafe(s, cat, users, no, order);
      AdjustDecided(SetOrder(s, no, order), cat, users, no, weather);
    }
  }

  // ---------------------------------------------------------------- renewals

  lemma InitialVerdict(s: Store, cfg: Config, cat: Catalog, users: set<UserId>, event: Event, weather: Weather, no: OrderNo)
    requires Safe(s, cat, users) && event.orderNo == no && no != "" && no in s.orders && CheckoutBacked(s.orders[no], event)
    ensures ProcessPayment(s, cfg, cat, event, weather).1 == if DeliveryWorks(s, cat, no, weather.chance) then Done else Broken
  {
    MarkedWorks(s, cat, users, no, MarkInitialPaid(s.orders[no], event), weather.chance, weather.now);
  }

  // An order that a renewal can be about.
  predicate Renews(order: Order) {
    order.kind == Renewal && order.user != "" && order.sku != ""
  }

  // Main result: a renewal event that does not pay the checkout itself is done exactly if
  // its order is known and its cycle's order found or made, and then - if that is a
  // renewal order - the delivery works, the grace can be given, or the subscription ends.
  lemma RenewalVerdict(s: Store, cfg: Config, cat: Catalog, users: set<UserId>, event: Event, weather: Weather)
    requires Safe(s, cat, users) && IsRenewalKind(event.kind)
    requires event.orderNo != "" && event.orderNo in s.orders ==> !CheckoutBacked(s.orders[event.orderNo], event)
    ensures var verdict := ProcessPayment(s, cfg, cat, event, weather).1;
            if event.orderNo == "" || event.orderNo !in s.orders || Resolve(s, cfg, event.orderNo, event).Failure? then verdict == Broken
            else
              var (s1, no) := Resolve(s, cfg, event.orderNo, event).value;
              verdict == if !Renews(s1.orders[no]) || event.kind.SubscriptionExpired?
                            || (event.kind.RenewalPaid? && DeliveryWorks(s1, cat, no, weather.chance))
                            || (event.kind.RenewalFailed? && GraceWaits(s1, cfg, cat, no)) then Done else Broken
  {
    if event.orderNo != "" && event.orderNo in s.orders && Resolve(s, cfg, event.orderNo, event).Success? {
      var (s1, no) := Resolve(s, cfg, event.orderNo, event).value;
      ResolveSafe(s, cfg, cat, users, event.orderNo, event);
      TargetVerdict(s, s1, cfg, cat, users, no, event, weather);
    }
  }

  lemma TargetVerdict(s: Store, s1: Store, cfg: Config, cat: Catalog, users: set<UserId>, no: OrderNo, event: Event, weather: Weather)
    requires Safe(s1, cat, users) && IsRenewalKind(event.kind) && no in s1.orders
    ensures ApplyToRenewal(s, s1, cfg, cat, no, event, weather).1 ==
              if !Renews(s1.orders[no]) || event.kind.SubscriptionExpired?
                 || (event.kind.RenewalPaid? && DeliveryWorks(s1, cat, no, weather.chance))
                 || (event.kind.RenewalFailed? && GraceWaits(s1, cfg, cat, no)) then Done else Broken
  {
    if Renews(s1.orders[no]) {
      if event.kind.RenewalPaid? {
        MarkedWorks(s1, cat, users, no, RenewalOrderAfter(s1.orders[no], event), weather.chance, weather.now);
      } else if event.kind.RenewalFailed? {
        GraceVerdict(s1, cfg, cat, no, event);
      }
    }
  }

  lemma GraceVerdict(s: Store, cfg: Config, cat: Catalog, no: OrderNo, event: Event)
    requires no in s.orders
    ensures var order, grace := s.orders[no], GraceFor(cfg, s.orders[no].sku);
            var s2 := SetOrder(s, no, RenewalOrderAfter(order, event));
            grace.Some? && GrantGrace(s2, cfg, cat, no, order.user, grace.value, GraceStart(event)).Success? <==> GraceWaits(s, cfg, cat, no)
  {
    var order := s.orders[no];
    if GraceFor(cfg, order.sku).Some? {
      GraceDecided(SetOrder(s, no, RenewalOrderAfter(order, event)), cfg, cat, no, order.user, GraceFor(cfg, order.sku).value, GraceStart(event));
    }
  }
}
