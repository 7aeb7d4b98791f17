/** What one processed event does to an order, whichever order it names: the status it
    leaves and whether the order is delivered, decided without running the event. */
module OrderEvents {
  import opened Wrappers
  import opened DeliveryKeys
  import opened Commerce
  import opened FulfillmentSpec
  import opened Delivery
  import opened Payments
  import opened CommerceRuns
  import opened Renewals
  import opened DeliveryOutcome

  // The two checks a payment passes before it touches the order.
  predicate Matches(order: Order, event: Event) {
    && (event.amount > 0 && order.amount > 0 ==> event.amount == order.amount)
    && CurrencyMatches(order.currency, event.currency)
  }

  // ---------------------------------------------------------------- which orders an event pays

  predicate PaysPlainly(s: Store, event: Event, no: OrderNo)
    requires no in s.orders
  {
    event.kind.PaymentPaid? && event.orderNo == no && no != "" && Matches(s.orders[no], event)
  }

  predicate PaysInitially(s: Store, event: Event, no: OrderNo)
    requires no in s.orders
  {
    event.orderNo == no && no != "" && CheckoutBacked(s.orders[no], event)
  }

  // A renewal event is about an order either named outright or derived for its cycle.
  predicate Reaches(s: Store, cfg: Config, event: Event, no: OrderNo)
    requires no in s.orders
  {
    && IsRenewalKind(event.kind) && event.orderNo != "" && event.orderNo in s.orders
    && !CheckoutBacked(s.orders[event.orderNo], event)
    && s.orders[no].kind == Renewal && s.orders[no].user != "" && s.orders[no].sku != ""
    && if Renewable(s.orders[event.orderNo]) then s.orders[no].key == Some(RenewalKey(event.orderNo, CycleOf(cfg, event)))
       else event.orderNo == no
  }

  predicate PaysCycle(s: Store, cfg: Config, event: Event, no: OrderNo)
    requires no in s.orders
  {
    event.kind.RenewalPaid? && Reaches(s, cfg, event, no)
  }

  // ---------------------------------------------------------------- grace

  // Each grace grant is there already, or can be given.
  predicate GraceReady(s: Store, cat: Catalog, no: OrderNo, user: UserId, entitlements: seq<string>) {
    forall i :: 0 <= i < |entitlements| ==> OneReady(s.grants, s.wallet.users, cat, no, user, entitlements[i])
  }

  predicate OneReady(grants: seq<Grant>, users: set<UserId>, cat: Catalog, no: OrderNo, user: UserId, entitlement: string) {
    var existing := FindGrant(grants, GraceKey(no, entitlement));
    && user != "" && entitlement != ""
    && if existing.Some? then grants[existing.value].user == user && grants[existing.value].entitlement == entitlement
       else entitlement in cat.entitlements && user in users
  }

  lemma GraceKeyApart(no: OrderNo, a: string, b: string)
    ensures GraceKey(no, a) == GraceKey(no, b) <==> a == b
  {
    var prefix := "subscription_grace:" + no + ":";
    assert GraceKey(no, a)[|prefix|..] == a && GraceKey(no, b)[|prefix|..] == b;
  }

  lemma OneMoreReady(grants: seq<Grant>, users: set<UserId>, cat: Catalog, no: OrderNo, user: UserId, first: string, g: Grant, other: string)
    requires FindGrant(grants, GraceKey(no, first)).None? && OneReady(grants, users, cat, no, user, first)
    requires g.user == user && g.entitlement == first && g.key == GraceKey(no, first)
    ensures OneReady(grants + [g], users, cat, no, user, other) <==> OneReady(grants, users, cat, no, user, other)
  {
    GraceKeyApart(no, first, other);
    assert (grants + [g])[..|grants|] == grants;
  }

  lemma FirstReady(s: Store, cat: Catalog, no: OrderNo, user: UserId, entitlements: seq<string>)
    requires entitlements != []
    ensures GraceReady(s, cat, no, user, entitlements)
       <==> OneReady(s.grants, s.wallet.users, cat, no, user, entitlements[0]) && GraceReady(s, cat, no, user, entitlements[1..])
  {
    assert forall i :: 0 <= i < |entitlements[1..]| ==> entitlements[1..][i] == entitlements[i + 1];
  }

  lemma RestReady(s: Store, cat: Catalog, no: OrderNo, user: UserId, first: string, g: Grant, rest: seq<string>)
    requires FindGrant(s.grants, GraceKey(no, first)).None? && OneReady(s.grants, s.wallet.users, cat, no, user, first)
    requires g.user == user && g.entitlement == first && g.key == GraceKey(no, first)
    ensures GraceReady(s.(grants := s.grants + [g]), cat, no, user, rest) <==> GraceReady(s, cat, no, user, rest)
  {
    forall i | 0 <= i < |rest|
      ensures OneReady(s.grants + [g], s.wallet.users, cat, no, user, rest[i]) <==> OneReady(s.grants, s.wallet.users, cat, no, user, rest[i])
    {
      OneMoreReady(s.grants, s.wallet.users, cat, no, user, first, g, rest[i]);
    }
  }

  lemma {:induction false} GraceDecided(s: Store, cfg: Config, cat: Catalog, no: OrderNo, user: UserId, entitlements: seq<string>, startsAt: Time)
    ensures GrantGrace(s, cfg, cat, no, user, entitlements, startsAt).Success? <==> GraceReady(s, cat, no, user, entitlements)
    decreases |entitlements|
  {
    if entitlements != [] {
      var first, rest := entitlements[0], entitlements[1..];
      var grant := Grant(user, first, Active, SubscriptionGrace, startsAt, Some(startsAt + GraceDays(cfg) * DAY), GraceKey(no, first));
      var created := CreateGrant(s.grants, s.wallet.users, cat, grant);
      assert created.Success? <==> OneReady(s.grants, s.wallet.users, cat, no, user, first);
      FirstReady(s, cat, no, user, entitlements);
      if created.Success? {
        var next := s.(grants := created.value.0);
        GraceDecided(next, cfg, cat, no, user, rest, startsAt);
        if next.grants != s.grants {
          RestReady(s, cat, no, user, first, grant, rest);
        }
      }
    }
  }

  // ---------------------------------------------------------------- what becomes of an order

  // The order's status afterwards, and whether it was delivered on the way.
  ghost predicate Ends(s: Store, r: Store, cat: Catalog, no: OrderNo, status: OrderStatus, delivered: bool)
    requires no in s.orders
  {
    && no in r.orders && r.orders[no].status == status
    && (Complete(r, cat, no) <==> Complete(s, cat, no) || delivered)
  }

  // A delivery's effect on an order tried as paid ...
  lemma TriedEnds(s: Store, cat: Catalog, users: set<UserId>, no: OrderNo, order: Order, chance: Chance, now: Time)
    requires Safe(s, cat, users) && no in s.orders && SameBuyer(s.orders[no], order) && order.status == Paid
    ensures var r := FulfillOrder(SetOrder(s, no, order), cat, no, chance, now);
            && (r.1.Success? <==> GoesThrough(s, cat, no, chance))
            && Ends(s, r.0, cat, no, if r.1.Success? then Fulfilled else Paid, r.1.Success?)
            && (r.1.Failure? ==> Ends(s, s.(executions := r.0.executions), cat, no, s.orders[no].status, false))
  {
    var s1 := SetOrder(s, no, order);
    SetOrderSafe(s, cat, users, no, order);
    PaidOutcome(s1, cat, no, chance, now);
    StatusAside(s, cat, no, order, chance);
    var r := FulfillOrder(s1, cat, no, chance, now);
    if r.1.Failure? {
      StatusAside(s.(executions := r.0.executions), cat, no, order, chance);
    }
  }

  // ... on one fulfilled already ...
  lemma FulfilledEnds(s: Store, cat: Catalog, no: OrderNo, order: Order, chance: Chance, now: Time)
    requires Delivered(s, cat) && no in s.orders && s.orders[no].status == Fulfilled
    ensures Ends(s, FulfillOrder(s, cat, no, chance, now).0, cat, no, Fulfilled, false)
  {
    assert Complete(s, cat, no);
    assert PersistFailed(s.executions, []) == s.executions;
    assert FulfillOrder(s, cat, no, chance, now).0 == s;
  }

  lemma AppliedAlikeEnds(s: Store, r: Store, cat: Catalog, no: OrderNo)
    requires no in s.orders && no in r.orders && r.orders[no] == s.orders[no]
    requires forall q :: IsApplied(r, no, q) <==> IsApplied(s, no, q)
    ensures Ends(s, r, cat, no, s.orders[no].status, false)
  {
  }

  lemma OtherOrderKept(s: Store, cat: Catalog, no: OrderNo, other: OrderNo, chance: Chance, now: Time)
    requires no in s.orders && no != other
    ensures var r := FulfillOrder(s, cat, other, chance, now).0; no in r.orders && r.orders[no] == s.orders[no]
  {
    if FulfillInside(s, cat, other, chance, now).outcome.Success? && s.orders[other].status != Fulfilled {
      RulesKeepOrders(s, cat, other, s.orders[other], RulesFor(cat, s.orders[other].sku), chance, now);
    }
  }

  lemma OtherRulesKept(s: Store, cat: Catalog, no: OrderNo, other: OrderNo, chance: Chance, now: Time)
    requires Delivered(s, cat) && no != other
    ensures forall q :: IsApplied(FulfillOrder(s, cat, other, chance, now).0, no, q) <==> IsApplied(s, no, q)
  {
    FulfillKeeps(s, cat, other, chance, now);
    if FulfillInside(s, cat, other, chance, now).outcome.Success? {
      AttemptKeeps(s, cat, other, chance, now);
    }
  }

  // ... and on any other order.
  lemma OtherEnds(s: Store, cat: Catalog, no: OrderNo, other: OrderNo, chance: Chance, now: Time)
    requires Delivered(s, cat) && no in s.orders && no != other
    ensures Ends(s, FulfillOrder(s, cat, other, chance, now).0, cat, no, s.orders[no].status, false)
  {
    OtherOrderKept(s, cat, no, other, chance, now);
    OtherRulesKept(s, cat, no, other, chance, now);
    AppliedAlikeEnds(s, FulfillOrder(s, cat, other, chance, now).0, cat, no);
  }

  // Setting one order's status, and nothing else.
  lemma SetEnds(s: Store, cat: Catalog, no: OrderNo, other: OrderNo, order: Order)
    requires no in s.orders && (other == no ==> SameBuyer(s.orders[no], order))
    ensures Ends(s, SetOrder(s, other, order), cat, no, if other == no then order.status else s.orders[no].status, false)
  {
    var r := SetOrder(s, other, order);
    assert forall q :: IsApplied(r, no, q) <==> IsApplied(s, no, q);
  }

  lemma EndsThrough(s: Store, m: Store, r: Store, cat: Catalog, no: OrderNo, first: OrderStatus, second: OrderStatus)
    requires no in s.orders && Ends(s, m, cat, no, first, false) && no in m.orders && Ends(m, r, cat, no, second, false)
    ensures Ends(s, r, cat, no, second, false)
  {
  }

  // ---------------------------------------------------------------- plain events

  lemma AdjustEnds(s: Store, cat: Catalog, users: set<UserId>, no: OrderNo, other: OrderNo, weather: Weather)
    requires Safe(s, cat, users) && no in s.orders && other in s.orders
    ensures Ends(s, Adjust(s, other, weather).0, cat, no, s.orders[no].status, false)
  {
    var r := Adjust(s, other, weather).0;
    AdjustSafe(s, cat, users, other, weather);
    AdjustKeepsOrders(s, other, weather);
    assert forall q :: IsApplied(r, no, q) <==> IsApplied(s, no, q);
    AppliedAlikeEnds(s, r, cat, no);
  }

  // An order after an event that names it, and is no payment.
  function UnpaidStatus(order: Order, event: Event): OrderStatus {
    match event.kind
    case PaymentCancelled => if Settlement(order.status) then order.status else Cancelled
    case PaymentRefunded => Refunded
    case PaymentDisputed => Refunded
    case _ => order.status
  }

  lemma UnpaidEnds(s: Store, cfg: Config, cat: Catalog, users: set<UserId>, event: Event, weather: Weather, no: OrderNo)
    requires Safe(s, cat, users) && no in s.orders && !IsRenewalKind(event.kind) && !event.kind.PaymentPaid?
    ensures Ends(s, ProcessPayment(s, cfg, cat, event, weather).0, cat, no,
                 if event.orderNo == no && no != "" then UnpaidStatus(s.orders[no], event) else s.orders[no].status, false)
  {
    if event.orderNo != "" && event.orderNo in s.orders && OrderAfter(s.orders[event.orderNo], event, weather.now).Success? {
      var other: OrderNo := event.orderNo;
      var order := OrderAfter(s.orders[other], event, weather.now).value;
      var s1 := SetOrder(s, other, order);
      SetOrderSafe(s, cat, users, other, order);
      SetEnds(s, cat, no, other, order);
      AdjustEnds(s1, cat, users, no, other, weather);
      EndsThrough(s, s1, Adjust(s1, other, weather).0, cat, no, s1.orders[no].status, s1.orders[no].status);
    }
  }

  // Whether a paid event has the order delivered ...
  predicate DeliversPlainly(s: Store, cat: Catalog, event: Event, weather: Weather, no: OrderNo)
    requires no in s.orders
  {
    PaysPlainly(s, event, no) && s.orders[no].kind == Checkout && s.orders[no].status != Fulfilled && GoesThrough(s, cat, no, weather.chance)
  }

  // ... and the status it leaves.
  function PlainStatus(s: Store, cat: Catalog, event: Event, weather: Weather, no: OrderNo): OrderStatus
    requires no in s.orders
  {
    if DeliversPlainly(s, cat, event, weather, no) then Fulfilled
    else if PaysPlainly(s, event, no) && s.orders[no].status != Fulfilled then Paid
    else s.orders[no].status
  }

  lemma PlainEnds(s: Store, cfg: Config, cat: Catalog, users: set<UserId>, event: Event, weather: Weather, no: OrderNo)
    requires Safe(s, cat, users) && no in s.orders && event.kind.PaymentPaid?
    ensures Ends(s, ProcessPayment(s, cfg, cat, event, weather).0, cat, no,
                 PlainStatus(s, cat, event, weather, no), DeliversPlainly(s, cat, event, weather, no))
  {
    if event.orderNo != "" && event.orderNo in s.orders && OrderAfter(s.orders[event.orderNo], event, weather.now).Success? {
      var other: OrderNo := event.orderNo;
      var order := OrderAfter(s.orders[other], event, weather.now).value;
      PaidOrderEnds(s, cat, users, no, other, order, weather);
    }
  }

  // An order marked paid - if it was not fulfilled - and delivered if it is a checkout.
  lemma PaidOrderEnds(s: Store, cat: Catalog, users: set<UserId>, no: OrderNo, other: OrderNo, order: Order, weather: Weather)
    requires Safe(s, cat, users) && no in s.orders && other in s.orders && SameBuyer(s.orders[other], order)
    requires order.status == if s.orders[other].status == Fulfilled then Fulfilled else Paid
    ensures var r := if order.kind != Checkout then SetOrder(s, other, order)
                     else FulfillOrder(SetOrder(s, other, order), cat, other, weather.chance, weather.now).0;
            var tried := other == no && order.kind == Checkout && order.status == Paid;
            Ends(s, r, cat, no,
                 if other != no then s.orders[no].status else if tried && GoesThrough(s, cat, no, weather.chance) then Fulfilled else order.status,
                 tried && GoesThrough(s, cat, no, weather.chance))
  {
    var s1 := SetOrder(s, other, order);
    SetEnds(s, cat, no, other, order);
    if order.kind == Checkout {
      if other == no && order.status == Paid {
        TriedEnds(s, cat, users, no, order, weather.chance, weather.now);
      } else {
        SetOrderSafe(s, cat, users, other, order);
        if other == no {
          FulfilledEnds(s1, cat, no, order, weather.chance, weather.now);
        } else {
          OtherEnds(s1, cat, no, other, weather.chance, weather.now);
        }
        EndsThrough(s, s1, FulfillOrder(s1, cat, other, weather.chance, weather.now).0, cat, no, s1.orders[no].status, s1.orders[no].status);
      }
    }
  }

  // ---------------------------------------------------------------- a checkout's first payment

  predicate DeliversInitially(s: Store, cat: Catalog, event: Event, weather: Weather, no: OrderNo)
    requires no in s.orders
  {
    PaysInitially(s, event, no) && s.orders[no].status != Fulfilled && GoesThrough(s, cat, no, weather.chance)
  }

  // Whether a failed delivery takes the mark back with it.
  predicate MarkUndone(order: Order, event: Event) {
    order.paidAt.Some? && event.periodStart.Some?
  }

  function InitialStatus(s: Store, cat: Catalog, event: Event, weather: Weather, no: OrderNo): OrderStatus
    requires no in s.orders
  {
    if DeliversInitially(s, cat, event, weather, no) then Fulfilled
    else if PaysInitially(s, event, no) && s.orders[no].status != Fulfilled && !MarkUndone(s.orders[no], event) then Paid
    else s.orders[no].status
  }

  lemma InitialOtherEnds(s: Store, cat: Catalog, users: set<UserId>, no: OrderNo, other: OrderNo, event: Event, weather: Weather)
    requires Safe(s, cat, users) && no in s.orders && other in s.orders && no != other
    ensures Ends(s, ApplyInitial(s, cat, other, event, weather).0, cat, no, s.orders[no].status, false)
  {
    var order := MarkInitialPaid(s.orders[other], event);
    var marked := SetOrder(s, other, order);
    SetOrderSafe(s, cat, users, other, order);
    SetEnds(s, cat, no, other, order);
    OtherRulesKept(marked, cat, no, other, weather.chance, weather.now);
    OtherOrderKept(marked, cat, no, other, weather.chance, weather.now);
    var r := FulfillOrder(marked, cat, other, weather.chance, weather.now).0;
    SameRecords(s, marked, r, no);
    AppliedAlikeEnds(s, r, cat, no);
    AppliedAlikeEnds(s, s.(executions := r.executions), cat, no);
  }

  lemma SameRecords(s: Store, marked: Store, r: Store, no: OrderNo)
    requires marked.executions == s.executions && forall q :: IsApplied(r, no, q) <==> IsApplied(marked, no, q)
    ensures forall q :: IsApplied(r, no, q) <==> IsApplied(s, no, q)
    ensures forall q :: IsApplied(s.(executions := r.executions), no, q) <==> IsApplied(s, no, q)
  {
    forall q
      ensures IsApplied(r, no, q) <==> IsApplied(s, no, q)
      ensures IsApplied(s.(executions := r.executions), no, q) <==> IsApplied(s, no, q)
    {
      assert IsApplied(r, no, q) <==> IsApplied(marked, no, q);
    }
  }

  lemma InitialFulfilledEnds(s: Store, cat: Catalog, no: OrderNo, event: Event, weather: Weather)
    requires Delivered(s, cat) && no in s.orders && s.orders[no].status == Fulfilled
    ensures Ends(s, ApplyInitial(s, cat, no, event, weather).0, cat, no, Fulfilled, false)
  {
    assert SetOrder(s, no, s.orders[no]) == s;
    assert Complete(s, cat, no);
    assert PersistFailed(s.executions, []) == s.executions;
  }

  lemma InitialEnds(s: Store, cfg: Config, cat: Catalog, users: set<UserId>, event: Event, weather: Weather, no: OrderNo)
    requires Safe(s, cat, users) && no in s.orders
    requires event.orderNo != "" && event.orderNo in s.orders && CheckoutBacked(s.orders[event.orderNo], event)
    ensures Ends(s, ProcessPayment(s, cfg, cat, event, weather).0, cat, no,
                 InitialStatus(s, cat, event, weather, no), DeliversInitially(s, cat, event, weather, no))
  {
    var other: OrderNo := event.orderNo;
    assert ProcessPayment(s, cfg, cat, event, weather) == ApplyInitial(s, cat, other, event, weather);
    if other != no {
      InitialOtherEnds(s, cat, users, no, other, event, weather);
    } else if s.orders[no].status == Fulfilled {
      InitialFulfilledEnds(s, cat, no, event, weather);
    } else {
      TriedEnds(s, cat, users, no, MarkInitialPaid(s.orders[no], event), weather.chance, weather.now);
    }
  }

  // ---------------------------------------------------------------- renewals

  lemma ResolvedIs(s: Store, cfg: Config, event: Event, no: OrderNo)
    requires OrderKeysUnique(s.orders) && no in s.orders && event.orderNo in s.orders && Resolve(s, cfg, event.orderNo, event).Success?
    ensures var r := Resolve(s, cfg, event.orderNo, event).value;
            && r.1 in r.0.orders && no in r.0.orders && r.0.orders[no] == s.orders[no]
            && r.0.grants == s.grants && r.0.wallet == s.wallet && r.0.executions == s.executions
            && (r.1 == no <==> if Renewable(s.orders[event.orderNo]) then s.orders[no].key == Some(RenewalKey(event.orderNo, CycleOf(cfg, event)))
                               else event.orderNo == no)
  {
    var source: OrderNo := event.orderNo;
    if Renewable(s.orders[source]) {
      var key := RenewalKey(source, CycleOf(cfg, event));
      if s.orders[no].key == Some(key) {
        FoundIsUnique(s.orders, key, no);
      }
    }
  }

  // What the grace configured for a failed renewal needs.
  predicate GraceWaits(s: Store, cfg: Config, cat: Catalog, no: OrderNo)
    requires no in s.orders
  {
    var grace := GraceFor(cfg, s.orders[no].sku);
    grace.Some? && GraceReady(s, cat, no, s.orders[no].user, grace.value)
  }

  predicate DeliversCycle(s: Store, cfg: Config, cat: Catalog, event: Event, weather: Weather, no: OrderNo)
    requires no in s.orders
  {
    PaysCycle(s, cfg, event, no) && s.orders[no].status != Fulfilled && GoesThrough(s, cat, no, weather.chance)
  }

  function CycleStatus(s: Store, cfg: Config, cat: Catalog, event: Event, weather: Weather, no: OrderNo): OrderStatus
    requires no in s.orders
  {
    var status := s.orders[no].status;
    if !Reaches(s, cfg, event, no) then status
    else
      match event.kind
      case RenewalPaid => if status == Fulfilled || GoesThrough(s, cat, no, weather.chance) then Fulfilled else Paid
      case RenewalFailed => if Settlement(status) || !GraceWaits(s, cfg, cat, no) then status else Failed
      case _ => if status == Pending || status == CheckoutCreated then Failed else status
  }

  // A paid cycle's order, once its status is updated.
  lemma PaidCycleEnds(s: Store, cat: Catalog, users: set<UserId>, no: OrderNo, event: Event, weather: Weather)
    requires Safe(s, cat, users) && no in s.orders && event.kind.RenewalPaid?
    ensures var r := FulfillOrder(SetOrder(s, no, RenewalOrderAfter(s.orders[no], event)), cat, no, weather.chance, weather.now).0;
            var status, through := s.orders[no].status, GoesThrough(s, cat, no, weather.chance);
            Ends(s, r, cat, no, if status == Fulfilled || through then Fulfilled else Paid, status != Fulfilled && through)
  {
    if s.orders[no].status == Fulfilled {
      assert SetOrder(s, no, s.orders[no]) == s;
      FulfilledEnds(s, cat, no, s.orders[no], weather.chance, weather.now);
    } else {
      TriedEnds(s, cat, users, no, RenewalOrderAfter(s.orders[no], event), weather.chance, weather.now);
    }
  }

  // Stores that differ in grants, credits and other orders only.
  lemma AsideEnds(s: Store, r: Store, cat: Catalog, no: OrderNo)
    requires no in s.orders && no in r.orders && r.orders[no] == s.orders[no] && r.executions == s.executions
    ensures Ends(s, r, cat, no, s.orders[no].status, false)
  {
    assert forall q :: IsApplied(r, no, q) <==> IsApplied(s, no, q);
    AppliedAlikeEnds(s, r, cat, no);
  }

  // What follows a renewal order's new status.
  lemma CycleUpdated(s: Store, s2: Store, cfg: Config, cat: Catalog, event: Event, weather: Weather, target: OrderNo, r: Store)
    requires IsRenewalKind(event.kind) && !event.kind.RenewalPaid? && target in s2.orders
    requires AfterUpdate(s, s2, cfg, cat, target, event, weather, r)
    ensures if event.kind.SubscriptionExpired? || GraceWaits(s2, cfg, cat, target) then r.orders == s2.orders && r.executions == s2.executions
            else r == s
  {
    if event.kind.RenewalFailed? && GraceFor(cfg, s2.orders[target].sku).Some? {
      var grace := GraceFor(cfg, s2.orders[target].sku).value;
      GraceDecided(s2, cfg, cat, target, s2.orders[target].user, grace, GraceStart(event));
      if GraceWaits(s2, cfg, cat, target) {
        GrantGraceBeside(s2, cfg, cat, target, s2.orders[target].user, grace, GraceStart(event));
      }
    }
  }

  // The store a renewal works on has the same order, deliveries and credits.
  ghost predicate SameGround(s: Store, s1: Store, no: OrderNo) {
    && no in s.orders && no in s1.orders && s1.orders[no] == s.orders[no]
    && s1.grants == s.grants && s1.wallet == s.wallet && s1.executions == s.executions
  }

  lemma GroundAlike(s: Store, s1: Store, cfg: Config, cat: Catalog, no: OrderNo, chance: Chance)
    requires SameGround(s, s1, no)
    ensures GoesThrough(s1, cat, no, chance) <==> GoesThrough(s, cat, no, chance)
    ensures GraceWaits(s1, cfg, cat, no) <==> GraceWaits(s, cfg, cat, no)
    ensures Complete(s1, cat, no) <==> Complete(s, cat, no)
  {
    var rules := RulesFor(cat, s.orders[no].sku);
    assert forall q :: IsApplied(s1, no, q) <==> IsApplied(s, no, q);
    assert AppliedRules(s1, no, rules) == AppliedRules(s, no, rules);
  }

  ghost predicate IsRenewal(order: Order) {
    order.kind == Renewal && order.user != "" && order.sku != ""
  }

  lemma PaidTargetEnds(s: Store, s1: Store, cfg: Config, cat: Catalog, users: set<UserId>, event: Event, weather: Weather, no: OrderNo)
    requires Safe(s1, cat, users) && SameGround(s, s1, no) && event.kind.RenewalPaid? && IsRenewal(s.orders[no])
    requires Reaches(s, cfg, event, no)
    ensures Ends(s, ApplyToRenewal(s, s1, cfg, cat, no, event, weather).0, cat, no,
                 CycleStatus(s, cfg, cat, event, weather, no), DeliversCycle(s, cfg, cat, event, weather, no))
  {
    GroundAlike(s, s1, cfg, cat, no, weather.chance);
    PaidCycleEnds(s1, cat, users, no, event, weather);
  }

  lemma UnpaidTargetEnds(s: Store, s1: Store, cfg: Config, cat: Catalog, event: Event, weather: Weather, no: OrderNo)
    requires SameGround(s, s1, no) && IsRenewalKind(event.kind) && !event.kind.RenewalPaid? && IsRenewal(s.orders[no])
    requires Reaches(s, cfg, event, no)
    ensures Ends(s, ApplyToRenewal(s, s1, cfg, cat, no, event, weather).0, cat, no,
                 CycleStatus(s, cfg, cat, event, weather, no), DeliversCycle(s, cfg, cat, event, weather, no))
  {
    var s2, r := SetOrder(s1, no, RenewalOrderAfter(s.orders[no], event)), ApplyToRenewal(s, s1, cfg, cat, no, event, weather).0;
    CycleUpdated(s, s2, cfg, cat, event, weather, no, r);
    UnpaidCycleEnds(s, s1, s2, cfg, cat, event, no, r);
  }

  lemma CycleTargetEnds(s: Store, s1: Store, cfg: Config, cat: Catalog, users: set<UserId>, event: Event, weather: Weather, no: OrderNo)
    requires Safe(s1, cat, users) && SameGround(s, s1, no) && IsRenewalKind(event.kind) && IsRenewal(s.orders[no])
    requires Reaches(s, cfg, event, no)
    ensures Ends(s, ApplyToRenewal(s, s1, cfg, cat, no, event, weather).0, cat, no,
                 CycleStatus(s, cfg, cat, event, weather, no), DeliversCycle(s, cfg, cat, event, weather, no))
  {
    if event.kind.RenewalPaid? {
      PaidTargetEnds(s, s1, cfg, cat, users, event, weather, no);
    } else {
      UnpaidTargetEnds(s, s1, cfg, cat, event, weather, no);
    }
  }

  lemma UnpaidCycleEnds(s: Store, s1: Store, s2: Store, cfg: Config, cat: Catalog, event: Event, no: OrderNo, r: Store)
    requires SameGround(s, s1, no) && s2 == SetOrder(s1, no, RenewalOrderAfter(s.orders[no], event))
    requires if event.kind.SubscriptionExpired? || GraceWaits(s2, cfg, cat, no) then r.orders == s2.orders && r.executions == s2.executions
             else r == s
    ensures (event.kind.SubscriptionExpired? || GraceWaits(s, cfg, cat, no)) ==>
              Ends(s, r, cat, no, RenewalOrderAfter(s.orders[no], event).status, false)
    ensures !(event.kind.SubscriptionExpired? || GraceWaits(s, cfg, cat, no)) ==> Ends(s, r, cat, no, s.orders[no].status, false)
  {
    assert GraceWaits(s2, cfg, cat, no) <==> GraceWaits(s, cfg, cat, no);
    assert forall q :: IsApplied(s2, no, q) <==> IsApplied(s, no, q);
    assert r != s ==> forall q :: IsApplied(r, no, q) <==> IsApplied(s2, no, q);
  }

  lemma CycleOtherEnds(s: Store, s1: Store, cfg: Config, cat: Catalog, users: set<UserId>, event: Event, weather: Weather, no: OrderNo,
                       target: OrderNo)
    requires Safe(s1, cat, users) && SameGround(s, s1, no) && IsRenewalKind(event.kind)
    requires target in s1.orders && target != no && IsRenewal(s1.orders[target])
    ensures Ends(s, ApplyToRenewal(s, s1, cfg, cat, target, event, weather).0, cat, no, s.orders[no].status, false)
  {
    var s2, r := SetOrder(s1, target, RenewalOrderAfter(s1.orders[target], event)), ApplyToRenewal(s, s1, cfg, cat, target, event, weather).0;
    RenewalOrderSafe(s1, cat, users, target, event);
    AsideEnds(s, s2, cat, no);
    if event.kind.RenewalPaid? {
      OtherEnds(s2, cat, no, target, weather.chance, weather.now);
      EndsThrough(s, s2, r, cat, no, s.orders[no].status, s.orders[no].status);
    } else {
      CycleUpdated(s, s2, cfg, cat, event, weather, target, r);
      AsideEnds(s, r, cat, no);
    }
  }

  lemma CycleEnds(s: Store, cfg: Config, cat: Catalog, users: set<UserId>, event: Event, weather: Weather, no: OrderNo)
    requires Safe(s, cat, users) && no in s.orders && IsRenewalKind(event.kind)
    requires event.orderNo != "" && event.orderNo in s.orders && !CheckoutBacked(s.orders[event.orderNo], event)
    ensures Ends(s, ProcessPayment(s, cfg, cat, event, weather).0, cat, no,
                 CycleStatus(s, cfg, cat, event, weather, no), DeliversCycle(s, cfg, cat, event, weather, no))
  {
    if Resolve(s, cfg, event.orderNo, event).Success? {
      var resolved := Resolve(s, cfg, event.orderNo, event).value;
      ResolvedIs(s, cfg, event, no);
      ResolveSafe(s, cfg, cat, users, event.orderNo, event);
      ResolvedEnds(s, resolved.0, cfg, cat, users, event, weather, no, resolved.1);
    } else {
      assert !Reaches(s, cfg, event, no);
    }
  }

  lemma ResolvedEnds(s: Store, s1: Store, cfg: Config, cat: Catalog, users: set<UserId>, event: Event, weather: Weather, no: OrderNo,
                     target: OrderNo)
    requires Safe(s1, cat, users) && SameGround(s, s1, no) && IsRenewalKind(event.kind) && target in s1.orders
    requires event.orderNo != "" && event.orderNo in s.orders && !CheckoutBacked(s.orders[event.orderNo], event)
    requires target == no <==> if Renewable(s.orders[event.orderNo]) then s.orders[no].key == Some(RenewalKey(event.orderNo, CycleOf(cfg, event)))
                               else event.orderNo == no
    ensures Ends(s, ApplyToRenewal(s, s1, cfg, cat, target, event, weather).0, cat, no,
                 CycleStatus(s, cfg, cat, event, weather, no), DeliversCycle(s, cfg, cat, event, weather, no))
  {
    if !IsRenewal(s1.orders[target]) {
      AsideEnds(s, s1, cat, no);
    } else if target == no {
      CycleTargetEnds(s, s1, cfg, cat, users, event, weather, no);
    } else {
      CycleOtherEnds(s, s1, cfg, cat, users, event, weather, no, target);
    }
  }

  // ---------------------------------------------------------------- every event

  predicate Delivers(s: Store, cfg: Config, cat: Catalog, event: Event, weather: Weather, no: OrderNo)
    requires no in s.orders
  {
    || DeliversPlainly(s, cat, event, weather, no)
    || DeliversInitially(s, cat, event, weather, no)
    || DeliversCycle(s, cfg, cat, event, weather, no)
  }

  function OrderStatusAfter(s: Store, cfg: Config, cat: Catalog, event: Event, weather: Weather, no: OrderNo): OrderStatus
    requires no in s.orders
  {
    if event.orderNo == "" || event.orderNo !in s.orders then s.orders[no].status
    else if event.kind.PaymentPaid? then PlainStatus(s, cat, event, weather, no)
    else if !IsRenewalKind(event.kind) then
      if event.orderNo == no then UnpaidStatus(s.orders[no], event) else s.orders[no].status
    else if CheckoutBacked(s.orders[event.orderNo], event) then InitialStatus(s, cat, event, weather, no)
    else CycleStatus(s, cfg, cat, event, weather, no)
  }

  // Main result: the status of every order after every event, and whether the event
  // delivers it.
  lemma EventDecided(s: Store, cfg: Config, cat: Catalog, users: set<UserId>, event: Event, weather: Weather, no: OrderNo)
    requires Safe(s, cat, users) && no in s.orders
    ensures Ends(s, ProcessPayment(s, cfg, cat, event, weather).0, cat, no,
                 OrderStatusAfter(s, cfg, cat, event, weather, no), Delivers(s, cfg, cat, event, weather, no))
  {
    if event.orderNo == "" || event.orderNo !in s.orders {
      AsideEnds(s, s, cat, no);
    } else if event.kind.PaymentPaid? {
      PlainEnds(s, cfg, cat, users, event, weather, no);
    } else if !IsRenewalKind(event.kind) {
      UnpaidEnds(s, cfg, cat, users, event, weather, no);
    } else if CheckoutBacked(s.orders[event.orderNo], event) {
      InitialEnds(s, cfg, cat, users, event, weather, no);
    } else {
      CycleEnds(s, cfg, cat, users, event, weather, no);
    }
  }
}
