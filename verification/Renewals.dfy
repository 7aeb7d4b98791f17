/** Subscription renewals: one order per billing cycle, and a paid order that no
    failed, expired or repeated event takes back. */
module Renewals {
  import opened Wrappers
  import opened DeliveryKeys
  import opened Commerce
  import opened FulfillmentSpec
  import opened Payments
  import opened PaymentInbox
  import opened CommerceRuns
  import W = WalletSpec

  // ---------------------------------------------------------------- one order per cycle

  lemma FoundIsUnique(orders: map<OrderNo, Order>, key: OrderKey, no: OrderNo)
    requires OrderKeysUnique(orders) && no in orders && orders[no].key == Some(key)
    ensures FindOrder(orders, key) == no
  {
  }

  predicate Renewable(order: Order) {
    order.kind == Checkout && order.user != "" && order.sku != ""
  }

  // Once an event has settled which order a cycle is, every later event of that
  // cycle finds the same one, whatever has happened in between.
  lemma SameCycleSameOrder(sys: System, cfg: Config, cat: Catalog, users: set<UserId>, no: OrderNo, event: Event, again: Event,
                           steps: seq<Step>)
    requires Safe(sys.store, cat, users) && no in sys.store.orders
    requires Resolve(sys.store, cfg, no, event).Success? && CycleOf(cfg, event) == CycleOf(cfg, again)
    requires AllowedRun(sys.(store := Resolve(sys.store, cfg, no, event).value.0), cfg, cat, steps)
    ensures var first := Resolve(sys.store, cfg, no, event).value;
            var later := RunSteps(sys.(store := first.0), cfg, cat, steps).store;
            no in later.orders && Resolve(later, cfg, no, again) == Success((later, first.1))
  {
    var first := Resolve(sys.store, cfg, no, event).value;
    var resumed := sys.(store := first.0);
    var key := RenewalKey(no, CycleOf(cfg, event));
    ResolveSafe(sys.store, cfg, cat, users, no, event);
    RunSafe(resumed, cfg, cat, users, steps);
    var later := RunSteps(resumed, cfg, cat, steps).store;
    if Renewable(sys.store.orders[no]) {
      assert first.0.orders[first.1].key == Some(key);
      assert later.orders[first.1].key == Some(key);
      FoundIsUnique(later.orders, key, first.1);
    }
  }

  // A failed renewal and the payment that makes up for it later name the same cycle,
  // one by the end of the old period, the other by the start of the new one, and so
  // meet in one order.
  lemma PaymentJoinsFailure(sys: System, cfg: Config, cat: Catalog, users: set<UserId>, no: OrderNo, failed: Event, paid: Event,
                            steps: seq<Step>)
    requires Safe(sys.store, cat, users) && no in sys.store.orders
    requires failed.kind.RenewalFailed? || failed.kind.SubscriptionExpired?
    requires paid.kind.RenewalPaid? && paid.periodStart.Some? && failed.periodEnd == paid.periodStart
    requires Resolve(sys.store, cfg, no, failed).Success?
    requires AllowedRun(sys.(store := Resolve(sys.store, cfg, no, failed).value.0), cfg, cat, steps)
    ensures var first := Resolve(sys.store, cfg, no, failed).value;
            var later := RunSteps(sys.(store := first.0), cfg, cat, steps).store;
            no in later.orders && Resolve(later, cfg, no, paid) == Success((later, first.1))
  {
    SameCycleSameOrder(sys, cfg, cat, users, no, failed, paid, steps);
  }

  // ---------------------------------------------------------------- paid stays paid

  predicate TakesBack(event: Event, no: OrderNo) {
    (event.kind.PaymentRefunded? || event.kind.PaymentDisputed?) && event.orderNo == no
  }

  ghost predicate StaysSettled(before: map<OrderNo, Order>, after: map<OrderNo, Order>, no: OrderNo) {
    no in before && Settlement(before[no].status) ==> no in after && Settlement(after[no].status)
  }

  lemma FulfillSettles(s: Store, cat: Catalog, other: OrderNo, chance: Chance, now: Time, no: OrderNo)
    ensures StaysSettled(s.orders, FulfillOrder(s, cat, other, chance, now).0.orders, no)
  {
    if FulfillInside(s, cat, other, chance, now).outcome.Success? && s.orders[other].status != Fulfilled {
      RulesKeepOrders(s, cat, other, s.orders[other], RulesFor(cat, s.orders[other].sku), chance, now);
    }
  }

  lemma {:induction false} GraceKeepsOrders(s: Store, cfg: Config, cat: Catalog, no: OrderNo, user: UserId, entitlements: seq<string>, startsAt: Time)
    requires GrantGrace(s, cfg, cat, no, user, entitlements, startsAt).Success?
    ensures GrantGrace(s, cfg, cat, no, user, entitlements, startsAt).value.orders == s.orders
  {
    GrantGraceBeside(s, cfg, cat, no, user, entitlements, startsAt);
  }

  lemma {:induction false} CompensateKeepsOrders(s: Store, order: W.Order, listing: seq<Execution>, d: Decision, now: Time)
    requires Compensate(s, order, listing, d, now).Success?
    ensures Compensate(s, order, listing, d, now).value.orders == s.orders
    decreases |listing|
  {
    if listing != [] {
      var e := listing[0];
      if e.target.ToEntitlement? {
        CompensateKeepsOrders(if d.revoke then s.(grants := Revoke(s.grants, e.ref, now)) else s, order, listing[1..], d, now);
      } else if !d.clawback {
        CompensateKeepsOrders(s, order, listing[1..], d, now);
      } else {
        CompensateKeepsOrders(s.(wallet := W.ClawbackOne(s.wallet, order, WalletExecution(e), now).value.0), order, listing[1..], d, now);
      }
    }
  }

  lemma AdjustKeepsOrders(s: Store, no: OrderNo, weather: Weather)
    requires no in s.orders
    ensures Adjust(s, no, weather).0.orders == s.orders
  {
    var order, listing := W.Order(no, s.orders[no].user), AppliedListing(s.executions, no, weather.query);
    if Compensate(s, order, listing, weather.decision, weather.now).Success? {
      CompensateKeepsOrders(s, order, listing, weather.decision, weather.now);
    }
  }

  lemma RenewalKeepsSettled(s: Store, cfg: Config, cat: Catalog, event: Event, weather: Weather, no: OrderNo)
    requires IsRenewalKind(event.kind)
    ensures StaysSettled(s.orders, ApplyRenewal(s, cfg, cat, event, weather).0.orders, no)
  {
    if event.orderNo != "" && event.orderNo in s.orders {
      var source: OrderNo := event.orderNo;
      if CheckoutBacked(s.orders[source], event) {
        FulfillSettles(SetOrder(s, source, MarkInitialPaid(s.orders[source], event)), cat, source, weather.chance, weather.now, no);
      } else if Resolve(s, cfg, source, event).Success? {
        var r := Resolve(s, cfg, source, event).value;
        ToRenewalSettled(s, r.0, cfg, cat, r.1, event, weather, no);
      }
    }
  }

  lemma ToRenewalSettled(s: Store, s1: Store, cfg: Config, cat: Catalog, target: OrderNo, event: Event, weather: Weather, no: OrderNo)
    requires target in s1.orders && StaysSettled(s.orders, s1.orders, no) && IsRenewalKind(event.kind)
    ensures StaysSettled(s.orders, ApplyToRenewal(s, s1, cfg, cat, target, event, weather).0.orders, no)
  {
    var order := s1.orders[target];
    var s2 := SetOrder(s1, target, RenewalOrderAfter(order, event));
    if event.kind.RenewalPaid? {
      FulfillSettles(s2, cat, target, weather.chance, weather.now, no);
    } else if event.kind.RenewalFailed? && GraceFor(cfg, order.sku).Some? {
      var grace := GraceFor(cfg, order.sku).value;
      if GrantGrace(s2, cfg, cat, target, order.user, grace, GraceStart(event)).Success? {
        GraceKeepsOrders(s2, cfg, cat, target, order.user, grace, GraceStart(event));
      }
    }
  }

  // Only a refund or dispute of the order itself takes it out of paid or fulfilled.
  lemma ProcessKeepsSettled(s: Store, cfg: Config, cat: Catalog, event: Event, weather: Weather, no: OrderNo)
    requires !TakesBack(event, no)
    ensures StaysSettled(s.orders, ProcessPayment(s, cfg, cat, event, weather).0.orders, no)
  {
    if IsRenewalKind(event.kind) {
      RenewalKeepsSettled(s, cfg, cat, event, weather, no);
    } else if event.orderNo != "" && event.orderNo in s.orders && OrderAfter(s.orders[event.orderNo], event, weather.now).Success? {
      var source: OrderNo := event.orderNo;
      var s1 := SetOrder(s, source, OrderAfter(s.orders[source], event, weather.now).value);
      AdjustKeepsOrders(s1, source, weather);
      FulfillSettles(s1, cat, source, weather.chance, weather.now, no);
    }
  }

  predicate NeverTakenBack(sys: System, steps: seq<Step>, no: OrderNo) {
    && (forall i :: 0 <= i < |sys.rows| ==> !TakesBack(sys.rows[i].event, no))
    && (forall k :: 0 <= k < |steps| && steps[k].Webhook? ==> !TakesBack(steps[k].event, no))
  }

  lemma ProcessEventSettled(sys: System, cfg: Config, cat: Catalog, id: RowId, force: bool, env: Env, no: OrderNo)
    requires id < |sys.rows| && !TakesBack(sys.rows[id].event, no)
    ensures StaysSettled(sys.store.orders, ProcessEvent(sys, cfg, cat, id, force, env).store.orders, no)
    ensures |ProcessEvent(sys, cfg, cat, id, force, env).rows| == |sys.rows|
    ensures forall i :: 0 <= i < |sys.rows| ==> ProcessEvent(sys, cfg, cat, id, force, env).rows[i].event == sys.rows[i].event
  {
    ProcessKeepsSettled(sys.store, cfg, cat, sys.rows[id].event, env.weather, no);
  }

  lemma ActSettled(sys: System, cfg: Config, cat: Catalog, step: Step, no: OrderNo)
    requires NeverTakenBack(sys, [step], no) && Allowed(sys, step)
    ensures StaysSettled(sys.store.orders, Act(sys, cfg, cat, step).store.orders, no)
    ensures NeverTakenBack(Act(sys, cfg, cat, step), [], no)
  {
    match step
    case Webhook(event, env) =>
      assert [step][0] == step;
      var existing := FindRow(sys.rows, event.provider, event.eventId);
      if existing.None? {
        var arrived := sys.(rows := sys.rows + [Row(event, Received, 0, None)]);
        ProcessEventSettled(arrived, cfg, cat, |sys.rows|, false, env, no);
      } else {
        ProcessEventSettled(sys, cfg, cat, existing.value, false, env, no);
      }
    case Reprocess(row, env) =>
      if row < |sys.rows| {
        ProcessEventSettled(sys, cfg, cat, row, true, env, no);
      }
    case _ =>
  }

  lemma {:induction false} SettledUntilTakenBack(sys: System, cfg: Config, cat: Catalog, steps: seq<Step>, no: OrderNo)
    requires AllowedRun(sys, cfg, cat, steps) && NeverTakenBack(sys, steps, no)
    requires no in sys.store.orders && Settlement(sys.store.orders[no].status)
    ensures var r := RunSteps(sys, cfg, cat, steps).store;
            no in r.orders && Settlement(r.orders[no].status)
    decreases |steps|
  {
    if steps != [] {
      assert NeverTakenBack(sys, [steps[0]], no);
      ActSettled(sys, cfg, cat, steps[0], no);
      assert forall k :: 0 <= k < |steps[1..]| ==> steps[1..][k] == steps[k + 1];
      SettledUntilTakenBack(Act(sys, cfg, cat, steps[0]), cfg, cat, steps[1..], no);
    }
  }
}
