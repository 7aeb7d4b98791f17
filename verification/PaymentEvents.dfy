/** The payment event service as it runs: inbox rows updated step by step, order
    and grant records changed in place, compensation in one unit of work. */
module PaymentEvents {
  import opened Wrappers
  import opened DeliveryKeys
  import opened Commerce
  import opened Payments
  import opened PaymentInbox
  import opened CommerceRuns
  import InboxSafety
  import Spec = FulfillmentSpec
  import Fulfillment
  import W = WalletSpec

  // The execution query finds each applied execution of an order once, in an order of
  // its own.
  ghost predicate Answers(query: ExecutionQuery, executions: map<string, Execution>, orders: set<OrderNo>) {
    forall no :: no in orders ==> IsListing(executions, AppliedKeys(executions, no), query(no))
  }

  class PaymentEventService {
    const config: Config
    const store: Fulfillment.FulfillmentService
    var rows: seq<Row>
    ghost var calls: seq<RowId>

    ghost function Now(): System
      reads this, store, store.credits
    {
      System(store.Now(), rows, calls)
    }

    ghost predicate Valid()
      reads this, store, store.credits
    {
      Safe(store.Now(), store.catalog, store.credits.users) && InboxSafety.InboxSound(Now())
    }

    constructor (config: Config, store: Fulfillment.FulfillmentService)
      requires Safe(store.Now(), store.catalog, store.credits.users)
      ensures this.config == config && this.store == store
      ensures Valid() && Now() == System(store.Now(), [], [])
    {
      this.config, this.store := config, store;
      rows, calls := [], [];
    }

    // ------------------------------------------------------------ orders

    method PutOrder(no: OrderNo, order: Order)
      modifies store`orders
      ensures store.Now() == SetOrder(old(store.Now()), no, order)
    {
      store.orders := store.orders[no := order];
    }

    // PaymentOrderEventProcessor.ProcessPaymentEvent
    method UpdateOrder(no: OrderNo, event: Event, now: Time) returns (r: Spec.Outcome<()>)
      requires no in store.orders
      modifies store`orders
      ensures r.Success? <==> OrderAfter(old(store.orders[no]), event, now).Success?
      ensures r.Failure? ==> store.Now() == old(store.Now())
      ensures r.Success? ==> store.Now() == SetOrder(old(store.Now()), no, OrderAfter(old(store.orders[no]), event, now).value)
    {
      var order := store.orders[no];
      if IsPaidKind(event.kind) && event.amount > 0 && order.amount > 0 && event.amount != order.amount {
        return Failure(InvalidOrder);
      }
      if IsPaidKind(event.kind) && !CurrencyMatches(order.currency, event.currency) {
        return Failure(InvalidOrder);
      }
      r := Success(());
      match event.kind {
        case PaymentPaid | RenewalPaid =>
          if !Settlement(order.status) {
            order := order.(status := Paid, tradeNo := event.tradeNo, provider := event.provider);
            if order.paidAt.None? {
              order := order.(paidAt := Some(now));
            }
          }
        case PaymentCancelled =>
          if !Settlement(order.status) {
            order := order.(status := Cancelled);
          }
        case PaymentRefunded | PaymentDisputed =>
          order := order.(status := Refunded);
        case RenewalFailed =>
          if !Settlement(order.status) {
            order := order.(status := Failed);
          }
        case SubscriptionExpired =>
          if order.status in {Pending, CheckoutCreated} {
            order := order.(status := Failed);
          }
        case OtherKind(_) =>
          return Failure(InvalidOrder);
      }
      PutOrder(no, order);
    }

    // ------------------------------------------------------------ refunds

    // revokeFulfilledGrant
    method RevokeGrant(ref: Option<nat>, now: Time)
      modifies store`grants
      ensures store.grants == Revoke(old(store.grants), ref, now)
    {
      if ref.None? || ref.value >= |store.grants| {
        return;
      }
      var g := store.grants[ref.value];
      if g.status == Revoked {
        assert store.grants[ref.value := g] == store.grants;
        return;
      }
      g := g.(status := Revoked);
      if g.expiresAt.None? || g.expiresAt.value > now {
        g := g.(expiresAt := Some(now));
      }
      store.grants := store.grants[ref.value := g];
    }

    // The compensation loop of applyWithRepos.
    method CompensateAll(order: W.Order, listing: seq<Execution>, d: Decision, now: Time) returns (r: Spec.Outcome<()>)
      modifies store`grants, store.credits
      ensures Compensate(old(store.Now()), order, listing, d, now) == if r.Success? then Success(store.Now()) else Failure(r.error)
    {
      ghost var start := store.Now();
      for i := 0 to |listing|
        invariant Compensate(start, order, listing, d, now) == Compensate(store.Now(), order, listing[i..], d, now)
      {
        assert listing[i..][0] == listing[i] && listing[i..][1..] == listing[i + 1..];
        var e := listing[i];
        match e.target
        case ToEntitlement(_) =>
          if !d.revoke {
            continue;
          }
          RevokeGrant(e.ref, now);
        case ToCredits =>
          if !d.clawback {
            continue;
          }
          var amount := store.credits.ClawbackFulfilled(order, WalletExecution(e), now);
          if amount.Failure? {
            return Failure(CreditsRefused(amount.error));
          }
      }
      r := Success(());
    }

    method ApplyAdjustment(no: OrderNo, weather: Weather) returns (verdict: Verdict)
      requires no in store.orders && Answers(weather.query, store.executions, store.orders.Keys)
      modifies store`grants, store.credits
      ensures Adjust(old(store.Now()), no, weather) == (store.Now(), verdict)
    {
      var order, d := store.orders[no], weather.decision;
      if order.kind != Checkout || order.user == "" {
        return Done;
      }
      if weather.adjustFails {
        return Broken;
      }
      if !d.compensate {
        return if d.manualReview then Decided(ReviewRequired) else if d.rejected then Decided(PolicyRejected) else Done;
      }
      var grants, wallet := store.grants, store.credits.Now();
      var r := CompensateAll(W.Order(no, order.user), weather.query(no), d, weather.now);
      if r.Failure? {
        store.grants := grants;
        store.credits.Rollback(wallet);
        return Broken;
      }
      verdict := Done;
    }

    // ------------------------------------------------------------ renewals

    method FindByKey(key: OrderKey) returns (found: Option<OrderNo>)
      ensures found.Some? <==> HasKey(store.orders, key)
      ensures found.Some? ==> found.value in store.orders && store.orders[found.value].key == Some(key)
    {
      var left := store.orders.Keys;
      while left != {}
        invariant left <= store.orders.Keys
        invariant forall no :: no in store.orders && no !in left ==> store.orders[no].key != Some(key)
        decreases left
      {
        var no :| no in left;
        if store.orders[no].key == Some(key) {
          return Some(no);
        }
        left := left - {no};
      }
      found := None;
    }

    // resolveRenewalOrder
    method ResolveOrder(no: OrderNo, event: Event) returns (r: Spec.Outcome<OrderNo>)
      requires OrderKeysUnique(store.orders) && no in store.orders
      modifies store`orders
      ensures Resolve(old(store.Now()), config, no, event) == if r.Success? then Success((store.Now(), r.value)) else Failure(r.error)
      ensures r.Failure? ==> store.Now() == old(store.Now())
    {
      var source := store.orders[no];
      if source.kind != Checkout || source.user == "" || source.sku == "" {
        return Success(no);
      }
      var key := RenewalKey(no, CycleOf(config, event));
      var existing := FindByKey(key);
      if existing.Some? {
        return Success(existing.value);
      }
      var number := config.digest(key);
      if number in store.orders {
        return Failure(StoreFailure);
      }
      PutOrder(number, Derived(source, key, event));
      r := Success(number);
    }

    // updateRenewalOrderStatus
    method UpdateRenewal(no: OrderNo, event: Event)
      requires no in store.orders
      modifies store`orders
      ensures store.Now() == SetOrder(old(store.Now()), no, RenewalOrderAfter(old(store.orders[no]), event))
    {
      var order := store.orders[no];
      match event.kind {
        case RenewalPaid =>
          if order.status != Fulfilled {
            order := order.(status := Paid, provider := Either(event.provider, order.provider), tradeNo := event.tradeNo);
            if order.paidAt.None? {
              order := order.(paidAt := Some(PaidAt(event)));
            }
          }
        case RenewalFailed =>
          if !Settlement(order.status) {
            order := order.(status := Failed);
          }
        case SubscriptionExpired =>
          if order.status == Pending || order.status == CheckoutCreated {
            order := order.(status := Failed);
          }
        case _ =>
      }
      PutOrder(no, order);
    }

    // ensureGraceGrants
    method EnsureGraceGrants(no: OrderNo, user: UserId, entitlements: seq<string>, startsAt: Time) returns (r: Spec.Outcome<()>)
      modifies store`grants
      ensures GrantGrace(old(store.Now()), config, store.catalog, no, user, entitlements, startsAt)
           == if r.Success? then Success(store.Now()) else Failure(r.error)
    {
      ghost var start := store.Now();
      var graceEnd := startsAt + GraceDays(config) * DAY;
      for i := 0 to |entitlements|
        invariant GrantGrace(start, config, store.catalog, no, user, entitlements, startsAt)
               == GrantGrace(store.Now(), config, store.catalog, no, user, entitlements[i..], startsAt)
      {
        assert entitlements[i..][0] == entitlements[i] && entitlements[i..][1..] == entitlements[i + 1..];
        var grant := Grant(user, entitlements[i], Active, SubscriptionGrace, startsAt, Some(graceEnd), GraceKey(no, entitlements[i]));
        var created := store.CreateGrant(grant);
        if created.Failure? {
          return Failure(created.error);
        }
      }
      r := Success(());
    }

    // The inner loop of expireGraceGrants, over the grants of one entitlement.
    method SweepGrace(user: UserId, entitlement: string, at: Time)
      modifies store`grants
      ensures |store.grants| == old(|store.grants|)
      ensures forall i :: 0 <= i < |store.grants| ==>
                store.grants[i] == if GraceOver(old(store.grants)[i], user, entitlement, at)
                                   then old(store.grants)[i].(status := Expired, expiresAt := Some(at)) else old(store.grants)[i]
    {
      for i := 0 to |store.grants|
        invariant |store.grants| == old(|store.grants|)
        invariant forall k :: i <= k < |store.grants| ==> store.grants[k] == old(store.grants)[k]
        invariant forall k :: 0 <= k < i ==>
                    store.grants[k] == if GraceOver(old(store.grants)[k], user, entitlement, at)
                                       then old(store.grants)[k].(status := Expired, expiresAt := Some(at)) else old(store.grants)[k]
      {
        var g := store.grants[i];
        if g.user != user || g.entitlement != entitlement || g.status != Active || g.source != SubscriptionGrace {
          continue;
        }
        if g.startsAt > at || g.expiresAt.None? || g.expiresAt.value > at {
          continue;
        }
        store.grants := store.grants[i := g.(status := Expired, expiresAt := Some(at))];
      }
    }

    method ExpireGraceGrants(user: UserId, entitlements: seq<string>, at: Time)
      modifies store`grants
      ensures store.grants == ExpireGrace(old(store.grants), user, entitlements, at)
    {
      for i := 0 to |entitlements|
        invariant ExpireGrace(old(store.grants), user, entitlements, at) == ExpireGrace(store.grants, user, entitlements[i..], at)
      {
        assert entitlements[i..][0] == entitlements[i] && entitlements[i..][1..] == entitlements[i + 1..];
        ghost var before := store.grants;
        SweepGrace(user, entitlements[i], at);
        assert store.grants == seq(|before|, k requires 0 <= k < |before| =>
          if GraceOver(before[k], user, entitlements[i], at) then before[k].(status := Expired, expiresAt := Some(at)) else before[k]);
      }
    }

    method ApplyToRenewalOrder(ghost saved: Store, orders: map<OrderNo, Order>, no: OrderNo, event: Event, weather: Weather)
      returns (verdict: Verdict)
      requires no in store.orders && saved == store.Now().(orders := orders) && IsRenewalKind(event.kind)
      modifies store, store.credits
      ensures ApplyToRenewal(saved, old(store.Now()), config, store.catalog, no, event, weather) == (store.Now(), verdict)
    {
      var order := store.orders[no];
      if order.kind != Renewal || order.user == "" || order.sku == "" {
        return Done;
      }
      UpdateRenewal(no, event);
      if event.kind.RenewalPaid? {
        var r := store.FulfillOrder(no, weather.chance, weather.now);
        return Settled(r);
      }
      var grace := GraceFor(config, order.sku);
      if event.kind.RenewalFailed? {
        var grants := store.grants;
        var r := Failure(StoreFailure);
        if grace.Some? {
          r := EnsureGraceGrants(no, order.user, grace.value, GraceStart(event));
        }
        if r.Failure? {
          store.orders, store.grants := orders, grants;
          return Broken;
        }
        return Done;
      }
      if config.sweepsGrace && grace.Some? {
        ExpireGraceGrants(order.user, grace.value, event.receivedAt);
      }
      verdict := Done;
    }

    method ApplyInitialPayment(no: OrderNo, event: Event, weather: Weather) returns (verdict: Verdict)
      requires no in store.orders
      modifies store, store.credits
      ensures ApplyInitial(old(store.Now()), store.catalog, no, event, weather) == (store.Now(), verdict)
    {
      var saved := store.Now();
      PutOrder(no, MarkInitialPaid(store.orders[no], event));
      ghost var marked := store.Now();
      var r := store.FulfillOrder(no, weather.chance, weather.now);
      verdict := Settled(r);
      if r.Failure? && saved.orders[no].paidAt.Some? && event.periodStart.Some? {
        store.orders, store.grants := saved.orders, saved.grants;
        store.credits.Rollback(saved.wallet);
      }
    }

    method ApplyRenewalEvent(event: Event, weather: Weather) returns (verdict: Verdict)
      requires OrderKeysUnique(store.orders) && IsRenewalKind(event.kind)
      modifies store, store.credits
      ensures ApplyRenewal(old(store.Now()), config, store.catalog, event, weather) == (store.Now(), verdict)
    {
      if event.orderNo == "" || event.orderNo !in store.orders {
        return Broken;
      }
      if CheckoutBacked(store.orders[event.orderNo], event) {
        verdict := ApplyInitialPayment(event.orderNo, event, weather);
        return;
      }
      ghost var saved := store.Now();
      var orders := store.orders;
      var resolved := ResolveOrder(event.orderNo, event);
      if resolved.Failure? {
        return Broken;
      }
      verdict := ApplyToRenewalOrder(saved, orders, resolved.value, event, weather);
    }

    // ------------------------------------------------------------ events

    // PaymentFulfillmentEventProcessor.ProcessPaymentEvent
    method ProcessPaymentEvent(event: Event, weather: Weather) returns (verdict: Verdict)
      requires OrderKeysUnique(store.orders) && Answers(weather.query, store.executions, store.orders.Keys)
      modifies store, store.credits
      ensures ProcessPayment(old(store.Now()), config, store.catalog, event, weather) == (store.Now(), verdict)
    {
      if IsRenewalKind(event.kind) {
        verdict := ApplyRenewalEvent(event, weather);
        return;
      }
      if event.orderNo == "" || event.orderNo !in store.orders {
        return Broken;
      }
      var updated := UpdateOrder(event.orderNo, event, weather.now);
      if updated.Failure? {
        return Broken;
      }
      if !event.kind.PaymentPaid? {
        verdict := ApplyAdjustment(event.orderNo, weather);
        return;
      }
      if store.orders[event.orderNo].kind != Checkout {
        return Done;
      }
      var r := store.FulfillOrder(event.orderNo, weather.chance, weather.now);
      verdict := Settled(r);
    }

    // processEvent
    method ProcessRow(id: RowId, force: bool, env: Env)
      requires id < |rows| && OrderKeysUnique(store.orders) && Answers(env.weather.query, store.executions, store.orders.Keys)
      modifies this, store, store.credits
      ensures Now() == ProcessEvent(old(Now()), config, store.catalog, id, force, env)
    {
      var row := rows[id];
      if Terminal(row.status) && !(force && row.status.UnderReview?) {
        return;
      }
      if !Processable(row.event.kind) {
        if !env.fault.FirstWriteFails? {
          rows := rows[id := row.(status := Ignored, processedAt := Some(env.weather.now))];
        }
        return;
      }
      row := row.(status := Processing, attempts := row.attempts + 1);
      if env.fault.FirstWriteFails? {
        return;
      }
      rows := rows[id := row];
      calls := calls + [id];
      var verdict := ProcessPaymentEvent(row.event, env.weather);
      match verdict {
        case Done => row := row.(status := Processed, processedAt := Some(env.weather.now));
        case Broken => row := row.(status := Broke);
        case Decided(review) => row := row.(status := UnderReview(review));
      }
      if !env.fault.LastWriteFails? {
        rows := rows[id := row];
      }
      assert rows == old(rows)[id := rows[id]];
    }

    // The body of ProcessWebhook once the delivery is verified.
    method StoreAndProcess(event: Event, env: Env)
      requires OrderKeysUnique(store.orders) && Answers(env.weather.query, store.executions, store.orders.Keys)
      modifies this, store, store.credits
      ensures Now() == Receive(old(Now()), config, store.catalog, event, env)
    {
      if event.provider == "" || event.eventId == "" {
        return;
      }
      var existing := FindRow(rows, event.provider, event.eventId);
      if existing.Some? {
        if !Terminal(rows[existing.value].status) && !rows[existing.value].status.Processing? {
          ProcessRow(existing.value, false, env);
        }
        return;
      }
      if env.fault.CreateFails? {
        return;
      }
      rows := rows + [Row(event, Received, 0, None)];
      ProcessRow(|rows| - 1, false, env);
    }

    method ReceiveWebhook(event: Event, env: Env)
      requires Valid() && Answers(env.weather.query, store.executions, store.orders.Keys)
      modifies this, store, store.credits
      ensures Now() == Receive(old(Now()), config, store.catalog, event, env)
      ensures Valid()
    {
      InboxSafety.ReceiveMoves(Now(), config, store.catalog, event, env);
      ReceiveSafe(Now(), config, store.catalog, store.credits.users, event, env);
      StoreAndProcess(event, env);
    }

    method Process(id: RowId, env: Env)
      requires Valid() && Answers(env.weather.query, store.executions, store.orders.Keys)
      modifies this, store, store.credits
      ensures Now() == PaymentInbox.Process(old(Now()), config, store.catalog, id, env)
      ensures Valid()
    {
      InboxSafety.ActMoves(Now(), config, store.catalog, Reprocess(id, env));
      ActSafe(Now(), config, store.catalog, store.credits.users, Reprocess(id, env));
      if id < |rows| {
        ProcessRow(id, true, env);
      }
    }
  }
}
