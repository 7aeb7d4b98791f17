/** What can still happen to a refunded order: exactly which events take it out of
    being refunded, and that one refunded before anything was delivered is delivered
    in full by a later payment, while one delivered before never is again. */
module LatePayments {
  import opened Wrappers
  import opened DeliveryKeys
  import opened Commerce
  import opened FulfillmentSpec
  import opened Delivery
  import opened Payments
  import opened PaymentInbox
  import opened CommerceWallet
  import opened CommerceRuns
  import opened CommerceResults
  import opened DeliveryOutcome
  import opened OrderEvents
  import Credits

  // ---------------------------------------------------------------- one event

  // A payment that passes its checks, a cancellation, a first payment whose mark is
  // not undone, a payment of its cycle, or a failure of its cycle with grace to give.
  predicate Reopens(s: Store, cfg: Config, cat: Catalog, event: Event, weather: Weather, no: OrderNo)
    requires no in s.orders
  {
    || PaysPlainly(s, event, no)
    || (event.kind.PaymentCancelled? && event.orderNo == no && no != "")
    || (PaysInitially(s, event, no) && (GoesThrough(s, cat, no, weather.chance) || !MarkUndone(s.orders[no], event)))
    || PaysCycle(s, cfg, event, no)
    || (event.kind.RenewalFailed? && Reaches(s, cfg, event, no) && GraceWaits(s, cfg, cat, no))
  }

  lemma StatusReopens(s: Store, cfg: Config, cat: Catalog, event: Event, weather: Weather, no: OrderNo)
    requires no in s.orders && s.orders[no].status == Refunded
    ensures OrderStatusAfter(s, cfg, cat, event, weather, no) != Refunded <==> Reopens(s, cfg, cat, event, weather, no)
    ensures OrderStatusAfter(s, cfg, cat, event, weather, no) == Fulfilled <==> Delivers(s, cfg, cat, event, weather, no)
  {
  }

  lemma EventEnds(s: Store, r: Store, cat: Catalog, no: OrderNo, status: OrderStatus, delivered: bool)
    requires no in s.orders && Ends(s, r, cat, no, status, delivered)
    ensures no in r.orders && r.orders[no].status == status
    ensures !Complete(s, cat, no) ==> (Complete(r, cat, no) <==> delivered)
  {
  }

  // Main result: the events that take an order out of being refunded.
  lemma RefundedLeft(s: Store, cfg: Config, cat: Catalog, users: set<UserId>, event: Event, weather: Weather, no: OrderNo)
    requires Safe(s, cat, users) && no in s.orders && s.orders[no].status == Refunded
    ensures var r := ProcessPayment(s, cfg, cat, event, weather).0;
            no in r.orders && (r.orders[no].status != Refunded <==> Reopens(s, cfg, cat, event, weather, no))
  {
    var r := ProcessPayment(s, cfg, cat, event, weather).0;
    EventDecided(s, cfg, cat, users, event, weather, no);
    StatusReopens(s, cfg, cat, event, weather, no);
    EventEnds(s, r, cat, no, OrderStatusAfter(s, cfg, cat, event, weather, no), Delivers(s, cfg, cat, event, weather, no));
  }

  // How often each rule of the order has been delivered.
  ghost predicate DeliveredEach(s: Store, cat: Catalog, no: OrderNo, times: nat)
    requires no in s.orders
  {
    var rules := RulesFor(cat, s.orders[no].sku);
    forall i :: 0 <= i < |rules| ==> DeliveriesOf(s, no, rules[i].id) == times
  }

  lemma CompleteDelivers(s: Store, cat: Catalog, no: OrderNo)
    requires Delivered(s, cat) && no in s.orders
    ensures DeliveredEach(s, cat, no, if Complete(s, cat, no) then 1 else 0)
  {
    var rules := RulesFor(cat, s.orders[no].sku);
    forall i | 0 <= i < |rules|
      ensures DeliveriesOf(s, no, rules[i].id) == if Complete(s, cat, no) then 1 else 0
    {
      DeliveredOnce(s, cat, no, rules[i].id);
    }
  }

  // Main result: an order refunded before anything was delivered is delivered - each
  // rule once, and the order fulfilled - by exactly the payments that pass their checks
  // and find nothing in the way; after any other event still nothing is delivered.
  lemma RefundedDelivered(s: Store, cfg: Config, cat: Catalog, users: set<UserId>, event: Event, weather: Weather, no: OrderNo)
    requires Safe(s, cat, users) && no in s.orders && s.orders[no].status == Refunded && !Complete(s, cat, no)
    ensures var r := ProcessPayment(s, cfg, cat, event, weather).0;
            && no in r.orders
            && (Complete(r, cat, no) <==> Delivers(s, cfg, cat, event, weather, no))
            && (r.orders[no].status == Fulfilled <==> Delivers(s, cfg, cat, event, weather, no))
            && DeliveredEach(r, cat, no, if Delivers(s, cfg, cat, event, weather, no) then 1 else 0)
  {
    var r := ProcessPayment(s, cfg, cat, event, weather).0;
    EventDecided(s, cfg, cat, users, event, weather, no);
    StatusReopens(s, cfg, cat, event, weather, no);
    EventEnds(s, r, cat, no, OrderStatusAfter(s, cfg, cat, event, weather, no), Delivers(s, cfg, cat, event, weather, no));
    ProcessSafe(s, cfg, cat, users, event, weather);
    CompleteDelivers(r, cat, no);
  }

  // For a checkout and a plain payment: the two checks, and a delivery that goes through.
  lemma RefundedThenPaid(s: Store, cfg: Config, cat: Catalog, users: set<UserId>, event: Event, weather: Weather, no: OrderNo)
    requires Safe(s, cat, users) && no in s.orders && s.orders[no].status == Refunded && s.orders[no].kind == Checkout
    requires event.kind.PaymentPaid? && event.orderNo == no && no != ""
    ensures var r, order := ProcessPayment(s, cfg, cat, event, weather).0, s.orders[no];
            && no in r.orders
            && r.orders[no].status == (if !Matches(order, event) then Refunded
                                       else if GoesThrough(s, cat, no, weather.chance) then Fulfilled else Paid)
            && (Complete(r, cat, no) && !Complete(s, cat, no) <==>
                  Matches(order, event) && GoesThrough(s, cat, no, weather.chance) && !Complete(s, cat, no))
  {
    EventDecided(s, cfg, cat, users, event, weather, no);
  }

  // The same for its first payment when reported as a renewal, whose mark is undone if
  // the unit of work around the delivery fails.
  lemma RefundedThenRenewed(s: Store, cfg: Config, cat: Catalog, users: set<UserId>, event: Event, weather: Weather, no: OrderNo)
    requires Safe(s, cat, users) && no in s.orders && s.orders[no].status == Refunded
    requires event.orderNo == no && no != "" && CheckoutBacked(s.orders[no], event)
    ensures var r, order := ProcessPayment(s, cfg, cat, event, weather).0, s.orders[no];
            && no in r.orders
            && r.orders[no].status == (if GoesThrough(s, cat, no, weather.chance) then Fulfilled
                                       else if MarkUndone(order, event) then Refunded else Paid)
            && (Complete(r, cat, no) && !Complete(s, cat, no) <==> GoesThrough(s, cat, no, weather.chance) && !Complete(s, cat, no))
  {
    EventDecided(s, cfg, cat, users, event, weather, no);
  }

  // ---------------------------------------------------------------- what a step processes

  function Called(row: Row, force: bool, env: Env): Option<(Event, Weather)> {
    if Terminal(row.status) && !(force && row.status.UnderReview?) then None
    else if env.fault.FirstWriteFails? || !Processable(row.event.kind) then None
    else Some((row.event, env.weather))
  }

  // The event a step has processed, if any.
  function CallOf(sys: System, step: Step): Option<(Event, Weather)> {
    match step
    case Webhook(event, env) =>
      if event.provider == "" || event.eventId == "" then None
      else
        var existing := FindRow(sys.rows, event.provider, event.eventId);
        if existing.None? then if env.fault.CreateFails? then None else Called(Row(event, Received, 0, None), false, env)
        else if sys.rows[existing.value].status.Processing? then None
        else Called(sys.rows[existing.value], false, env)
    case Reprocess(row, env) => if row < |sys.rows| then Called(sys.rows[row], true, env) else None
    case _ => None
  }

  lemma StepProcesses(sys: System, cfg: Config, cat: Catalog, step: Step)
    requires Allowed(sys, step)
    ensures var r := Act(sys, cfg, cat, step).store;
            match CallOf(sys, step)
            case Some((event, weather)) => r == ProcessPayment(sys.store, cfg, cat, event, weather).0
            case None =>
              r.executions == sys.store.executions && forall no :: no in sys.store.orders ==> no in r.orders && r.orders[no] == sys.store.orders[no]
  {
  }

  // ---------------------------------------------------------------- over runs

  ghost predicate StepReopens(sys: System, cfg: Config, cat: Catalog, step: Step, no: OrderNo)
    requires no in sys.store.orders
  {
    var call := CallOf(sys, step);
    call.Some? && Reopens(sys.store, cfg, cat, call.value.0, call.value.1, no)
  }

  ghost predicate NeverReopened(sys: System, cfg: Config, cat: Catalog, steps: seq<Step>, no: OrderNo)
    decreases |steps|
  {
    steps == [] || (no in sys.store.orders && !StepReopens(sys, cfg, cat, steps[0], no)
                    && NeverReopened(Act(sys, cfg, cat, steps[0]), cfg, cat, steps[1..], no))
  }

  ghost predicate IsRefunded(sys: System, no: OrderNo) {
    no in sys.store.orders && sys.store.orders[no].status == Refunded
  }

  ghost predicate StaysRefunded(sys: System, cfg: Config, cat: Catalog, steps: seq<Step>, no: OrderNo)
    decreases |steps|
  {
    IsRefunded(sys, no) && (steps == [] || StaysRefunded(Act(sys, cfg, cat, steps[0]), cfg, cat, steps[1..], no))
  }

  lemma StepRefunded(sys: System, cfg: Config, cat: Catalog, users: set<UserId>, step: Step, no: OrderNo)
    requires Safe(sys.store, cat, users) && Allowed(sys, step) && IsRefunded(sys, no)
    ensures IsRefunded(Act(sys, cfg, cat, step), no) <==> !StepReopens(sys, cfg, cat, step, no)
  {
    StepProcesses(sys, cfg, cat, step);
    if CallOf(sys, step).Some? {
      RefundedLeft(sys.store, cfg, cat, users, CallOf(sys, step).value.0, CallOf(sys, step).value.1, no);
    }
  }

  // Main result, over runs: an order is refunded at every point of a run exactly if no
  // event processed on the way reopens it.
  lemma {:induction false} RefundedUntilReopened(sys: System, cfg: Config, cat: Catalog, users: set<UserId>, steps: seq<Step>, no: OrderNo)
    requires Safe(sys.store, cat, users) && AllowedRun(sys, cfg, cat, steps) && IsRefunded(sys, no)
    ensures StaysRefunded(sys, cfg, cat, steps, no) <==> NeverReopened(sys, cfg, cat, steps, no)
    decreases |steps|
  {
    if steps != [] {
      var next := Act(sys, cfg, cat, steps[0]);
      ActSafe(sys, cfg, cat, users, steps[0]);
      StepRefunded(sys, cfg, cat, users, steps[0], no);
      if IsRefunded(next, no) {
        RefundedUntilReopened(next, cfg, cat, users, steps[1..], no);
      }
    }
  }

  // ---- undelivered

  ghost predicate Undelivered(sys: System, cat: Catalog, no: OrderNo) {
    no in sys.store.orders && !Complete(sys.store, cat, no)
  }

  ghost predicate StepDelivers(sys: System, cfg: Config, cat: Catalog, step: Step, no: OrderNo)
    requires no in sys.store.orders
  {
    var call := CallOf(sys, step);
    call.Some? && Delivers(sys.store, cfg, cat, call.value.0, call.value.1, no)
  }

  ghost predicate NeverDelivers(sys: System, cfg: Config, cat: Catalog, steps: seq<Step>, no: OrderNo)
    decreases |steps|
  {
    steps == [] || (no in sys.store.orders && !StepDelivers(sys, cfg, cat, steps[0], no)
                    && NeverDelivers(Act(sys, cfg, cat, steps[0]), cfg, cat, steps[1..], no))
  }

  lemma StepUndelivered(sys: System, cfg: Config, cat: Catalog, users: set<UserId>, step: Step, no: OrderNo)
    requires Safe(sys.store, cat, users) && Allowed(sys, step) && Undelivered(sys, cat, no)
    ensures Undelivered(Act(sys, cfg, cat, step), cat, no) <==> !StepDelivers(sys, cfg, cat, step, no)
  {
    StepProcesses(sys, cfg, cat, step);
    if CallOf(sys, step).Some? {
      EventDecided(sys.store, cfg, cat, users, CallOf(sys, step).value.0, CallOf(sys, step).value.1, no);
    } else {
      AsideEnds(sys.store, Act(sys, cfg, cat, step).store, cat, no);
    }
    ActSafe(sys, cfg, cat, users, step);
  }

  lemma {:induction false} DeliveredStays(sys: System, cfg: Config, cat: Catalog, users: set<UserId>, steps: seq<Step>, no: OrderNo)
    requires Safe(sys.store, cat, users) && AllowedRun(sys, cfg, cat, steps) && no in sys.store.orders && Complete(sys.store, cat, no)
    ensures var r := RunSteps(sys, cfg, cat, steps).store; no in r.orders && Complete(r, cat, no)
  {
    RunSafe(sys, cfg, cat, users, steps);
  }

  // Main result, over runs: an order - open, failed, cancelled or refunded - of which
  // nothing is delivered ends so exactly if no event processed on the way delivers it.
  lemma {:induction false} UndeliveredUntilPaid(sys: System, cfg: Config, cat: Catalog, users: set<UserId>, steps: seq<Step>, no: OrderNo)
    requires Safe(sys.store, cat, users) && AllowedRun(sys, cfg, cat, steps) && Undelivered(sys, cat, no)
    ensures Undelivered(RunSteps(sys, cfg, cat, steps), cat, no) <==> NeverDelivers(sys, cfg, cat, steps, no)
    decreases |steps|
  {
    if steps != [] {
      var next := Act(sys, cfg, cat, steps[0]);
      ActSafe(sys, cfg, cat, users, steps[0]);
      StepUndelivered(sys, cfg, cat, users, steps[0], no);
      if Undelivered(next, cat, no) {
        UndeliveredUntilPaid(next, cfg, cat, users, steps[1..], no);
      } else {
        DeliveredStays(next, cfg, cat, users, steps[1..], no);
      }
    }
  }

  // ---- as far as the events tell

  // An event of a kind that may reopen an order, and about this one.
  predicate MayReopen(cfg: Config, event: Event, no: OrderNo, key: Option<OrderKey>) {
    && (event.kind.PaymentPaid? || event.kind.PaymentCancelled? || event.kind.RenewalPaid? || event.kind.RenewalFailed?)
    && (event.orderNo == no || (':' !in event.orderNo && key == Some(RenewalKey(event.orderNo, CycleOf(cfg, event)))))
  }

  predicate LeftAlone(sys: System, cfg: Config, steps: seq<Step>, no: OrderNo, key: Option<OrderKey>) {
    && (forall i :: 0 <= i < |sys.rows| ==> !MayReopen(cfg, sys.rows[i].event, no, key))
    && (forall k :: 0 <= k < |steps| && steps[k].Webhook? ==> !MayReopen(cfg, steps[k].event, no, key))
  }

  lemma ReopensMay(s: Store, cfg: Config, cat: Catalog, event: Event, weather: Weather, no: OrderNo)
    requires no in s.orders && Reopens(s, cfg, cat, event, weather, no)
    ensures MayReopen(cfg, event, no, s.orders[no].key)
  {
  }

  lemma StepLeavesAlone(sys: System, cfg: Config, cat: Catalog, steps: seq<Step>, no: OrderNo, key: Option<OrderKey>)
    requires steps != [] && LeftAlone(sys, cfg, steps, no, key)
    ensures LeftAlone(Act(sys, cfg, cat, steps[0]), cfg, steps[1..], no, key)
    ensures CallOf(sys, steps[0]).Some? ==> !MayReopen(cfg, CallOf(sys, steps[0]).value.0, no, key)
  {
    assert forall k :: 0 <= k < |steps[1..]| ==> steps[1..][k] == steps[k + 1];
  }

  // So an order that no event still to be processed may reopen stays refunded.
  lemma {:induction false} RefundedWhenLeftAlone(sys: System, cfg: Config, cat: Catalog, users: set<UserId>, steps: seq<Step>, no: OrderNo)
    requires Safe(sys.store, cat, users) && AllowedRun(sys, cfg, cat, steps) && IsRefunded(sys, no)
    requires LeftAlone(sys, cfg, steps, no, sys.store.orders[no].key)
    ensures StaysRefunded(sys, cfg, cat, steps, no)
    decreases |steps|
  {
    if steps != [] {
      var next, call := Act(sys, cfg, cat, steps[0]), CallOf(sys, steps[0]);
      ActSafe(sys, cfg, cat, users, steps[0]);
      StepLeavesAlone(sys, cfg, cat, steps, no, sys.store.orders[no].key);
      if call.Some? && Reopens(sys.store, cfg, cat, call.value.0, call.value.1, no) {
        ReopensMay(sys.store, cfg, cat, call.value.0, call.value.1, no);
      }
      StepRefunded(sys, cfg, cat, users, steps[0], no);
      RefundedWhenLeftAlone(next, cfg, cat, users, steps[1..], no);
    }
  }

  // ---------------------------------------------------------------- delivered before

  // No grant and no ledger entry of the order is new.
  ghost predicate NothingNew(s: Store, r: Store, no: OrderNo) {
    && (forall q, i :: 0 <= i < |r.grants| && r.grants[i].key == EntitlementKey(no, q) ==> i < |s.grants|)
    && (forall q, i :: 0 <= i < |r.wallet.ledger| && r.wallet.ledger[i].key == Credits.CallerKey(CreditsKey(no, q)) ==> i < |s.wallet.ledger|)
  }

  // What a complete order has delivered later, it had delivered already.
  lemma NamedBefore(s: Store, r: Store, cat: Catalog, no: OrderNo, rule: string, ref: nat, entitlement: bool)
    requires Delivered(s, cat) && Delivered(r, cat) && Lasting(s, r) && no in s.orders && Complete(s, cat, no)
    requires Names(r, no, rule, ref, entitlement)
    ensures Names(s, no, rule, ref, entitlement)
  {
    var e := r.executions[ExecutionKey(no, rule)];
    assert RecordSound(r, cat, ExecutionKey(no, rule));
    ExecutionKeyUnique(no, rule, e.order, e.rule);
    var rules := RulesFor(cat, s.orders[no].sku);
    var k :| 0 <= k < |rules| && BackedBy(r, e, rules[k]);
    assert IsApplied(s, no, rules[k].id);
  }

  lemma NamedWithin(s: Store, cat: Catalog, no: OrderNo, rule: string, ref: nat, entitlement: bool)
    requires Delivered(s, cat) && Names(s, no, rule, ref, entitlement)
    ensures if entitlement then ref < |s.grants| else ref < |s.wallet.ledger|
  {
    var e := s.executions[ExecutionKey(no, rule)];
    assert RecordSound(s, cat, ExecutionKey(no, rule));
    ExecutionKeyUnique(no, rule, e.order, e.rule);
    AppliedNamesGrant(s, cat, no, e);
  }

  // Main result, over runs: an order with any rule applied - refunded since, or paid
  // again - never gets another grant or ledger entry.
  lemma NeverDeliveredAgain(sys: System, cfg: Config, cat: Catalog, users: set<UserId>, steps: seq<Step>, no: OrderNo, rule: string)
    requires Safe(sys.store, cat, users) && AllowedRun(sys, cfg, cat, steps) && IsApplied(sys.store, no, rule)
    ensures NothingNew(sys.store, RunSteps(sys, cfg, cat, steps).store, no)
  {
    var s, r := sys.store, RunSteps(sys, cfg, cat, steps).store;
    RunSafe(sys, cfg, cat, users, steps);
    AppliedOrderKnown(s, cat, no, rule);
    forall q, i | 0 <= i < |r.grants| && r.grants[i].key == EntitlementKey(no, q)
      ensures i < |s.grants|
    {
      assert Names(r, no, q, i, true);
      NamedBefore(s, r, cat, no, q, i, true);
      NamedWithin(s, cat, no, q, i, true);
    }
    forall q, i | 0 <= i < |r.wallet.ledger| && r.wallet.ledger[i].key == Credits.CallerKey(CreditsKey(no, q))
      ensures i < |s.wallet.ledger|
    {
      assert Names(r, no, q, i, false);
      NamedBefore(s, r, cat, no, q, i, false);
      NamedWithin(s, cat, no, q, i, false);
    }
  }
}
