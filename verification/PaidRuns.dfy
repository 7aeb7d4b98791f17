/** Paid time over runs of the whole system: with webhooks, renewals, grace periods,
    refunds of other orders and everything else in between, the end of the time paid
    for moves by exactly the lengths delivered for the first time. */
module PaidRuns {
  import opened Wrappers
  import opened DeliveryKeys
  import opened Commerce
  import opened FulfillmentSpec
  import opened Delivery
  import opened Payments
  import opened PaymentInbox
  import opened CommerceWallet
  import opened CommerceRuns
  import opened LatePayments
  import opened PaidTime
  import W = WalletSpec

  // ---------------------------------------------------------------- what leaves paid time alone

  // The user's paid grants are the same ones; others may come and move.
  ghost predicate SamePaid(before: seq<Grant>, after: seq<Grant>, user: UserId, entitlement: string) {
    && |before| <= |after|
    && (forall i :: 0 <= i < |before| ==> AlikePaid(before[i], after[i], user, entitlement))
    && (forall i :: |before| <= i < |after| ==> !PaidGrant(after[i], user, entitlement))
  }

  predicate AlikePaid(a: Grant, b: Grant, user: UserId, entitlement: string) {
    && (PaidGrant(a, user, entitlement) <==> PaidGrant(b, user, entitlement))
    && (PaidGrant(a, user, entitlement) ==> a.expiresAt == b.expiresAt)
  }

  lemma SamePaidThrough(a: seq<Grant>, b: seq<Grant>, c: seq<Grant>, user: UserId, entitlement: string)
    requires SamePaid(a, b, user, entitlement) && SamePaid(b, c, user, entitlement)
    ensures SamePaid(a, c, user, entitlement)
  {
    forall i | 0 <= i < |a|
      ensures AlikePaid(a[i], c[i], user, entitlement)
    {
      assert AlikePaid(a[i], b[i], user, entitlement) && AlikePaid(b[i], c[i], user, entitlement);
    }
    forall i | |a| <= i < |c|
      ensures !PaidGrant(c[i], user, entitlement)
    {
      if i < |b| {
        assert AlikePaid(b[i], c[i], user, entitlement);
      }
    }
  }

  lemma {:induction false} SameEnd(before: seq<Grant>, after: seq<Grant>, user: UserId, entitlement: string)
    requires SamePaid(before, after, user, entitlement)
    ensures RunsUntil(after, user, entitlement) == RunsUntil(before, user, entitlement)
    decreases |after|
  {
    if after != [] {
      var last := |after| - 1;
      if |before| == |after| {
        assert AlikePaid(before[last], after[last], user, entitlement);
        SameEnd(before[..last], after[..last], user, entitlement);
      } else {
        SameEnd(before, after[..last], user, entitlement);
      }
    }
  }

  // ---- deliveries of other things

  predicate GivesTime(rule: Rule, entitlement: string) {
    rule.kind.GrantEntitlement? && rule.entitlement == entitlement
  }

  // An order that pays for time of this kind for this user.
  predicate Concerns(order: Order, cat: Catalog, user: UserId, entitlement: string) {
    order.user == user && exists i :: 0 <= i < |RulesFor(cat, order.sku)| && GivesTime(RulesFor(cat, order.sku)[i], entitlement)
  }

  lemma RuleBeside(s: Store, cat: Catalog, no: OrderNo, order: Order, rule: Rule, chance: Chance, now: Time, user: UserId, entitlement: string)
    requires order.user != user || !GivesTime(rule, entitlement)
    ensures var r := ApplyRule(s, cat, no, order, rule, chance, now).outcome;
            r.Success? ==> SamePaid(s.grants, r.value.grants, user, entitlement)
  {
  }

  lemma {:induction false} RulesBeside(s: Store, cat: Catalog, no: OrderNo, order: Order, rules: seq<Rule>, chance: Chance, now: Time,
                                       user: UserId, entitlement: string)
    requires order.user != user || forall i :: 0 <= i < |rules| ==> !GivesTime(rules[i], entitlement)
    ensures var r := ApplyRules(s, cat, no, order, rules, chance, now).outcome;
            r.Success? ==> SamePaid(s.grants, r.value.grants, user, entitlement)
    decreases |rules|
  {
    if rules != [] {
      var first := ApplyRule(s, cat, no, order, rules[0], chance, now).outcome;
      RuleBeside(s, cat, no, order, rules[0], chance, now, user, entitlement);
      if first.Success? {
        RulesBeside(first.value, cat, no, order, rules[1..], chance, now, user, entitlement);
        var r := ApplyRules(first.value, cat, no, order, rules[1..], chance, now).outcome;
        if r.Success? {
          SamePaidThrough(s.grants, first.value.grants, r.value.grants, user, entitlement);
        }
      }
    }
  }

  lemma DeliveryBeside(s: Store, cat: Catalog, no: OrderNo, chance: Chance, now: Time, user: UserId, entitlement: string)
    requires no in s.orders && !Concerns(s.orders[no], cat, user, entitlement)
    ensures SamePaid(s.grants, FulfillOrder(s, cat, no, chance, now).0.grants, user, entitlement)
  {
    RulesBeside(s, cat, no, s.orders[no], RulesFor(cat, s.orders[no].sku), chance, now, user, entitlement);
  }

  // ---- grace periods

  lemma {:induction false} GraceBeside(s: Store, cfg: Config, cat: Catalog, no: OrderNo, owner: UserId, entitlements: seq<string>, startsAt: Time,
                                       user: UserId, entitlement: string)
    requires GrantGrace(s, cfg, cat, no, owner, entitlements, startsAt).Success?
    ensures SamePaid(s.grants, GrantGrace(s, cfg, cat, no, owner, entitlements, startsAt).value.grants, user, entitlement)
    decreases |entitlements|
  {
    if entitlements != [] {
      var grant := Grant(owner, entitlements[0], Active, SubscriptionGrace, startsAt, Some(startsAt + GraceDays(cfg) * DAY),
                         GraceKey(no, entitlements[0]));
      var m := s.(grants := CreateGrant(s.grants, s.wallet.users, cat, grant).value.0);
      assert SamePaid(s.grants, m.grants, user, entitlement);
      GraceBeside(m, cfg, cat, no, owner, entitlements[1..], startsAt, user, entitlement);
      SamePaidThrough(s.grants, m.grants, GrantGrace(m, cfg, cat, no, owner, entitlements[1..], startsAt).value.grants, user, entitlement);
    }
  }

  lemma {:induction false} GraceOverBeside(grants: seq<Grant>, owner: UserId, entitlements: seq<string>, at: Time, user: UserId, entitlement: string)
    ensures SamePaid(grants, ExpireGrace(grants, owner, entitlements, at), user, entitlement)
    decreases |entitlements|
  {
    if entitlements != [] {
      var swept := seq(|grants|, i requires 0 <= i < |grants| =>
        if GraceOver(grants[i], owner, entitlements[0], at) then grants[i].(status := Expired, expiresAt := Some(at)) else grants[i]);
      assert SamePaid(grants, swept, user, entitlement);
      GraceOverBeside(swept, owner, entitlements[1..], at, user, entitlement);
      SamePaidThrough(grants, swept, ExpireGrace(swept, owner, entitlements[1..], at), user, entitlement);
    }
  }

  // ---- refunds

  predicate RefersTo(e: Execution, user: UserId, entitlement: string) {
    e.user == user && e.target == ToEntitlement(entitlement)
  }

  // A policy that revokes nothing, or an order with none of this time delivered.
  ghost predicate Spares(s: Store, no: OrderNo, weather: Weather, user: UserId, entitlement: string) {
    || !weather.decision.compensate || !weather.decision.revoke
    || forall key :: key in AppliedKeys(s.executions, no) ==> !RefersTo(s.executions[key], user, entitlement)
  }

  // The grants a refund would revoke are none of the user's of this kind.
  ghost predicate RefsSpare(grants: seq<Grant>, listing: seq<Execution>, user: UserId, entitlement: string) {
    forall i :: 0 <= i < |listing| ==> RefSpares(grants, listing[i], user, entitlement)
  }

  predicate RefSpares(grants: seq<Grant>, e: Execution, user: UserId, entitlement: string) {
    e.target.ToEntitlement? && e.ref.Some? && e.ref.value < |grants| ==>
      grants[e.ref.value].user != user || grants[e.ref.value].entitlement != entitlement
  }

  lemma {:induction false} CompensateBeside(s: Store, order: W.Order, listing: seq<Execution>, d: Decision, now: Time,
                                            user: UserId, entitlement: string)
    requires (d.revoke ==> RefsSpare(s.grants, listing, user, entitlement)) && Compensate(s, order, listing, d, now).Success?
    ensures SamePaid(s.grants, Compensate(s, order, listing, d, now).value.grants, user, entitlement)
    decreases |listing|
  {
    if listing != [] {
      var e, rest := listing[0], listing[1..];
      assert forall i :: 0 <= i < |rest| ==> rest[i] == listing[i + 1];
      var m := if e.target.ToEntitlement? then (if d.revoke then s.(grants := Revoke(s.grants, e.ref, now)) else s)
               else if !d.clawback then s
               else s.(wallet := W.ClawbackOne(s.wallet, order, WalletExecution(e), now).value.0);
      if d.revoke {
        assert RefSpares(s.grants, e, user, entitlement);
        forall i | 0 <= i < |rest|
          ensures RefSpares(m.grants, rest[i], user, entitlement)
        {
          assert RefSpares(s.grants, listing[i + 1], user, entitlement);
        }
      }
      assert SamePaid(s.grants, m.grants, user, entitlement);
      CompensateBeside(m, order, rest, d, now, user, entitlement);
      SamePaidThrough(s.grants, m.grants, Compensate(m, order, rest, d, now).value.grants, user, entitlement);
    }
  }

  lemma AppliedTarget(s: Store, cat: Catalog, no: OrderNo, e: Execution)
    requires RecordsSound(s, cat) && IsApplied(s, no, e.rule) && e == s.executions[ExecutionKey(no, e.rule)] && e.target.ToEntitlement?
    ensures e.ref.Some? && e.ref.value < |s.grants|
    ensures s.grants[e.ref.value].user == e.user && s.grants[e.ref.value].entitlement == e.target.entitlement
  {
    assert RecordSound(s, cat, ExecutionKey(no, e.rule));
    var i :| 0 <= i < |RulesFor(cat, e.sku)| && BackedBy(s, e, RulesFor(cat, e.sku)[i]);
  }

  lemma ListingSpares(s: Store, cat: Catalog, no: OrderNo, listing: seq<Execution>, user: UserId, entitlement: string)
    requires RecordsSound(s, cat) && IsListing(s.executions, AppliedKeys(s.executions, no), listing)
    requires forall key :: key in AppliedKeys(s.executions, no) ==> !RefersTo(s.executions[key], user, entitlement)
    ensures RefsSpare(s.grants, listing, user, entitlement)
  {
    ListsExecutions(s, cat, no, listing);
    forall i | 0 <= i < |listing|
      ensures RefSpares(s.grants, listing[i], user, entitlement)
    {
      var e := listing[i];
      assert ExecutionKey(no, e.rule) in AppliedKeys(s.executions, no);
      if e.target.ToEntitlement? {
        AppliedTarget(s, cat, no, e);
      }
    }
  }

  lemma AdjustBeside(s: Store, cat: Catalog, no: OrderNo, weather: Weather, user: UserId, entitlement: string)
    requires RecordsSound(s, cat) && no in s.orders && Spares(s, no, weather, user, entitlement)
    ensures SamePaid(s.grants, Adjust(s, no, weather).0.grants, user, entitlement)
  {
    var listing := AppliedListing(s.executions, no, weather.query);
    if weather.decision.compensate && Compensate(s, W.Order(no, s.orders[no].user), listing, weather.decision, weather.now).Success? {
      if weather.decision.revoke {
        ListingSpares(s, cat, no, listing, user, entitlement);
      }
      CompensateBeside(s, W.Order(no, s.orders[no].user), listing, weather.decision, weather.now, user, entitlement);
    }
  }

  // ---------------------------------------------------------------- the delivery an event asks for

  // The store and the order a paid event calls the delivery with, if it gets there.
  ghost function PaidCall(s: Store, cfg: Config, event: Event, now: Time): (r: Option<(Store, OrderNo)>)
    ensures r.Some? ==> r.value.1 in r.value.0.orders && r.value.0.grants == s.grants
  {
    if !IsPaidKind(event.kind) || event.orderNo == "" || event.orderNo !in s.orders then None
    else if event.kind.PaymentPaid? then
      match OrderAfter(s.orders[event.orderNo], event, now)
      case Failure(_) => None
      case Success(order) => if order.kind == Checkout then Some((SetOrder(s, event.orderNo, order), event.orderNo)) else None
    else if CheckoutBacked(s.orders[event.orderNo], event) then
      Some((SetOrder(s, event.orderNo, MarkInitialPaid(s.orders[event.orderNo], event)), event.orderNo))
    else
      match Resolve(s, cfg, event.orderNo, event)
      case Failure(_) => None
      case Success((s1, no)) =>
        var order := s1.orders[no];
        if order.kind != Renewal || order.user == "" || order.sku == "" then None
        else Some((SetOrder(s1, no, RenewalOrderAfter(order, event)), no))
  }

  lemma CallSafe(s: Store, cfg: Config, cat: Catalog, users: set<UserId>, event: Event, now: Time)
    requires Safe(s, cat, users) && PaidCall(s, cfg, event, now).Some?
    ensures Safe(PaidCall(s, cfg, event, now).value.0, cat, users)
  {
    var no: OrderNo := event.orderNo;
    if event.kind.PaymentPaid? {
      SetOrderSafe(s, cat, users, no, OrderAfter(s.orders[no], event, now).value);
    } else if CheckoutBacked(s.orders[no], event) {
      SetOrderSafe(s, cat, users, no, MarkInitialPaid(s.orders[no], event));
    } else {
      var r := Resolve(s, cfg, no, event).value;
      ResolveSafe(s, cfg, cat, users, no, event);
      RenewalOrderSafe(r.0, cat, users, r.1, event);
    }
  }

  lemma CallGrants(s: Store, cfg: Config, cat: Catalog, event: Event, weather: Weather)
    requires PaidCall(s, cfg, event, weather.now).Some?
    ensures var call := PaidCall(s, cfg, event, weather.now).value;
            ProcessPayment(s, cfg, cat, event, weather).0.grants == FulfillOrder(call.0, cat, call.1, weather.chance, weather.now).0.grants
  {
  }

  // ---------------------------------------------------------------- one event

  // What an event adds: the length of the SKU it delivers for the first time.
  ghost function EventGain(s: Store, cfg: Config, cat: Catalog, event: Event, weather: Weather, user: UserId, entitlement: string): int {
    var call := PaidCall(s, cfg, event, weather.now);
    if call.Some? && Concerns(call.value.0.orders[call.value.1], cat, user, entitlement)
    then Gain(call.value.0, cat, Call(call.value.1, weather.chance, weather.now), entitlement)
    else 0
  }

  // What it delivers is delivered while time still runs, and what it refunds is
  // another order.
  ghost predicate EventInTime(s: Store, cfg: Config, cat: Catalog, event: Event, weather: Weather, user: UserId, entitlement: string) {
    var call := PaidCall(s, cfg, event, weather.now);
    && (call.Some? && Concerns(call.value.0.orders[call.value.1], cat, user, entitlement) ==>
          CallInTime(call.value.0, cat, Call(call.value.1, weather.chance, weather.now), user, entitlement))
    && (!IsRenewalKind(event.kind) && !event.kind.PaymentPaid? && ':' !in event.orderNo ==> Spares(s, event.orderNo, weather, user, entitlement))
  }

  ghost predicate Moves(before: seq<Grant>, after: seq<Grant>, user: UserId, entitlement: string, length: int) {
    && RunsUntil(before, user, entitlement).Some?
    && RunsUntil(after, user, entitlement) == Some(RunsUntil(before, user, entitlement).value + length)
  }

  lemma CallMoves(m: Store, cat: Catalog, no: OrderNo, chance: Chance, now: Time, user: UserId, entitlement: string)
    requires Delivered(m, cat) && no in m.orders && RunsUntil(m.grants, user, entitlement).Some?
    requires Concerns(m.orders[no], cat, user, entitlement) ==> CallInTime(m, cat, Call(no, chance, now), user, entitlement)
    ensures Moves(m.grants, FulfillOrder(m, cat, no, chance, now).0.grants, user, entitlement,
                  if Concerns(m.orders[no], cat, user, entitlement) then Gain(m, cat, Call(no, chance, now), entitlement) else 0)
  {
    var r := FulfillOrder(m, cat, no, chance, now).0;
    if Concerns(m.orders[no], cat, user, entitlement) {
      CallExtends(m, cat, Call(no, chance, now), user, entitlement);
    } else {
      DeliveryBeside(m, cat, no, chance, now, user, entitlement);
      SameEnd(m.grants, r.grants, user, entitlement);
    }
  }

  lemma NoCallBeside(s: Store, cfg: Config, cat: Catalog, users: set<UserId>, event: Event, weather: Weather, user: UserId, entitlement: string)
    requires Safe(s, cat, users) && PaidCall(s, cfg, event, weather.now).None? && EventInTime(s, cfg, cat, event, weather, user, entitlement)
    ensures SamePaid(s.grants, ProcessPayment(s, cfg, cat, event, weather).0.grants, user, entitlement)
  {
    if event.orderNo != "" && event.orderNo in s.orders {
      var no: OrderNo := event.orderNo;
      if IsRenewalKind(event.kind) {
        RenewalBeside(s, cfg, cat, no, event, weather, user, entitlement);
      } else if OrderAfter(s.orders[no], event, weather.now).Success? && !event.kind.PaymentPaid? {
        var order := OrderAfter(s.orders[no], event, weather.now).value;
        SetOrderSafe(s, cat, users, no, order);
        AdjustBeside(SetOrder(s, no, order), cat, no, weather, user, entitlement);
      }
    }
  }

  lemma RenewalBeside(s: Store, cfg: Config, cat: Catalog, no: OrderNo, event: Event, weather: Weather, user: UserId, entitlement: string)
    requires event.orderNo == no && no != "" && no in s.orders && IsRenewalKind(event.kind) && PaidCall(s, cfg, event, weather.now).None?
    ensures SamePaid(s.grants, ApplyRenewal(s, cfg, cat, event, weather).0.grants, user, entitlement)
  {
    if Resolve(s, cfg, no, event).Success? {
      var (s1, derived) := Resolve(s, cfg, no, event).value;
      ToRenewalBeside(s, s1, cfg, cat, derived, event, weather, user, entitlement);
    }
  }

  lemma ToRenewalBeside(s: Store, s1: Store, cfg: Config, cat: Catalog, no: OrderNo, event: Event, weather: Weather,
                        user: UserId, entitlement: string)
    requires no in s1.orders && s1.grants == s.grants && IsRenewalKind(event.kind)
    requires event.kind.RenewalPaid? ==> s1.orders[no].kind != Renewal || s1.orders[no].user == "" || s1.orders[no].sku == ""
    ensures SamePaid(s.grants, ApplyToRenewal(s, s1, cfg, cat, no, event, weather).0.grants, user, entitlement)
  {
    var order := s1.orders[no];
    var s2, grace := SetOrder(s1, no, RenewalOrderAfter(order, event)), GraceFor(cfg, order.sku);
    if grace.Some? {
      if event.kind.RenewalFailed? {
        if GrantGrace(s2, cfg, cat, no, order.user, grace.value, GraceStart(event)).Success? {
          GraceBeside(s2, cfg, cat, no, order.user, grace.value, GraceStart(event), user, entitlement);
        }
      } else {
        GraceOverBeside(s2.grants, order.user, grace.value, event.receivedAt, user, entitlement);
      }
    }
  }

  lemma EventMoves(s: Store, cfg: Config, cat: Catalog, users: set<UserId>, event: Event, weather: Weather, user: UserId, entitlement: string)
    requires Safe(s, cat, users) && RunsUntil(s.grants, user, entitlement).Some? && EventInTime(s, cfg, cat, event, weather, user, entitlement)
    ensures Moves(s.grants, ProcessPayment(s, cfg, cat, event, weather).0.grants, user, entitlement,
                  EventGain(s, cfg, cat, event, weather, user, entitlement))
  {
    var call := PaidCall(s, cfg, event, weather.now);
    if call.Some? {
      CallSafe(s, cfg, cat, users, event, weather.now);
      CallGrants(s, cfg, cat, event, weather);
      CallMoves(call.value.0, cat, call.value.1, weather.chance, weather.now, user, entitlement);
    } else {
      NoCallBeside(s, cfg, cat, users, event, weather, user, entitlement);
      SameEnd(s.grants, ProcessPayment(s, cfg, cat, event, weather).0.grants, user, entitlement);
    }
  }

  // ---------------------------------------------------------------- runs

  ghost function StepGain(sys: System, cfg: Config, cat: Catalog, step: Step, user: UserId, entitlement: string): int {
    var call := CallOf(sys, step);
    if call.Some? then EventGain(sys.store, cfg, cat, call.value.0, call.value.1, user, entitlement) else 0
  }

  ghost predicate StepInTime(sys: System, cfg: Config, cat: Catalog, step: Step, user: UserId, entitlement: string) {
    var call := CallOf(sys, step);
    call.Some? ==> EventInTime(sys.store, cfg, cat, call.value.0, call.value.1, user, entitlement)
  }

  ghost function RunGain(sys: System, cfg: Config, cat: Catalog, steps: seq<Step>, user: UserId, entitlement: string): int
    decreases |steps|
  {
    if steps == [] then 0
    else StepGain(sys, cfg, cat, steps[0], user, entitlement) + RunGain(Act(sys, cfg, cat, steps[0]), cfg, cat, steps[1..], user, entitlement)
  }

  ghost predicate RunInTime(sys: System, cfg: Config, cat: Catalog, steps: seq<Step>, user: UserId, entitlement: string)
    decreases |steps|
  {
    steps == [] || (StepInTime(sys, cfg, cat, steps[0], user, entitlement)
                    && RunInTime(Act(sys, cfg, cat, steps[0]), cfg, cat, steps[1..], user, entitlement))
  }

  lemma StepBeside(sys: System, cfg: Config, cat: Catalog, step: Step, user: UserId, entitlement: string)
    requires Allowed(sys, step) && CallOf(sys, step).None?
    ensures SamePaid(sys.store.grants, Act(sys, cfg, cat, step).store.grants, user, entitlement)
  {
  }

  lemma StepMoves(sys: System, cfg: Config, cat: Catalog, users: set<UserId>, step: Step, user: UserId, entitlement: string)
    requires Safe(sys.store, cat, users) && Allowed(sys, step) && RunsUntil(sys.store.grants, user, entitlement).Some?
    requires StepInTime(sys, cfg, cat, step, user, entitlement)
    ensures Moves(sys.store.grants, Act(sys, cfg, cat, step).store.grants, user, entitlement, StepGain(sys, cfg, cat, step, user, entitlement))
  {
    StepProcesses(sys, cfg, cat, step);
    var call := CallOf(sys, step);
    if call.Some? {
      EventMoves(sys.store, cfg, cat, users, call.value.0, call.value.1, user, entitlement);
    } else {
      StepBeside(sys, cfg, cat, step, user, entitlement);
      SameEnd(sys.store.grants, Act(sys, cfg, cat, step).store.grants, user, entitlement);
    }
  }

  // Main result, over runs: while time runs at each delivery of it, and no refund
  // revokes it, its end moves by the sum of the lengths delivered for the first time.
  lemma {:induction false} PaidTimeOverRuns(sys: System, cfg: Config, cat: Catalog, users: set<UserId>, steps: seq<Step>,
                                            user: UserId, entitlement: string)
    requires Safe(sys.store, cat, users) && AllowedRun(sys, cfg, cat, steps) && RunsUntil(sys.store.grants, user, entitlement).Some?
    requires RunInTime(sys, cfg, cat, steps, user, entitlement)
    ensures Moves(sys.store.grants, RunSteps(sys, cfg, cat, steps).store.grants, user, entitlement,
                  RunGain(sys, cfg, cat, steps, user, entitlement))
    decreases |steps|
  {
    if steps != [] {
      ActSafe(sys, cfg, cat, users, steps[0]);
      StepMoves(sys, cfg, cat, users, steps[0], user, entitlement);
      PaidTimeOverRuns(Act(sys, cfg, cat, steps[0]), cfg, cat, users, steps[1..], user, entitlement);
    }
  }
}
