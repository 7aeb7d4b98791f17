/** Paid time adds up: a renewal delivered while the previous period still runs
    continues from that period's end, whenever and in whatever order it was paid. */
module PaidTime {
  import opened Wrappers
  import opened DeliveryKeys
  import opened Commerce
  import opened FulfillmentSpec
  import opened Delivery

  predicate PaidGrant(g: Grant, user: UserId, entitlement: string) {
    g.user == user && g.entitlement == entitlement && g.status == Active && g.source == Fulfillment && g.expiresAt.Some?
  }

  // The latest end of the user's active paid grants of an entitlement.
  function RunsUntil(grants: seq<Grant>, user: UserId, entitlement: string): Option<Time> {
    if grants == [] then None
    else
      var before := RunsUntil(grants[..|grants| - 1], user, entitlement);
      var g := grants[|grants| - 1];
      if PaidGrant(g, user, entitlement) && (before.Some? ==> before.value < g.expiresAt.value) then g.expiresAt else before
  }

  // ---------------------------------------------------------------- the anchor

  // The loop's result is the maximum, so the order of the listing does not matter.
  lemma {:induction false} PaidUntilIsLatest(listing: seq<Grant>, from: Time)
    ensures from <= PaidUntil(listing, from)
    ensures forall g :: g in listing && g.source == Fulfillment && g.expiresAt.Some? ==> g.expiresAt.value <= PaidUntil(listing, from)
    ensures PaidUntil(listing, from) == from
            || exists g :: g in listing && g.source == Fulfillment && g.expiresAt == Some(PaidUntil(listing, from))
  {
    if listing != [] {
      var front := listing[..|listing| - 1];
      PaidUntilIsLatest(front, from);
      assert listing == front + [listing[|listing| - 1]];
    }
  }

  lemma {:induction false} GraceSinceIsLatest(listing: seq<Grant>, from: Time)
    ensures forall g :: g in listing && g.source == SubscriptionGrace && g.startsAt < from ==>
              GraceSince(listing, from).Some? && g.startsAt <= GraceSince(listing, from).value
    ensures GraceSince(listing, from).Some? ==>
              exists g :: g in listing && g.source == SubscriptionGrace && g.startsAt < from && Some(g.startsAt) == GraceSince(listing, from)
  {
    if listing != [] {
      var front := listing[..|listing| - 1];
      GraceSinceIsLatest(front, from);
      assert listing == front + [listing[|listing| - 1]];
    }
  }

  lemma AnchorIgnoresListingOrder(a: seq<Grant>, b: seq<Grant>, from: Time)
    requires forall g :: g in a <==> g in b
    ensures Anchor(a, from) == Anchor(b, from)
  {
    PaidUntilIsLatest(a, from);
    PaidUntilIsLatest(b, from);
    GraceSinceIsLatest(a, from);
    GraceSinceIsLatest(b, from);
  }

  lemma {:induction false} RunsUntilIsLatest(grants: seq<Grant>, user: UserId, entitlement: string)
    ensures forall g :: g in grants && PaidGrant(g, user, entitlement) ==>
              RunsUntil(grants, user, entitlement).Some? && g.expiresAt.value <= RunsUntil(grants, user, entitlement).value
    ensures RunsUntil(grants, user, entitlement).Some? ==>
              exists g :: g in grants && PaidGrant(g, user, entitlement) && g.expiresAt == RunsUntil(grants, user, entitlement)
  {
    if grants != [] {
      var front := grants[..|grants| - 1];
      RunsUntilIsLatest(front, user, entitlement);
      assert grants == front + [grants[|grants| - 1]];
    }
  }

  ghost predicate GraceBefore(g: Grant, grants: seq<Grant>, user: UserId, entitlement: string, from: Time, now: Time) {
    g in grants && Listed(g, user, entitlement, now) && g.source == SubscriptionGrace && g.startsAt < from
  }

  lemma GraceListed(grants: seq<Grant>, user: UserId, entitlement: string, from: Time, now: Time)
    ensures var since := GraceSince(ListGrants(grants, user, entitlement, now), from);
            && (since.Some? <==> exists g :: GraceBefore(g, grants, user, entitlement, from, now))
            && (forall g :: GraceBefore(g, grants, user, entitlement, from, now) ==> since.Some? && g.startsAt <= since.value)
            && (since.Some? ==> since.value < from && exists g :: GraceBefore(g, grants, user, entitlement, from, now) && g.startsAt == since.value)
  {
    var listing := ListGrants(grants, user, entitlement, now);
    var since := GraceSince(listing, from);
    GraceSinceIsLatest(listing, from);
    if since.Some? {
      var g :| g in listing && g.source == SubscriptionGrace && g.startsAt < from && Some(g.startsAt) == since;
      assert GraceBefore(g, grants, user, entitlement, from, now);
    }
  }

  // Where a new period begins. While a paid period runs past the payment, it begins
  // at that period's end; otherwise at the start of the latest grace period that
  // began before the payment, and without one at the payment itself.
  lemma AnchorDecided(grants: seq<Grant>, user: UserId, entitlement: string, from: Time, now: Time)
    ensures var anchor := Anchor(ListGrants(grants, user, entitlement, now), from);
            var end := RunsUntil(grants, user, entitlement);
            && (end.Some? && end.value > now && end.value > from ==> anchor == end.value)
            && (end.None? || end.value <= now || end.value <= from ==>
                  && anchor <= from
                  && (anchor < from <==> exists g :: GraceBefore(g, grants, user, entitlement, from, now))
                  && (forall g :: GraceBefore(g, grants, user, entitlement, from, now) ==> g.startsAt <= anchor)
                  && (anchor < from ==> exists g :: GraceBefore(g, grants, user, entitlement, from, now) && g.startsAt == anchor))
  {
    var listing := ListGrants(grants, user, entitlement, now);
    PaidUntilIsLatest(listing, from);
    GraceListed(grants, user, entitlement, from, now);
    RunsUntilIsLatest(grants, user, entitlement);
  }

  // ---------------------------------------------------------------- one delivery

  predicate DistinctRules(rules: seq<Rule>) {
    forall i, j :: 0 <= i < j < |rules| ==> rules[i].id != rules[j].id
  }

  // How much of an entitlement a SKU is good for.
  function Length(rules: seq<Rule>, entitlement: string): int {
    if rules == [] then 0
    else
      (if rules[0].kind.GrantEntitlement? && rules[0].entitlement == entitlement && rules[0].duration.Span? then rules[0].duration.length else 0)
      + Length(rules[1..], entitlement)
  }

  ghost predicate NothingApplied(s: Store, no: OrderNo, rules: seq<Rule>) {
    forall i :: 0 <= i < |rules| ==> !IsApplied(s, no, rules[i].id)
  }

  // Still running, both now and when the order was paid.
  ghost predicate Running(s: Store, user: UserId, entitlement: string, order: Order, now: Time) {
    var end := RunsUntil(s.grants, user, entitlement);
    end.Some? && now < end.value && PaidAnchor(order, now) < end.value
  }

  lemma RuleExtends(s: Store, cat: Catalog, no: OrderNo, rule: Rule, chance: Chance, now: Time, entitlement: string)
    requires GrantsAccounted(s) && CreditsAccounted(s) && no in s.orders && !IsApplied(s, no, rule.id)
    requires ApplyRule(s, cat, no, s.orders[no], rule, chance, now).outcome.Success?
    requires Running(s, s.orders[no].user, entitlement, s.orders[no], now)
    ensures var r := ApplyRule(s, cat, no, s.orders[no], rule, chance, now).outcome.value;
            RunsUntil(r.grants, s.orders[no].user, entitlement)
            == Some(RunsUntil(s.grants, s.orders[no].user, entitlement).value + Length([rule], entitlement))
  {
    var order := s.orders[no];
    var r := ApplyRule(s, cat, no, order, rule, chance, now).outcome.value;
    assert Length([rule][1..], entitlement) == 0;
    if rule.kind.GrantEntitlement? {
      NoGrantYet(s, no, rule.id);
      assert r.grants[..|s.grants|] == s.grants;
      AnchorDecided(s.grants, order.user, rule.entitlement, PaidAnchor(order, now), now);
    }
  }

  lemma GainsTime(s: Store, cat: Catalog, no: OrderNo, rule: Rule, chance: Chance, now: Time, entitlement: string)
    requires no in s.orders && !IsApplied(s, no, rule.id)
    requires ApplyRule(s, cat, no, s.orders[no], rule, chance, now).outcome.Success?
    ensures Length([rule], entitlement) >= 0
  {
    assert Length([rule][1..], entitlement) == 0;
  }

  lemma AppliesOnlyThis(s: Store, cat: Catalog, no: OrderNo, rule: Rule, chance: Chance, now: Time, rest: seq<Rule>)
    requires NothingOffRecord(s) && no in s.orders && !IsApplied(s, no, rule.id)
    requires ApplyRule(s, cat, no, s.orders[no], rule, chance, now).outcome.Success?
    requires NothingApplied(s, no, rest) && forall i :: 0 <= i < |rest| ==> rest[i].id != rule.id
    ensures var r := ApplyRule(s, cat, no, s.orders[no], rule, chance, now).outcome.value;
            NothingApplied(r, no, rest) && NothingOffRecord(r) && r.orders == s.orders
  {
    var e := RuleMakes(s, cat, no, s.orders[no], rule, chance, now);
    var r := ApplyRule(s, cat, no, s.orders[no], rule, chance, now).outcome.value;
    MadeStaysOnRecord(s, r, e, rule);
    forall i | 0 <= i < |rest|
      ensures !IsApplied(r, no, rest[i].id)
    {
      MarksOnly(s, r, e, no, rest[i].id);
    }
  }

  ghost predicate Ready(s: Store, no: OrderNo, rules: seq<Rule>, now: Time, entitlement: string) {
    && NothingOffRecord(s) && no in s.orders && DistinctRules(rules) && NothingApplied(s, no, rules)
    && Running(s, s.orders[no].user, entitlement, s.orders[no], now)
  }

  lemma RulesStep(s: Store, cat: Catalog, no: OrderNo, order: Order, rules: seq<Rule>, chance: Chance, now: Time)
    requires rules != [] && ApplyRules(s, cat, no, order, rules, chance, now).outcome.Success?
    ensures var first := ApplyRule(s, cat, no, order, rules[0], chance, now).outcome;
            && first.Success?
            && ApplyRules(first.value, cat, no, order, rules[1..], chance, now).outcome == ApplyRules(s, cat, no, order, rules, chance, now).outcome
  {
  }

  ghost predicate Extends(s: Store, r: Store, user: UserId, entitlement: string, length: int) {
    && RunsUntil(s.grants, user, entitlement).Some?
    && RunsUntil(r.grants, user, entitlement) == Some(RunsUntil(s.grants, user, entitlement).value + length)
  }

  function Sum(amounts: seq<int>): int {
    if amounts == [] then 0 else amounts[0] + Sum(amounts[1..])
  }

  // Stores one after another, each extending the period by its amount.
  ghost predicate Chain(stores: seq<Store>, gains: seq<int>, user: UserId, entitlement: string) {
    && |stores| == |gains| + 1
    && forall i :: 0 <= i < |gains| ==> Extends(stores[i], stores[i + 1], user, entitlement, gains[i])
  }

  lemma {:induction false} ChainAddsUp(stores: seq<Store>, gains: seq<int>, user: UserId, entitlement: string)
    requires Chain(stores, gains, user, entitlement) && RunsUntil(stores[0].grants, user, entitlement).Some?
    ensures Extends(stores[0], stores[|gains|], user, entitlement, Sum(gains))
    decreases |gains|
  {
    if gains != [] {
      assert Extends(stores[0], stores[1], user, entitlement, gains[0]);
      ChainAddsUp(stores[1..], gains[1..], user, entitlement);
    }
  }

  lemma ChainGrows(s: Store, stores: seq<Store>, gain: int, gains: seq<int>, user: UserId, entitlement: string)
    requires Chain(stores, gains, user, entitlement) && Extends(s, stores[0], user, entitlement, gain)
    ensures Chain([s] + stores, [gain] + gains, user, entitlement)
  {
  }

  lemma LengthSplits(rules: seq<Rule>, entitlement: string)
    requires rules != []
    ensures Length(rules, entitlement) == Length([rules[0]], entitlement) + Length(rules[1..], entitlement)
  {
    assert [rules[0]][1..] == [];
  }

  lemma StepExtends(s: Store, cat: Catalog, no: OrderNo, rules: seq<Rule>, chance: Chance, now: Time, entitlement: string)
    requires rules != [] && Ready(s, no, rules, now, entitlement)
    requires ApplyRule(s, cat, no, s.orders[no], rules[0], chance, now).outcome.Success?
    ensures var m := ApplyRule(s, cat, no, s.orders[no], rules[0], chance, now).outcome.value;
            && m.orders == s.orders && Ready(m, no, rules[1..], now, entitlement)
            && Extends(s, m, s.orders[no].user, entitlement, Length([rules[0]], entitlement))
  {
    assert forall i :: 0 <= i < |rules[1..]| ==> rules[1..][i] == rules[i + 1];
    assert !IsApplied(s, no, rules[0].id);
    RuleExtends(s, cat, no, rules[0], chance, now, entitlement);
    AppliesOnlyThis(s, cat, no, rules[0], chance, now, rules[1..]);
    GainsTime(s, cat, no, rules[0], chance, now, entitlement);
  }

  lemma {:induction false} RulesExtendEach(s: Store, cat: Catalog, no: OrderNo, order: Order, rules: seq<Rule>, chance: Chance, now: Time,
                                           entitlement: string) returns (stores: seq<Store>, lengths: seq<int>)
    requires no in s.orders && s.orders[no] == order && Ready(s, no, rules, now, entitlement)
    requires ApplyRules(s, cat, no, order, rules, chance, now).outcome.Success?
    ensures Chain(stores, lengths, order.user, entitlement) && stores[0] == s
    ensures stores[|lengths|] == ApplyRules(s, cat, no, order, rules, chance, now).outcome.value
    ensures Sum(lengths) == Length(rules, entitlement)
    decreases |rules|
  {
    if rules == [] {
      stores, lengths := [s], [];
    } else {
      RulesStep(s, cat, no, order, rules, chance, now);
      StepExtends(s, cat, no, rules, chance, now, entitlement);
      var m := ApplyRule(s, cat, no, order, rules[0], chance, now).outcome.value;
      var later, more := RulesExtendEach(m, cat, no, order, rules[1..], chance, now, entitlement);
      ChainGrows(s, later, Length([rules[0]], entitlement), more, order.user, entitlement);
      LengthSplits(rules, entitlement);
      stores, lengths := [s] + later, [Length([rules[0]], entitlement)] + more;
      assert lengths[1..] == more;
    }
  }

  lemma RulesExtend(s: Store, cat: Catalog, no: OrderNo, rules: seq<Rule>, chance: Chance, now: Time, entitlement: string)
    requires Ready(s, no, rules, now, entitlement)
    requires ApplyRules(s, cat, no, s.orders[no], rules, chance, now).outcome.Success?
    ensures Extends(s, ApplyRules(s, cat, no, s.orders[no], rules, chance, now).outcome.value, s.orders[no].user, entitlement,
                    Length(rules, entitlement))
  {
    var stores, lengths := RulesExtendEach(s, cat, no, s.orders[no], rules, chance, now, entitlement);
    ChainAddsUp(stores, lengths, s.orders[no].user, entitlement);
  }

  // ---------------------------------------------------------------- many deliveries

  datatype Call = Call(order: OrderNo, chance: Chance, now: Time)

  // What one call adds: the SKU's length if it delivers the order for the first
  // time, nothing if it fails or repeats a delivery.
  ghost function Gain(s: Store, cat: Catalog, call: Call, entitlement: string): int {
    if call.order !in s.orders || FulfillOrder(s, cat, call.order, call.chance, call.now).1.Failure? then 0
    else
      var rules := RulesFor(cat, s.orders[call.order].sku);
      if rules == [] || IsApplied(s, call.order, rules[0].id) then 0 else Length(rules, entitlement)
  }

  ghost function After(s: Store, cat: Catalog, call: Call): Store {
    FulfillOrder(s, cat, call.order, call.chance, call.now).0
  }

  ghost function AfterCalls(s: Store, cat: Catalog, calls: seq<Call>): Store
    decreases |calls|
  {
    if calls == [] then s else AfterCalls(After(s, cat, calls[0]), cat, calls[1..])
  }

  ghost function Gains(s: Store, cat: Catalog, calls: seq<Call>, entitlement: string): int
    decreases |calls|
  {
    if calls == [] then 0 else Gain(s, cat, calls[0], entitlement) + Gains(After(s, cat, calls[0]), cat, calls[1..], entitlement)
  }

  // A call for an order of this user, made while paid time still runs.
  ghost predicate CallInTime(s: Store, cat: Catalog, call: Call, user: UserId, entitlement: string) {
    && call.order in s.orders && s.orders[call.order].user == user
    && DistinctRules(RulesFor(cat, s.orders[call.order].sku))
    && Running(s, user, entitlement, s.orders[call.order], call.now)
  }

  ghost predicate InTime(s: Store, cat: Catalog, calls: seq<Call>, user: UserId, entitlement: string)
    decreases |calls|
  {
    || calls == []
    || (CallInTime(s, cat, calls[0], user, entitlement) && InTime(After(s, cat, calls[0]), cat, calls[1..], user, entitlement))
  }

  lemma NothingAppliedYet(s: Store, cat: Catalog, no: OrderNo)
    requires AllOrNothing(s, cat) && no in s.orders && RulesFor(cat, s.orders[no].sku) != []
    requires !IsApplied(s, no, RulesFor(cat, s.orders[no].sku)[0].id)
    ensures NothingApplied(s, no, RulesFor(cat, s.orders[no].sku)) && s.orders[no].status != Fulfilled
  {
  }

  // The first delivery of an order continues the running period by the SKU's length.
  lemma DeliveryExtends(s: Store, cat: Catalog, no: OrderNo, chance: Chance, now: Time, entitlement: string)
    requires Delivered(s, cat) && FulfillInside(s, cat, no, chance, now).outcome.Success?
    requires var rules := RulesFor(cat, s.orders[no].sku);
             rules != [] && DistinctRules(rules) && !IsApplied(s, no, rules[0].id)
    requires Running(s, s.orders[no].user, entitlement, s.orders[no], now)
    ensures RunsUntil(FulfillInside(s, cat, no, chance, now).outcome.value.grants, s.orders[no].user, entitlement)
            == Some(RunsUntil(s.grants, s.orders[no].user, entitlement).value + Length(RulesFor(cat, s.orders[no].sku), entitlement))
  {
    NothingAppliedYet(s, cat, no);
    RulesExtend(s, cat, no, RulesFor(cat, s.orders[no].sku), chance, now, entitlement);
  }

  lemma DeliveredWithoutRules(s: Store, cat: Catalog, no: OrderNo, chance: Chance, now: Time)
    requires no in s.orders && RulesFor(cat, s.orders[no].sku) == [] && FulfillOrder(s, cat, no, chance, now).1.Success?
    ensures FulfillOrder(s, cat, no, chance, now).0 == s
  {
  }

  lemma CallExtends(s: Store, cat: Catalog, call: Call, user: UserId, entitlement: string)
    requires Delivered(s, cat) && CallInTime(s, cat, call, user, entitlement)
    ensures Extends(s, After(s, cat, call), user, entitlement, Gain(s, cat, call, entitlement))
  {
    var no, rules := call.order, RulesFor(cat, s.orders[call.order].sku);
    if FulfillOrder(s, cat, no, call.chance, call.now).1.Failure? {
      FulfillKeeps(s, cat, no, call.chance, call.now);
    } else if rules == [] {
      DeliveredWithoutRules(s, cat, no, call.chance, call.now);
    } else if IsApplied(s, no, rules[0].id) {
      DeliveredOnceOnly(s, cat, no, rules[0].id, call.chance, call.now);
    } else {
      DeliveryExtends(s, cat, no, call.chance, call.now, entitlement);
    }
  }

  // The calls' stores and gains, as AfterCalls and Gains run through them.
  ghost function StoresOf(s: Store, cat: Catalog, calls: seq<Call>): (r: seq<Store>)
    ensures |r| == |calls| + 1 && r[0] == s && r[|calls|] == AfterCalls(s, cat, calls)
    decreases |calls|
  {
    if calls == [] then [s] else [s] + StoresOf(After(s, cat, calls[0]), cat, calls[1..])
  }

  ghost function GainsOf(s: Store, cat: Catalog, calls: seq<Call>, entitlement: string): (r: seq<int>)
    ensures |r| == |calls| && Sum(r) == Gains(s, cat, calls, entitlement)
    decreases |calls|
  {
    if calls == [] then []
    else
      var rest := GainsOf(After(s, cat, calls[0]), cat, calls[1..], entitlement);
      assert ([Gain(s, cat, calls[0], entitlement)] + rest)[1..] == rest;
      [Gain(s, cat, calls[0], entitlement)] + rest
  }

  lemma {:induction false} EveryCallExtends(s: Store, cat: Catalog, calls: seq<Call>, user: UserId, entitlement: string)
    requires Delivered(s, cat) && InTime(s, cat, calls, user, entitlement)
    ensures Chain(StoresOf(s, cat, calls), GainsOf(s, cat, calls, entitlement), user, entitlement)
    decreases |calls|
  {
    if calls != [] {
      CallExtends(s, cat, calls[0], user, entitlement);
      FulfillKeeps(s, cat, calls[0].order, calls[0].chance, calls[0].now);
      EveryCallExtends(After(s, cat, calls[0]), cat, calls[1..], user, entitlement);
      ChainGrows(s, StoresOf(After(s, cat, calls[0]), cat, calls[1..]), Gain(s, cat, calls[0], entitlement),
                 GainsOf(After(s, cat, calls[0]), cat, calls[1..], entitlement), user, entitlement);
    }
  }

  // Any number of calls, repeats and failures among them, made while paid time
  // runs: it ends later by the sum of the lengths delivered for the first time.
  lemma {:induction false} PaidTimeStacks(s: Store, cat: Catalog, calls: seq<Call>, user: UserId, entitlement: string)
    requires Delivered(s, cat) && RunsUntil(s.grants, user, entitlement).Some? && InTime(s, cat, calls, user, entitlement)
    ensures RunsUntil(AfterCalls(s, cat, calls).grants, user, entitlement)
            == Some(RunsUntil(s.grants, user, entitlement).value + Gains(s, cat, calls, entitlement))
  {
    EveryCallExtends(s, cat, calls, user, entitlement);
    ChainAddsUp(StoresOf(s, cat, calls), GainsOf(s, cat, calls, entitlement), user, entitlement);
  }
}
