/** When a delivery goes through: exactly if every rule can be carried out and
    nothing breaks on the way; and a paid event then fulfils its order. */
module PromptDelivery {
  import opened Wrappers
  import opened DeliveryKeys
  import opened Commerce
  import opened FulfillmentSpec
  import opened Delivery
  import opened Payments
  import opened PaidTime
  import opened CommerceRuns
  import Credits
  import W = WalletSpec

  predicate Readable(duration: Duration) {
    duration.Unset? || duration.Lifetime? || (duration.Span? && duration.length > 0)
  }

  // What the catalog must offer for a rule to be carried out ...
  predicate Deliverable(cat: Catalog, rule: Rule) {
    && ValidRule(rule)
    && (rule.kind.GrantEntitlement? ==> rule.entitlement in cat.entitlements && Readable(rule.duration))
  }

  // ... and the environment.
  predicate Works(cat: Catalog, rule: Rule, chance: Chance) {
    Deliverable(cat, rule) && rule.id !in chance.broken && rule.id !in chance.unsaved
  }

  // Generated bucket ids are new and do not repeat.
  ghost predicate FreshIds(wallet: W.State, rules: seq<Rule>, chance: Chance) {
    && (forall i :: 0 <= i < |rules| ==> chance.ids(rules[i].id) !in wallet.buckets)
    && (forall i, j :: 0 <= i < j < |rules| ==> chance.ids(rules[i].id) != chance.ids(rules[j].id))
  }

  lemma CreditsDecided(s: Store, no: OrderNo, order: Order, rule: Rule, id: Credits.BucketId, now: Time)
    requires W.FindKey(s.wallet.ledger, Credits.CallerKey(CreditsKey(no, rule.id))).None? && id !in s.wallet.buckets
    ensures ExecuteCredits(s, no, order, rule, id, now).Success?
    ensures var r := ExecuteCredits(s, no, order, rule, id, now).value.0;
            r.wallet.buckets.Keys == s.wallet.buckets.Keys + {id} && r.wallet.users == s.wallet.users
  {
  }

  lemma RuleDecided(s: Store, cat: Catalog, no: OrderNo, rule: Rule, chance: Chance, now: Time)
    requires NothingOffRecord(s) && no in s.orders && s.orders[no].user != "" && s.orders[no].user in s.wallet.users
    requires !IsApplied(s, no, rule.id) && chance.ids(rule.id) !in s.wallet.buckets
    ensures var r := ApplyRule(s, cat, no, s.orders[no], rule, chance, now).outcome;
            && (r.Success? <==> Works(cat, rule, chance))
            && (r.Success? ==> r.value.wallet.users == s.wallet.users
                               && r.value.wallet.buckets.Keys <= s.wallet.buckets.Keys + {chance.ids(rule.id)})
  {
    NoGrantYet(s, no, rule.id);
    NoEntryYet(s, no, rule.id);
    if ValidRule(rule) && rule.kind.GrantCredits? {
      CreditsDecided(s, no, s.orders[no], rule, chance.ids(rule.id), now);
    }
  }

  ghost predicate Eligible(s: Store, no: OrderNo, rules: seq<Rule>, chance: Chance) {
    && NothingOffRecord(s) && no in s.orders && s.orders[no].user != "" && s.orders[no].user in s.wallet.users
    && DistinctRules(rules) && NothingApplied(s, no, rules) && FreshIds(s.wallet, rules, chance)
  }

  lemma EligibleStep(s: Store, cat: Catalog, no: OrderNo, rules: seq<Rule>, chance: Chance, now: Time)
    requires rules != [] && Eligible(s, no, rules, chance)
    ensures var first := ApplyRule(s, cat, no, s.orders[no], rules[0], chance, now).outcome;
            && (first.Success? <==> Works(cat, rules[0], chance))
            && (first.Success? ==> first.value.orders == s.orders && Eligible(first.value, no, rules[1..], chance))
  {
    assert forall i :: 0 <= i < |rules[1..]| ==> rules[1..][i] == rules[i + 1];
    assert !IsApplied(s, no, rules[0].id) && chance.ids(rules[0].id) !in s.wallet.buckets;
    RuleDecided(s, cat, no, rules[0], chance, now);
    if ApplyRule(s, cat, no, s.orders[no], rules[0], chance, now).outcome.Success? {
      AppliesOnlyThis(s, cat, no, rules[0], chance, now, rules[1..]);
    }
  }

  predicate AllWork(cat: Catalog, rules: seq<Rule>, chance: Chance) {
    rules == [] || (Works(cat, rules[0], chance) && AllWork(cat, rules[1..], chance))
  }

  lemma {:induction false} RulesDecided(s: Store, cat: Catalog, no: OrderNo, order: Order, rules: seq<Rule>, chance: Chance, now: Time)
    requires Eligible(s, no, rules, chance) && order == s.orders[no]
    ensures ApplyRules(s, cat, no, order, rules, chance, now).outcome.Success? <==> AllWork(cat, rules, chance)
    decreases |rules|
  {
    if rules != [] {
      EligibleStep(s, cat, no, rules, chance, now);
      var first := ApplyRule(s, cat, no, order, rules[0], chance, now).outcome;
      if first.Success? {
        RulesDecided(first.value, cat, no, order, rules[1..], chance, now);
      }
    }
  }

  // The first delivery of a paid order succeeds exactly when the catalog has rules
  // for it, the buyer exists, every rule works and the commit goes through.
  lemma DeliveryDecided(s: Store, cat: Catalog, no: OrderNo, chance: Chance, now: Time)
    requires Delivered(s, cat) && no in s.orders && s.orders[no].status == Paid
    requires var rules := RulesFor(cat, s.orders[no].sku);
             DistinctRules(rules) && NothingApplied(s, no, rules) && FreshIds(s.wallet, rules, chance)
    ensures var order := s.orders[no];
            FulfillOrder(s, cat, no, chance, now).1.Success? <==>
              && order.user != "" && order.sku != "" && !order.kind.NewLicense? && order.user in s.wallet.users
              && RulesFor(cat, order.sku) != [] && AllWork(cat, RulesFor(cat, order.sku), chance) && !chance.commitFails
  {
    var order := s.orders[no];
    if order.user != "" && order.user in s.wallet.users {
      RulesDecided(s, cat, no, order, RulesFor(cat, order.sku), chance, now);
    }
  }

  // Nothing stands in the way of the order's delivery.
  ghost predicate Clear(s: Store, cat: Catalog, no: OrderNo, chance: Chance)
    requires no in s.orders
  {
    var order := s.orders[no];
    var rules := RulesFor(cat, order.sku);
    && order.user != "" && order.sku != "" && !order.kind.NewLicense? && order.user in s.wallet.users
    && rules != [] && DistinctRules(rules) && NothingApplied(s, no, rules) && FreshIds(s.wallet, rules, chance)
    && AllWork(cat, rules, chance) && !chance.commitFails
  }

  lemma PayingKeepsDeliverable(s: Store, cat: Catalog, no: OrderNo, order: Order, chance: Chance)
    requires Delivered(s, cat) && no in s.orders && Clear(s, cat, no, chance)
    requires SameBuyer(s.orders[no], order)
    ensures Delivered(SetOrder(s, no, order), cat) && Clear(SetOrder(s, no, order), cat, no, chance)
  {
    var r := SetOrder(s, no, order);
    SetOrderBeside(s, no, order);
    BesideKeeps(s, r, cat);
    assert forall i :: 0 <= i < |RulesFor(cat, order.sku)| ==>
      IsApplied(r, no, RulesFor(cat, order.sku)[i].id) == IsApplied(s, no, RulesFor(cat, order.sku)[i].id);
  }

  // A verified payment whose amount, if both name one, and currency are the order's
  // fulfils an open checkout order at once.
  lemma PaidEventDelivers(s: Store, cfg: Config, cat: Catalog, event: Event, weather: Weather)
    requires Delivered(s, cat) && event.kind.PaymentPaid? && event.orderNo != "" && event.orderNo in s.orders
    requires var order := s.orders[event.orderNo];
             && !Settlement(order.status) && order.kind == Checkout
             && (event.amount > 0 && order.amount > 0 ==> event.amount == order.amount) && CurrencyMatches(order.currency, event.currency)
    requires Clear(s, cat, event.orderNo, weather.chance)
    ensures var r := ProcessPayment(s, cfg, cat, event, weather);
            && r.1 == Done && event.orderNo in r.0.orders
            && r.0.orders[event.orderNo].status == Fulfilled && Complete(r.0, cat, event.orderNo)
  {
    var no: OrderNo := event.orderNo;
    var order := PayOrder(s.orders[no], event, weather.now);
    var s1 := SetOrder(s, no, order);
    PayingKeepsDeliverable(s, cat, no, order, weather.chance);
    DeliveryDecided(s1, cat, no, weather.chance, weather.now);
    FulfillKeeps(s1, cat, no, weather.chance, weather.now);
    var r := FulfillOrder(s1, cat, no, weather.chance, weather.now);
    assert ProcessPayment(s, cfg, cat, event, weather) == (r.0, Settled(r.1));
  }
}
