/** Whether delivering a paid order goes through, decided without running it and with
    nothing assumed of the catalog, of the ids handed out or of earlier attempts. */
module DeliveryOutcome {
  import opened Wrappers
  import opened DeliveryKeys
  import opened Commerce
  import opened FulfillmentSpec
  import opened Delivery
  import opened Payments
  import opened PromptDelivery
  import Credits
  import W = WalletSpec

  // Bucket ids a rule uses up.
  function IdsOf(rule: Rule, chance: Chance): set<Credits.BucketId> {
    if rule.kind.GrantCredits? then {chance.ids(rule.id)} else {}
  }

  // Every rule is applied already or can be carried out in its turn, given the bucket
  // ids in use and the rules applied so far.
  predicate Carries(cat: Catalog, rules: seq<Rule>, chance: Chance, taken: set<Credits.BucketId>, done: set<string>)
    decreases |rules|
  {
    || rules == []
    || if rules[0].id in done then ValidRule(rules[0]) && Carries(cat, rules[1..], chance, taken, done)
       else
         && Works(cat, rules[0], chance) && IdsOf(rules[0], chance) !! taken
         && Carries(cat, rules[1..], chance, taken + IdsOf(rules[0], chance), done + {rules[0].id})
  }

  function AppliedRules(s: Store, no: OrderNo, rules: seq<Rule>): set<string> {
    set i | 0 <= i < |rules| && IsApplied(s, no, rules[i].id) :: rules[i].id
  }

  predicate GoesThrough(s: Store, cat: Catalog, no: OrderNo, chance: Chance)
    requires no in s.orders
  {
    var order := s.orders[no];
    var rules := RulesFor(cat, order.sku);
    && order.user != "" && order.sku != "" && !order.kind.NewLicense? && order.user in s.wallet.users
    && rules != [] && Carries(cat, rules, chance, s.wallet.buckets.Keys, AppliedRules(s, no, rules)) && !chance.commitFails
  }

  // ---------------------------------------------------------------- one rule

  lemma CreditsOutcome(s: Store, no: OrderNo, order: Order, rule: Rule, id: Credits.BucketId, now: Time)
    requires W.FindKey(s.wallet.ledger, Credits.CallerKey(CreditsKey(no, rule.id))).None?
    ensures ExecuteCredits(s, no, order, rule, id, now).Success? <==> id !in s.wallet.buckets
    ensures ExecuteCredits(s, no, order, rule, id, now).Success? ==>
              var r := ExecuteCredits(s, no, order, rule, id, now).value.0;
              r.wallet.buckets.Keys == s.wallet.buckets.Keys + {id} && r.wallet.users == s.wallet.users
  {
  }

  lemma RuleOutcome(s: Store, cat: Catalog, no: OrderNo, rule: Rule, chance: Chance, now: Time)
    requires NothingOffRecord(s) && no in s.orders && s.orders[no].user != "" && s.orders[no].user in s.wallet.users
    requires !IsApplied(s, no, rule.id)
    ensures var r := ApplyRule(s, cat, no, s.orders[no], rule, chance, now).outcome;
            && (r.Success? <==> Works(cat, rule, chance) && IdsOf(rule, chance) !! s.wallet.buckets.Keys)
            && (r.Success? ==> r.value.wallet.users == s.wallet.users
                               && r.value.wallet.buckets.Keys == s.wallet.buckets.Keys + IdsOf(rule, chance))
  {
    NoGrantYet(s, no, rule.id);
    NoEntryYet(s, no, rule.id);
    if ValidRule(rule) && rule.kind.GrantCredits? {
      CreditsOutcome(s, no, s.orders[no], rule, chance.ids(rule.id), now);
    }
  }

  lemma RuleApplied(s: Store, cat: Catalog, no: OrderNo, rule: Rule, chance: Chance, now: Time)
    requires NothingOffRecord(s) && no in s.orders && !IsApplied(s, no, rule.id)
    requires ApplyRule(s, cat, no, s.orders[no], rule, chance, now).outcome.Success?
    ensures var r := ApplyRule(s, cat, no, s.orders[no], rule, chance, now).outcome.value;
            && NothingOffRecord(r) && r.orders == s.orders
            && forall q :: IsApplied(r, no, q) <==> IsApplied(s, no, q) || q == rule.id
  {
    var e := RuleMakes(s, cat, no, s.orders[no], rule, chance, now);
    var r := ApplyRule(s, cat, no, s.orders[no], rule, chance, now).outcome.value;
    MadeStaysOnRecord(s, r, e, rule);
    forall q
      ensures IsApplied(r, no, q) <==> IsApplied(s, no, q) || q == rule.id
    {
      MarksOnly(s, r, e, no, q);
    }
  }

  // ---------------------------------------------------------------- all rules

  // The rules applied so far, as far as the listed ones are concerned.
  ghost predicate DoneSoFar(s: Store, no: OrderNo, rules: seq<Rule>, done: set<string>) {
    forall i :: 0 <= i < |rules| ==> (rules[i].id in done <==> IsApplied(s, no, rules[i].id))
  }

  ghost predicate Orderly(s: Store, no: OrderNo) {
    NothingOffRecord(s) && no in s.orders && s.orders[no].user != "" && s.orders[no].user in s.wallet.users
  }

  lemma RuleStep(s: Store, cat: Catalog, no: OrderNo, rules: seq<Rule>, chance: Chance, now: Time, done: set<string>)
    requires rules != [] && Orderly(s, no) && DoneSoFar(s, no, rules, done) && rules[0].id !in done
    ensures var first := ApplyRule(s, cat, no, s.orders[no], rules[0], chance, now).outcome;
            && (first.Success? <==> Works(cat, rules[0], chance) && IdsOf(rules[0], chance) !! s.wallet.buckets.Keys)
            && (first.Success? ==> Orderly(first.value, no) && first.value.orders == s.orders
                                   && first.value.wallet.buckets.Keys == s.wallet.buckets.Keys + IdsOf(rules[0], chance)
                                   && DoneSoFar(first.value, no, rules[1..], done + {rules[0].id}))
  {
    assert forall i :: 0 <= i < |rules[1..]| ==> rules[1..][i] == rules[i + 1];
    RuleOutcome(s, cat, no, rules[0], chance, now);
    if ApplyRule(s, cat, no, s.orders[no], rules[0], chance, now).outcome.Success? {
      RuleApplied(s, cat, no, rules[0], chance, now);
    }
  }

  lemma RuleSkipped(s: Store, cat: Catalog, no: OrderNo, rules: seq<Rule>, chance: Chance, now: Time, done: set<string>)
    requires rules != [] && no in s.orders && DoneSoFar(s, no, rules, done) && rules[0].id in done
    ensures var first := ApplyRule(s, cat, no, s.orders[no], rules[0], chance, now).outcome;
            if ValidRule(rules[0]) then first == Success(s) else first.Failure?
    ensures DoneSoFar(s, no, rules[1..], done)
  {
    assert forall i :: 0 <= i < |rules[1..]| ==> rules[1..][i] == rules[i + 1];
  }

  lemma {:induction false} RulesOutcome(s: Store, cat: Catalog, no: OrderNo, order: Order, rules: seq<Rule>, chance: Chance, now: Time,
                                        done: set<string>)
    requires Orderly(s, no) && DoneSoFar(s, no, rules, done) && order == s.orders[no]
    ensures ApplyRules(s, cat, no, order, rules, chance, now).outcome.Success? <==> Carries(cat, rules, chance, s.wallet.buckets.Keys, done)
    decreases |rules|
  {
    if rules != [] {
      var first := ApplyRule(s, cat, no, order, rules[0], chance, now).outcome;
      if rules[0].id in done {
        RuleSkipped(s, cat, no, rules, chance, now, done);
        RulesOutcome(s, cat, no, order, rules[1..], chance, now, done);
      } else {
        RuleStep(s, cat, no, rules, chance, now, done);
        if first.Success? {
          RulesOutcome(first.value, cat, no, order, rules[1..], chance, now, done + {rules[0].id});
        }
      }
    }
  }

  // ---------------------------------------------------------------- the order

  // Main result: whether the delivery of a paid order goes through. If it does the
  // order is fulfilled with every rule applied, else nothing but records of failure
  // has moved.
  lemma PaidOutcome(s: Store, cat: Catalog, no: OrderNo, chance: Chance, now: Time)
    requires Delivered(s, cat) && no in s.orders && s.orders[no].status == Paid
    ensures var r := FulfillOrder(s, cat, no, chance, now);
            && (r.1.Success? <==> GoesThrough(s, cat, no, chance))
            && (r.1.Success? ==> no in r.0.orders && r.0.orders[no].status == Fulfilled && Complete(r.0, cat, no))
            && (r.1.Failure? ==> r.0 == s.(executions := r.0.executions) && (Complete(r.0, cat, no) <==> Complete(s, cat, no)))
  {
    var order := s.orders[no];
    FulfillKeeps(s, cat, no, chance, now);
    if order.user != "" && order.user in s.wallet.users {
      var rules := RulesFor(cat, order.sku);
      RulesOutcome(s, cat, no, order, rules, chance, now, AppliedRules(s, no, rules));
    }
    CompleteSame(s, FulfillOrder(s, cat, no, chance, now).0, cat, no);
  }

  lemma CompleteSame(s: Store, r: Store, cat: Catalog, no: OrderNo)
    requires no in s.orders
    ensures Preserves(s, r) && Preserves(r, s) && r.orders == s.orders ==> (Complete(r, cat, no) <==> Complete(s, cat, no))
  {
  }

  // Neither depends on the order's status.
  lemma StatusAside(s: Store, cat: Catalog, no: OrderNo, order: Order, chance: Chance)
    requires no in s.orders && order.user == s.orders[no].user && order.sku == s.orders[no].sku && order.kind == s.orders[no].kind
    ensures GoesThrough(SetOrder(s, no, order), cat, no, chance) <==> GoesThrough(s, cat, no, chance)
    ensures Complete(SetOrder(s, no, order), cat, no) <==> Complete(s, cat, no)
  {
    var r, rules := SetOrder(s, no, order), RulesFor(cat, order.sku);
    assert forall q :: IsApplied(r, no, q) <==> IsApplied(s, no, q);
    assert AppliedRules(r, no, rules) == AppliedRules(s, no, rules);
  }

  // ---------------------------------------------------------------- any call

  // Main result: a call succeeds exactly for a proper order that is paid and whose delivery
  // goes through, or that was fulfilled before; an order in any other state, or unknown,
  // is told so and nothing is delivered.
  lemma CallDecided(s: Store, cat: Catalog, no: OrderNo, chance: Chance, now: Time)
    requires Delivered(s, cat)
    ensures var r := FulfillOrder(s, cat, no, chance, now);
            && (no !in s.orders ==> r == (s, Failure(OrderNotFound)))
            && (no in s.orders ==>
                  var order := s.orders[no];
                  var proper := order.user != "" && order.sku != "" && !order.kind.NewLicense?;
                  && (!proper ==> r == (s, Failure(InvalidOrder)))
                  && (proper && order.status == Fulfilled ==> r.0 == s && (r.1.Success? <==> !chance.commitFails))
                  && (proper && order.status != Fulfilled && order.status != Paid ==> r == (s, Failure(OrderNotPaid)))
                  && (proper && order.status == Paid ==> (r.1.Success? <==> GoesThrough(s, cat, no, chance)))
                  && (proper && order.status == Paid && order.user !in s.wallet.users ==> r == (s, Failure(UserNotFound)))
                  && (proper && order.status == Paid && order.user in s.wallet.users && RulesFor(cat, order.sku) == [] ==>
                        r == (s, Failure(RulesNotFound))))
  {
    assert PersistFailed(s.executions, []) == s.executions;
    if no in s.orders && s.orders[no].status == Paid {
      PaidOutcome(s, cat, no, chance, now);
    }
  }
}
