/** A failed delivery leaves no trace that matters: retried after any number of
    failures, an order is delivered exactly as if it had never been tried. */
module Retries {
  import opened Wrappers
  import opened DeliveryKeys
  import opened Commerce
  import opened FulfillmentSpec
  import opened Delivery

  // Equal but for records of failures and for when a record was first written.
  ghost predicate Alike(a: Store, b: Store) {
    && a.orders == b.orders && a.grants == b.grants && a.wallet == b.wallet
    && forall no: OrderNo, rule ::
         && (IsApplied(a, no, rule) <==> IsApplied(b, no, rule))
         && (IsApplied(a, no, rule) ==> SameDelivery(a.executions[ExecutionKey(no, rule)], b.executions[ExecutionKey(no, rule)]))
  }

  ghost predicate SameDelivery(a: Execution, b: Execution) {
    a == b.(createdAt := a.createdAt)
  }

  lemma AlikeThrough(a: Store, b: Store, c: Store)
    requires Alike(a, b) && Alike(b, c)
    ensures Alike(a, c)
  {
    forall no: OrderNo, rule
      ensures IsApplied(a, no, rule) <==> IsApplied(c, no, rule)
      ensures IsApplied(a, no, rule) ==> SameDelivery(a.executions[ExecutionKey(no, rule)], c.executions[ExecutionKey(no, rule)])
    {
      assert IsApplied(a, no, rule) <==> IsApplied(b, no, rule);
      assert IsApplied(b, no, rule) <==> IsApplied(c, no, rule);
    }
  }

  lemma MarkedAlike(a: Store, a': Store, b: Store, b': Store, e: Execution, f: Execution)
    requires Alike(a, b) && Marks(a, a', e) && Marks(b, b', f) && SameDelivery(e, f)
    requires a'.grants == b'.grants && a'.wallet == b'.wallet
    ensures Alike(a', b')
  {
    forall no: OrderNo, rule
      ensures IsApplied(a', no, rule) <==> IsApplied(b', no, rule)
      ensures IsApplied(a', no, rule) ==> SameDelivery(a'.executions[ExecutionKey(no, rule)], b'.executions[ExecutionKey(no, rule)])
    {
      MarksOnly(a, a', e, no, rule);
      MarksOnly(b, b', f, no, rule);
      assert IsApplied(a, no, rule) <==> IsApplied(b, no, rule);
    }
  }

  lemma ExecuteIgnoresRecords(a: Store, b: Store, cat: Catalog, no: OrderNo, order: Order, rule: Rule, chance: Chance, now: Time)
    requires a.orders == b.orders && a.grants == b.grants && a.wallet == b.wallet && ValidRule(rule)
    ensures var x, y := Execute(a, cat, no, order, rule, chance, now), Execute(b, cat, no, order, rule, chance, now);
            && (x.Success? <==> y.Success?)
            && (x.Failure? ==> x == y)
            && (x.Success? ==> x.value.1 == y.value.1 && x.value.0.(executions := map[]) == y.value.0.(executions := map[])
                               && x.value.0.executions == a.executions && y.value.0.executions == b.executions)
            && (x.Success? ==> x.value.0.orders == a.orders)
  {
  }

  lemma RuleAlike(a: Store, b: Store, cat: Catalog, no: OrderNo, rule: Rule, chance: Chance, now: Time)
    requires Alike(a, b) && no in a.orders
    ensures var x := ApplyRule(a, cat, no, a.orders[no], rule, chance, now).outcome;
            var y := ApplyRule(b, cat, no, a.orders[no], rule, chance, now).outcome;
            && (x.Success? <==> y.Success?)
            && (x.Failure? ==> x.error == y.error)
            && (x.Success? ==> Alike(x.value, y.value) && x.value.orders == a.orders)
  {
    var order := a.orders[no];
    var x := ApplyRule(a, cat, no, order, rule, chance, now);
    var y := ApplyRule(b, cat, no, order, rule, chance, now);
    assert IsApplied(a, no, rule.id) <==> IsApplied(b, no, rule.id);
    if ValidRule(rule) && !IsApplied(a, no, rule.id) {
      ExecuteIgnoresRecords(a, b, cat, no, order, rule, chance, now);
      if x.outcome.Success? {
        var e, f := x.records[0], y.records[0];
        assert Marks(a, x.outcome.value, e) && Marks(b, y.outcome.value, f);
        MarkedAlike(a, x.outcome.value, b, y.outcome.value, e, f);
      }
    }
  }

  lemma {:induction false} RulesAlike(a: Store, b: Store, cat: Catalog, no: OrderNo, rules: seq<Rule>, chance: Chance, now: Time)
    requires Alike(a, b) && no in a.orders
    ensures var x := ApplyRules(a, cat, no, a.orders[no], rules, chance, now).outcome;
            var y := ApplyRules(b, cat, no, a.orders[no], rules, chance, now).outcome;
            && (x.Success? <==> y.Success?)
            && (x.Failure? ==> x.error == y.error)
            && (x.Success? ==> Alike(x.value, y.value) && x.value.orders == a.orders)
    decreases |rules|
  {
    if rules != [] {
      RuleAlike(a, b, cat, no, rules[0], chance, now);
      var x := ApplyRule(a, cat, no, a.orders[no], rules[0], chance, now).outcome;
      var y := ApplyRule(b, cat, no, a.orders[no], rules[0], chance, now).outcome;
      if x.Success? {
        RulesAlike(x.value, y.value, cat, no, rules[1..], chance, now);
      }
    }
  }

  lemma OrdersChangedAlike(a: Store, b: Store, orders: map<OrderNo, Order>)
    requires Alike(a, b)
    ensures Alike(a.(orders := orders), b.(orders := orders))
  {
    forall no: OrderNo, rule
      ensures IsApplied(a.(orders := orders), no, rule) <==> IsApplied(b.(orders := orders), no, rule)
      ensures IsApplied(a, no, rule) ==> SameDelivery(a.executions[ExecutionKey(no, rule)], b.executions[ExecutionKey(no, rule)])
    {
      assert IsApplied(a, no, rule) <==> IsApplied(b, no, rule);
    }
  }

  // The same call on stores that are alike ends the same way.
  lemma FulfillAlike(a: Store, b: Store, cat: Catalog, no: OrderNo, chance: Chance, now: Time)
    requires Alike(a, b)
    ensures var x, y := FulfillInside(a, cat, no, chance, now).outcome, FulfillInside(b, cat, no, chance, now).outcome;
            && (x.Success? <==> y.Success?)
            && (x.Failure? ==> x.error == y.error)
            && (x.Success? ==> Alike(x.value, y.value))
  {
    if Refusal(a, cat, no).None? && a.orders[no].status != Fulfilled {
      var order := a.orders[no];
      var rules := RulesFor(cat, order.sku);
      RulesAlike(a, b, cat, no, rules, chance, now);
      var x := ApplyRules(a, cat, no, order, rules, chance, now).outcome;
      var y := ApplyRules(b, cat, no, order, rules, chance, now).outcome;
      if x.Success? {
        OrdersChangedAlike(x.value, y.value, Finish(x.value, no, order, now).orders);
      }
    }
  }

  datatype Try = Try(chance: Chance, now: Time)

  ghost predicate AllFail(s: Store, cat: Catalog, no: OrderNo, tries: seq<Try>)
    decreases |tries|
  {
    tries == [] ||
    var first := FulfillOrder(s, cat, no, tries[0].chance, tries[0].now);
    first.1.Failure? && AllFail(first.0, cat, no, tries[1..])
  }

  ghost function After(s: Store, cat: Catalog, no: OrderNo, tries: seq<Try>): Store
    decreases |tries|
  {
    if tries == [] then s else After(FulfillOrder(s, cat, no, tries[0].chance, tries[0].now).0, cat, no, tries[1..])
  }

  lemma {:induction false} FailuresLeaveAlike(s: Store, cat: Catalog, no: OrderNo, tries: seq<Try>)
    requires Delivered(s, cat) && AllFail(s, cat, no, tries)
    ensures Alike(s, After(s, cat, no, tries)) && Delivered(After(s, cat, no, tries), cat)
    decreases |tries|
  {
    if tries != [] {
      var first := FulfillOrder(s, cat, no, tries[0].chance, tries[0].now);
      FulfillKeeps(s, cat, no, tries[0].chance, tries[0].now);
      FailuresLeaveAlike(first.0, cat, no, tries[1..]);
      AlikeThrough(s, first.0, After(s, cat, no, tries));
    }
  }

  lemma RetriedAsIfNew(s: Store, cat: Catalog, no: OrderNo, tries: seq<Try>, last: Try)
    requires Delivered(s, cat) && AllFail(s, cat, no, tries)
    ensures var direct := FulfillOrder(s, cat, no, last.chance, last.now);
            var retried := FulfillOrder(After(s, cat, no, tries), cat, no, last.chance, last.now);
            && direct.1 == retried.1
            && Alike(direct.0, retried.0)
  {
    var r := After(s, cat, no, tries);
    FailuresLeaveAlike(s, cat, no, tries);
    FulfillAlike(s, r, cat, no, last.chance, last.now);
    var direct := FulfillOrder(s, cat, no, last.chance, last.now);
    var retried := FulfillOrder(r, cat, no, last.chance, last.now);
    if direct.1.Failure? {
      FulfillKeeps(s, cat, no, last.chance, last.now);
      FulfillKeeps(r, cat, no, last.chance, last.now);
      assert Alike(direct.0, s) && Alike(r, retried.0);
      AlikeThrough(direct.0, s, r);
      AlikeThrough(direct.0, r, retried.0);
    }
  }
}
