/** What the safety of every run means for buyers: each rule of an order delivers
    exactly once, refunds take back what was predicted and end access for good,
    and renewals neither double nor slip back. */
module CommerceResults {
  import opened Wrappers
  import opened DeliveryKeys
  import opened Commerce
  import opened FulfillmentSpec
  import opened Delivery
  import opened Payments
  import opened PaymentInbox
  import opened CommerceWallet
  import opened CommerceRuns
  import Credits
  import W = WalletSpec
  import WalletKeys
  import Refund
  import RefundFinality

  // ---------------------------------------------------------------- exactly once

  function GrantsUnder(grants: seq<Grant>, key: string): nat {
    if grants == [] then 0
    else GrantsUnder(grants[..|grants| - 1], key) + if grants[|grants| - 1].key == key then 1 else 0
  }

  function EntriesUnder(ledger: seq<Credits.Transaction>, key: string): nat {
    if ledger == [] then 0
    else EntriesUnder(ledger[..|ledger| - 1], key) + if ledger[|ledger| - 1].key == Credits.CallerKey(key) then 1 else 0
  }

  lemma {:induction false} GrantsCounted(grants: seq<Grant>, key: string)
    requires GrantKeysUnique(grants)
    ensures GrantsUnder(grants, key) == if exists i :: 0 <= i < |grants| && grants[i].key == key then 1 else 0
  {
    if grants != [] {
      var front := grants[..|grants| - 1];
      GrantsCounted(front, key);
      assert forall i :: 0 <= i < |front| ==> front[i] == grants[i];
      if exists i :: 0 <= i < |grants| && grants[i].key == key {
        var i :| 0 <= i < |grants| && grants[i].key == key;
        assert i < |front| ==> front[i].key == key;
      }
    }
  }

  lemma {:induction false} EntriesCounted(ledger: seq<Credits.Transaction>, key: string)
    requires WalletKeys.KeysUnique(ledger)
    ensures EntriesUnder(ledger, key) == if exists i :: 0 <= i < |ledger| && ledger[i].key == Credits.CallerKey(key) then 1 else 0
  {
    if ledger != [] {
      var front := ledger[..|ledger| - 1];
      EntriesCounted(front, key);
      assert forall i :: 0 <= i < |front| ==> front[i] == ledger[i];
      if exists i :: 0 <= i < |ledger| && ledger[i].key == Credits.CallerKey(key) {
        var i :| 0 <= i < |ledger| && ledger[i].key == Credits.CallerKey(key);
        assert i < |front| ==> front[i].key == Credits.CallerKey(key);
      }
    }
  }

  // Grants and ledger entries made for one rule of one order.
  function DeliveriesOf(s: Store, no: OrderNo, rule: string): nat {
    GrantsUnder(s.grants, EntitlementKey(no, rule)) + EntriesUnder(s.wallet.ledger, CreditsKey(no, rule))
  }

  lemma DeliveredOnce(s: Store, cat: Catalog, no: OrderNo, rule: string)
    requires Accounted(s, cat)
    ensures DeliveriesOf(s, no, rule) == if IsApplied(s, no, rule) then 1 else 0
  {
    GrantsCounted(s.grants, EntitlementKey(no, rule));
    EntriesCounted(s.wallet.ledger, CreditsKey(no, rule));
    assert forall i :: 0 <= i < |s.grants| && s.grants[i].key == EntitlementKey(no, rule) ==> Names(s, no, rule, i, true);
    assert forall i :: 0 <= i < |s.wallet.ledger| && s.wallet.ledger[i].key == Credits.CallerKey(CreditsKey(no, rule)) ==>
      Names(s, no, rule, i, false);
    if IsApplied(s, no, rule) {
      var e := s.executions[ExecutionKey(no, rule)];
      assert RecordSound(s, cat, ExecutionKey(no, rule));
      ExecutionKeyUnique(no, rule, e.order, e.rule);
      AppliedNamesGrant(s, cat, no, e);
    }
  }

  // Over every run: a fulfilled order has delivered each of its rules exactly once,
  // and an order has delivered all of its rules or none.
  lemma EveryRunDeliversOnce(users: set<UserId>, cfg: Config, cat: Catalog, steps: seq<Step>, no: OrderNo)
    requires AllowedRun(Start(users), cfg, cat, steps)
    ensures var s := RunSteps(Start(users), cfg, cat, steps).store;
            no in s.orders ==>
              var rules := RulesFor(cat, s.orders[no].sku);
              && (s.orders[no].status == Fulfilled ==> forall i :: 0 <= i < |rules| ==> DeliveriesOf(s, no, rules[i].id) == 1)
              && ((forall i :: 0 <= i < |rules| ==> DeliveriesOf(s, no, rules[i].id) == 1)
                  || (forall i :: 0 <= i < |rules| ==> DeliveriesOf(s, no, rules[i].id) == 0))
  {
    EveryRunSafe(users, cfg, cat, steps);
    var s := RunSteps(Start(users), cfg, cat, steps).store;
    if no in s.orders {
      var rules := RulesFor(cat, s.orders[no].sku);
      forall i | 0 <= i < |rules|
        ensures DeliveriesOf(s, no, rules[i].id) == if IsApplied(s, no, rules[i].id) then 1 else 0
      {
        DeliveredOnce(s, cat, no, rules[i].id);
      }
      assert s.orders[no].status == Fulfilled ==> Complete(s, cat, no);
      assert forall i :: 0 <= i < |rules| && IsApplied(s, no, rules[i].id) ==> Complete(s, cat, no);
    }
  }

  // ---------------------------------------------------------------- refunds

  // The credit half of a refund, as the wallet sees it.
  function CreditHalf(listing: seq<Execution>): seq<W.Execution> {
    seq(|listing|, i requires 0 <= i < |listing| => WalletExecution(listing[i]))
  }

  lemma DeliveredNamesGrants(s: Store, cat: Catalog, no: OrderNo, listing: seq<Execution>)
    requires Delivered(s, cat) && no in s.orders && ExecutionsOf(s, no, listing)
    ensures Refund.NamesGrants(s.wallet, W.Order(no, s.orders[no].user), CreditHalf(listing))
  {
    var executions := CreditHalf(listing);
    forall i | 0 <= i < |executions| && executions[i].credits
      ensures Refund.Counts(s.wallet.ledger, W.Order(no, s.orders[no].user), executions[i])
      ensures s.wallet.ledger[executions[i].resultRef.value].kind == Credits.GrantEntry
      ensures s.wallet.ledger[executions[i].resultRef.value].key == Credits.CallerKey(CreditsKey(no, listing[i].rule))
    {
      AppliedNamesGrant(s, cat, no, listing[i]);
    }
    forall i, j | 0 <= i < j < |executions| && executions[i].credits && executions[j].credits
      ensures executions[i].rule != executions[j].rule && executions[i].resultRef != executions[j].resultRef
    {
      if executions[i].resultRef == executions[j].resultRef {
        CreditsKeyUnique(no, listing[i].rule, no, listing[j].rule);
        assert false;
      }
    }
  }

  // Whatever happened before, refunding a delivered order whose credits have not
  // been clawed back takes exactly what the usage snapshot predicted, and refunding
  // it again takes nothing more - in whatever order its executions are listed.
  lemma RefundAfterAnyRun(users: set<UserId>, cfg: Config, cat: Catalog, steps: seq<Step>, no: OrderNo, listing: seq<Execution>,
                          now: Time, again: Time)
    requires AllowedRun(Start(users), cfg, cat, steps)
    requires var s := RunSteps(Start(users), cfg, cat, steps).store;
             && no in s.orders && s.orders[no].user in s.wallet.accounts
             && IsListing(s.executions, AppliedKeys(s.executions, no), listing)
             && Refund.NotYetTaken(s.wallet, W.Order(no, s.orders[no].user), CreditHalf(listing))
    ensures var s := RunSteps(Start(users), cfg, cat, steps).store;
            var order, executions := W.Order(no, s.orders[no].user), CreditHalf(listing);
            var usage, effect := Refund.Snapshot(s.wallet, order, executions), W.Clawback(s.wallet, order, executions, now);
            && effect.Success? && effect.value.1 == usage.available && usage.used + effect.value.1 == usage.granted
            && W.Clawback(effect.value.0, order, executions, again) == effect
  {
    EmptyReachable(users);
    RunSafe(Start(users), cfg, cat, users, steps);
    var s := RunSteps(Start(users), cfg, cat, steps).store;
    ListsExecutions(s, cat, no, listing);
    DeliveredNamesGrants(s, cat, no, listing);
    var ops :| RunReaches(users, ops, s.wallet);
    Refund.RefundAsPredicted(users, ops, W.Order(no, s.orders[no].user), CreditHalf(listing), now, again);
  }

  // The credits of a delivered order that no reservation holds at its refund are gone
  // for good; those held in a bucket not expired by then can come back, and only those.
  lemma RefundFinalAfterAnyRun(users: set<UserId>, cfg: Config, cat: Catalog, steps: seq<Step>, no: OrderNo, listing: seq<Execution>, now: Time)
    requires AllowedRun(Start(users), cfg, cat, steps)
    requires var s := RunSteps(Start(users), cfg, cat, steps).store;
             && no in s.orders && IsListing(s.executions, AppliedKeys(s.executions, no), listing)
             && Refund.NotYetTaken(s.wallet, W.Order(no, s.orders[no].user), CreditHalf(listing))
    ensures var s := RunSteps(Start(users), cfg, cat, steps).store;
            var ids := RefundFinality.GrantedBuckets(s.wallet, CreditHalf(listing));
            var effect := W.Clawback(s.wallet, W.Order(no, s.orders[no].user), CreditHalf(listing), now);
            && effect.Success? && RefundFinality.NothingLeft(effect.value.0, ids)
            && (RefundFinality.StaysGone(effect.value.0, ids, now) <==> forall b :: b in ids ==> !RefundFinality.HeldBack(s.wallet, b, now))
  {
    EmptyReachable(users);
    RunSafe(Start(users), cfg, cat, users, steps);
    var s := RunSteps(Start(users), cfg, cat, steps).store;
    ListsExecutions(s, cat, no, listing);
    DeliveredNamesGrants(s, cat, no, listing);
    var ops :| RunReaches(users, ops, s.wallet);
    RefundFinality.RefundFinal(users, ops, W.Order(no, s.orders[no].user), CreditHalf(listing), now);
  }

  // The refund loop is the wallet's clawback and the revocations side by side.
  lemma {:induction false} CompensateWallet(s: Store, order: W.Order, listing: seq<Execution>, d: Decision, now: Time)
    requires d.clawback
    ensures var r, c := Compensate(s, order, listing, d, now), W.Clawback(s.wallet, order, CreditHalf(listing), now);
            (r.Success? <==> c.Success?) && (r.Success? ==> r.value.wallet == c.value.0)
    decreases |listing|
  {
    if listing != [] {
      assert CreditHalf(listing)[1..] == CreditHalf(listing[1..]);
      var e := listing[0];
      if e.target.ToEntitlement? {
        CompensateWallet(if d.revoke then s.(grants := Revoke(s.grants, e.ref, now)) else s, order, listing[1..], d, now);
      } else {
        var one := W.ClawbackOne(s.wallet, order, WalletExecution(e), now);
        if one.Success? {
          CompensateWallet(s.(wallet := one.value.0), order, listing[1..], d, now);
        }
      }
    }
  }

  ghost predicate EndedBy(grants: seq<Grant>, ref: nat) {
    ref < |grants| ==> grants[ref].status != Active
  }

  lemma {:induction false} CompensateEnds(s: Store, order: W.Order, listing: seq<Execution>, d: Decision, now: Time, i: nat)
    requires d.revoke && Compensate(s, order, listing, d, now).Success?
    requires i < |listing| && listing[i].target.ToEntitlement? && listing[i].ref.Some?
    ensures EndedBy(Compensate(s, order, listing, d, now).value.grants, listing[i].ref.value)
    decreases |listing|
  {
    var e := listing[0];
    var next := if e.target.ToEntitlement? then s.(grants := Revoke(s.grants, e.ref, now))
                else if !d.clawback then s
                else s.(wallet := W.ClawbackOne(s.wallet, order, WalletExecution(e), now).value.0);
    if i > 0 {
      assert listing[1..][i - 1] == listing[i];
      CompensateEnds(next, order, listing[1..], d, now, i - 1);
    } else {
      EndedStays(next, order, listing[1..], d, now, e.ref.value);
    }
  }

  lemma {:induction false} EndedStays(s: Store, order: W.Order, listing: seq<Execution>, d: Decision, now: Time, ref: nat)
    requires EndedBy(s.grants, ref) && Compensate(s, order, listing, d, now).Success?
    ensures EndedBy(Compensate(s, order, listing, d, now).value.grants, ref)
    decreases |listing|
  {
    if listing != [] {
      var e := listing[0];
      var next := if e.target.ToEntitlement? then (if d.revoke then s.(grants := Revoke(s.grants, e.ref, now)) else s)
                  else if !d.clawback then s
                  else s.(wallet := W.ClawbackOne(s.wallet, order, WalletExecution(e), now).value.0);
      EndedStays(next, order, listing[1..], d, now, ref);
    }
  }

  // No entitlement delivered for this order is active any more.
  ghost predicate AccessEnded(s: Store, no: OrderNo) {
    forall rule, i :: 0 <= i < |s.grants| && s.grants[i].key == EntitlementKey(no, rule) ==> s.grants[i].status != Active
  }

  ghost predicate NoAccess(s: Store, no: OrderNo) {
    forall rule, i, at :: 0 <= i < |s.grants| && s.grants[i].key == EntitlementKey(no, rule) ==> !GrantActive(s.grants[i], at)
  }

  lemma {:induction false} ListsEvery(executions: map<string, Execution>, keys: set<string>, listing: seq<Execution>, key: string) returns (i: nat)
    requires keys <= executions.Keys && key in keys && IsListing(executions, keys, listing)
    ensures i < |listing| && listing[i] == executions[key]
    decreases |listing|
  {
    var first :| first in keys && executions[first] == listing[0] && IsListing(executions, keys - {first}, listing[1..]);
    if first == key {
      i := 0;
    } else {
      var j := ListsEvery(executions, keys - {first}, listing[1..], key);
      i := j + 1;
    }
  }

  lemma RefundEndsAccess(s: Store, cat: Catalog, no: OrderNo, weather: Weather)
    requires Delivered(s, cat) && no in s.orders && s.orders[no].kind == Checkout && s.orders[no].user != ""
    requires weather.decision.compensate && weather.decision.revoke && Adjust(s, no, weather).1.Done?
    ensures AccessEnded(Adjust(s, no, weather).0, no)
  {
    var order, keys := W.Order(no, s.orders[no].user), AppliedKeys(s.executions, no);
    var listing, d := AppliedListing(s.executions, no, weather.query), weather.decision;
    var r := Adjust(s, no, weather).0;
    forall rule, k | 0 <= k < |r.grants| && r.grants[k].key == EntitlementKey(no, rule)
      ensures r.grants[k].status != Active
    {
      CompensateKeepsKeys(s, order, listing, d, weather.now);
      assert s.grants[k].key == EntitlementKey(no, rule);
      assert Names(s, no, rule, k, true);
      var key := ExecutionKey(no, rule);
      assert RecordSound(s, cat, key);
      ExecutionKeyUnique(no, rule, s.executions[key].order, s.executions[key].rule);
      var i := ListsEvery(s.executions, keys, listing, key);
      CompensateEnds(s, order, listing, d, weather.now, i);
    }
  }

  lemma {:induction false} CompensateKeepsKeys(s: Store, order: W.Order, listing: seq<Execution>, d: Decision, now: Time)
    requires Compensate(s, order, listing, d, now).Success?
    ensures SameDeals(s.grants, Compensate(s, order, listing, d, now).value.grants)
    decreases |listing|
  {
    if listing != [] {
      var e := listing[0];
      var next := if e.target.ToEntitlement? then (if d.revoke then s.(grants := Revoke(s.grants, e.ref, now)) else s)
                  else if !d.clawback then s
                  else s.(wallet := W.ClawbackOne(s.wallet, order, WalletExecution(e), now).value.0);
      CompensateKeepsKeys(next, order, listing[1..], d, now);
    }
  }

  // Access ended by a refund stays ended over every later run, even one in which a
  // late payment event marks the order paid and fulfilled again.
  lemma {:induction false} EndedForGood(sys: System, cfg: Config, cat: Catalog, users: set<UserId>, steps: seq<Step>, no: OrderNo, rule: string)
    requires Safe(sys.store, cat, users) && AllowedRun(sys, cfg, cat, steps)
    requires AccessEnded(sys.store, no) && IsApplied(sys.store, no, rule)
    ensures AccessEnded(RunSteps(sys, cfg, cat, steps).store, no)
    ensures NoAccess(RunSteps(sys, cfg, cat, steps).store, no)
  {
    RunSafe(sys, cfg, cat, users, steps);
    AppliedOrderKnown(sys.store, cat, no, rule);
    EndedLasts(sys.store, RunSteps(sys, cfg, cat, steps).store, cat, no);
  }

  lemma EndedLasts(s: Store, r: Store, cat: Catalog, no: OrderNo)
    requires Delivered(s, cat) && Delivered(r, cat) && Lasting(s, r) && no in s.orders && Complete(s, cat, no) && AccessEnded(s, no)
    ensures AccessEnded(r, no)
  {
    forall q, i | 0 <= i < |r.grants| && r.grants[i].key == EntitlementKey(no, q)
      ensures r.grants[i].status != Active
    {
      assert Names(r, no, q, i, true);
      LastedFromBefore(s, r, cat, no, q, i);
      assert SameDeal(s.grants[i], r.grants[i]);
    }
  }

  lemma PaymentMarks(s: Store, cfg: Config, cat: Catalog, users: set<UserId>, event: Event, weather: Weather) returns (s1: Store)
    requires Safe(s, cat, users) && event.kind.PaymentPaid? && event.orderNo in s.orders
    ensures Delivered(s1, cat) && s1.orders.Keys == s.orders.Keys
    ensures s1.grants == s.grants && s1.wallet == s.wallet && s1.executions == s.executions
    ensures var r := ProcessPayment(s, cfg, cat, event, weather).0;
            r == s || r == s1 || r == FulfillOrder(s1, cat, event.orderNo, weather.chance, weather.now).0
  {
    var no: OrderNo := event.orderNo;
    s1 := s;
    if OrderAfter(s.orders[no], event, weather.now).Success? {
      var order := OrderAfter(s.orders[no], event, weather.now).value;
      s1 := SetOrder(s, no, order);
      SetOrderSafe(s, cat, users, no, order);
    }
  }

  // A payment event for an order with anything delivered - late, repeated, or after
  // a refund - moves its status and delivers nothing.
  lemma LatePaymentDeliversNothing(s: Store, cfg: Config, cat: Catalog, users: set<UserId>, event: Event, weather: Weather, rule: string)
    requires Safe(s, cat, users) && event.kind.PaymentPaid? && event.orderNo in s.orders && IsApplied(s, event.orderNo, rule)
    ensures var r := ProcessPayment(s, cfg, cat, event, weather).0;
            r.grants == s.grants && r.wallet == s.wallet && r.executions == s.executions
  {
    var s1 := PaymentMarks(s, cfg, cat, users, event, weather);
    assert IsApplied(s1, event.orderNo, rule);
    DeliveredOnceOnly(s1, cat, event.orderNo, rule, weather.chance, weather.now);
  }

  lemma AppliedOrderKnown(s: Store, cat: Catalog, no: OrderNo, rule: string)
    requires Delivered(s, cat) && IsApplied(s, no, rule)
    ensures no in s.orders && Complete(s, cat, no)
  {
    var e := s.executions[ExecutionKey(no, rule)];
    assert RecordSound(s, cat, ExecutionKey(no, rule));
    ExecutionKeyUnique(no, rule, e.order, e.rule);
  }

  // Whatever a complete order has delivered later, it had delivered already.
  lemma LastedFromBefore(s: Store, r: Store, cat: Catalog, no: OrderNo, rule: string, i: nat)
    requires Delivered(s, cat) && Delivered(r, cat) && Lasting(s, r) && no in s.orders && Complete(s, cat, no)
    requires Names(r, no, rule, i, true)
    ensures i < |s.grants|
  {
    var e := r.executions[ExecutionKey(no, rule)];
    assert RecordSound(r, cat, ExecutionKey(no, rule));
    ExecutionKeyUnique(no, rule, e.order, e.rule);
    var rules := RulesFor(cat, s.orders[no].sku);
    var k :| 0 <= k < |rules| && BackedBy(r, e, rules[k]);
    assert IsApplied(s, no, rules[k].id);
    AppliedNamesGrant(s, cat, no, s.executions[ExecutionKey(no, rule)]);
  }
}
