/** The fulfillment service over its stores: executors that write as they go,
    loops over rules and grants, and rollback of the unit of work. */
module Fulfillment {
  import opened Wrappers
  import opened DeliveryKeys
  import opened Commerce
  import Spec = FulfillmentSpec
  import opened Delivery
  import Credits
  import Wallet

  type Outcome<+T> = Spec.Outcome<T>

  class FulfillmentService {
    const catalog: Catalog
    const credits: Wallet.CreditStore
    var orders: map<OrderNo, Order>
    var grants: seq<Grant>
    var executions: map<string, Execution>

    function Now(): Store
      reads this, credits
    {
      Store(orders, grants, executions, credits.Now())
    }

    constructor (catalog: Catalog, credits: Wallet.CreditStore)
      ensures this.catalog == catalog && this.credits == credits
      ensures Now() == Store(map[], [], map[], credits.Now())
    {
      this.catalog, this.credits := catalog, credits;
      orders, grants, executions := map[], [], map[];
    }

    // ------------------------------------------------------------ executors

    // entitlementFulfillmentAnchor: one pass over the listed grants.
    method Anchor(listing: seq<Grant>, from: Time) returns (anchor: Time)
      ensures anchor == Spec.Anchor(listing, from)
    {
      var paid := from;
      var grace: Option<Time> := None;
      for i := 0 to |listing|
        invariant paid == Spec.PaidUntil(listing[..i], from)
        invariant grace == Spec.GraceSince(listing[..i], from)
      {
        assert listing[..i + 1][..i] == listing[..i];
        var g := listing[i];
        if g.source == Commerce.SubscriptionGrace {
          if g.startsAt < from && (grace.None? || g.startsAt > grace.value) {
            grace := Some(g.startsAt);
          }
          continue;
        }
        if g.source == Commerce.Fulfillment && g.expiresAt.Some? && g.expiresAt.value > paid {
          paid := g.expiresAt.value;
        }
      }
      assert listing[..|listing|] == listing;
      anchor := if paid > from then paid else if grace.Some? then grace.value else from;
    }

    method CreateGrant(g: Grant) returns (r: Outcome<GrantId>)
      modifies this`grants
      ensures Spec.CreateGrant(old(grants), credits.users, catalog, g) == if r.Success? then Success((grants, r.value)) else Failure(r.error)
      ensures r.Failure? ==> grants == old(grants)
    {
      if g.user == "" || g.entitlement == "" {
        return Failure(InvalidGrant);
      }
      var existing := FindGrant(grants, g.key);
      if existing.Some? {
        var prior := grants[existing.value];
        if prior.user != g.user || prior.entitlement != g.entitlement {
          return Failure(InvalidGrant);
        }
        return Success(existing.value);
      }
      if g.entitlement !in catalog.entitlements {
        return Failure(UnknownEntitlement);
      }
      if g.user !in credits.users {
        return Failure(UserNotFound);
      }
      r := Success(|grants|);
      grants := grants + [g];
    }

    method ExecuteEntitlement(no: OrderNo, order: Order, rule: Rule, now: Time) returns (r: Outcome<nat>)
      modifies this`grants
      ensures Spec.ExecuteEntitlement(old(Now()), catalog, no, order, rule, now)
           == if r.Success? then Success((Now(), r.value)) else Failure(r.error)
      ensures r.Success? && |grants| > |old(grants)| ==>
                && r.value == |old(grants)| && grants[r.value].startsAt == now
                && (grants[r.value].expiresAt.None? <==> rule.duration.Unset? || rule.duration.Lifetime?)
    {
      var listing := Spec.ListGrants(grants, order.user, rule.entitlement, now);
      var anchor := Anchor(listing, Spec.PaidAnchor(order, now));
      var expiresAt := Spec.RuleExpiry(rule.duration, anchor);
      if expiresAt.Failure? {
        return Failure(expiresAt.error);
      }
      r := CreateGrant(Grant(order.user, rule.entitlement, Active, Commerce.Fulfillment, now, expiresAt.value, EntitlementKey(no, rule.id)));
    }

    method ExecuteCredits(no: OrderNo, order: Order, rule: Rule, id: Credits.BucketId, now: Time) returns (r: Outcome<nat>)
      modifies credits
      ensures Spec.ExecuteCredits(old(Now()), no, order, rule, id, now)
           == if r.Success? then Success((Now(), r.value)) else Failure(r.error)
    {
      var mutation := credits.GrantCredits(Spec.CreditsInput(no, order, rule, now), id, now);
      match mutation
      case Failure(cause) => r := Failure(CreditsRefused(cause));
      case Success(receipt) =>
        r := if receipt.transaction.None? then Failure(StoreFailure) else Success(receipt.transaction.value);
    }

    method Execute(no: OrderNo, order: Order, rule: Rule, chance: Spec.Chance, now: Time) returns (r: Outcome<nat>)
      requires Spec.ValidRule(rule)
      modifies this`grants, credits
      ensures Spec.Execute(old(Now()), catalog, no, order, rule, chance, now)
           == if r.Success? then Success((Now(), r.value)) else Failure(r.error)
    {
      if rule.id in chance.broken {
        return Failure(StoreFailure);
      }
      if rule.kind.GrantEntitlement? {
        r := ExecuteEntitlement(no, order, rule, now);
      } else {
        r := ExecuteCredits(no, order, rule, chance.ids(rule.id), now);
      }
    }

    // ------------------------------------------------------------ one order

    method Save(e: Execution) returns (saved: Execution)
      modifies this`executions
      ensures saved == Spec.Recorded(old(executions), e)
      ensures executions == Spec.Save(old(executions), e)
    {
      var key := ExecutionKey(e.order, e.rule);
      saved := e;
      if key in executions {
        saved := saved.(createdAt := executions[key].createdAt);
      }
      executions := executions[key := saved];
    }

    method ApplyRule(no: OrderNo, order: Order, rule: Rule, chance: Spec.Chance, now: Time)
      returns (r: Outcome<()>, record: seq<Execution>)
      modifies this`grants, this`executions, credits
      ensures Spec.ApplyRule(old(Now()), catalog, no, order, rule, chance, now)
           == Spec.Attempt(if r.Success? then Success(Now()) else Failure(r.error), record)
    {
      record := [];
      if !Spec.ValidRule(rule) {
        return Failure(InvalidRule), [];
      }
      var key := ExecutionKey(no, rule.id);
      if key in executions && executions[key].status == Applied {
        return Success(()), [executions[key]];
      }
      var e := Execution(no, order.user, order.sku, rule.id, Spec.TargetOf(rule), NotApplied, None, now);
      var target := Execute(no, order, rule, chance, now);
      if target.Success? {
        e := e.(status := Applied, ref := Some(target.value));
      }
      if rule.id in chance.unsaved {
        return Failure(StoreFailure), [];
      }
      ghost var before := Now();
      var saved := Save(e);
      assert Spec.Recorded(before.executions, saved) == saved;
      record := [saved];
      r := if target.Success? then Success(()) else Failure(target.error);
    }

    // The loop of fulfillOrderWithRepos, which stops at the first failure.
    method ApplyRules(no: OrderNo, order: Order, rules: seq<Rule>, chance: Spec.Chance, now: Time)
      returns (r: Outcome<()>, records: seq<Execution>)
      modifies this`grants, this`executions, credits
      ensures Spec.ApplyRules(old(Now()), catalog, no, order, rules, chance, now)
           == Spec.Attempt(if r.Success? then Success(Now()) else Failure(r.error), records)
    {
      ghost var start := Now();
      records := [];
      for i := 0 to |rules|
        invariant Spec.ApplyRules(start, catalog, no, order, rules, chance, now)
               == var rest := Spec.ApplyRules(Now(), catalog, no, order, rules[i..], chance, now);
                  Spec.Attempt(rest.outcome, records + rest.records)
      {
        assert rules[i..][0] == rules[i] && rules[i..][1..] == rules[i + 1..];
        ghost var rest := Spec.ApplyRules(Now(), catalog, no, order, rules[i..], chance, now);
        var outcome, record := ApplyRule(no, order, rules[i], chance, now);
        if outcome.Failure? {
          return outcome, records + record;
        }
        ghost var tail := Spec.ApplyRules(Now(), catalog, no, order, rules[i + 1..], chance, now);
        assert records + (record + tail.records) == (records + record) + tail.records;
        records := records + record;
      }
      assert records + [] == records;
      r := Success(());
    }

    method FulfillInside(no: OrderNo, chance: Spec.Chance, now: Time) returns (r: Outcome<()>, records: seq<Execution>)
      modifies this, credits
      ensures Spec.FulfillInside(old(Now()), catalog, no, chance, now)
           == Spec.Attempt(if r.Success? then Success(Now()) else Failure(r.error), records)
    {
      var refusal := Spec.Refusal(Now(), catalog, no);
      if refusal.Some? {
        return Failure(refusal.value), [];
      }
      var order := orders[no];
      if order.status == Fulfilled {
        return if chance.commitFails then Failure(StoreFailure) else Success(()), [];
      }
      r, records := ApplyRules(no, order, Spec.RulesFor(catalog, order.sku), chance, now);
      if r.Failure? {
        return;
      }
      if chance.commitFails {
        return Failure(StoreFailure), records;
      }
      if order.fulfilledAt.None? {
        order := order.(fulfilledAt := Some(now));
      }
      orders := orders[no := order.(status := Fulfilled)];
    }

    method PersistFailed(records: seq<Execution>)
      modifies this`executions
      ensures executions == Spec.PersistFailed(old(executions), records)
    {
      for i := 0 to |records|
        invariant executions == Spec.PersistFailed(old(executions), records[..i])
      {
        assert records[..i + 1][..i] == records[..i];
        if records[i].status == Applied {
          continue;
        }
        var _ := Save(records[i]);
      }
      assert records[..|records|] == records;
    }

    method FulfillOrder(no: OrderNo, chance: Spec.Chance, now: Time) returns (r: Outcome<()>)
      modifies this, credits
      ensures Spec.FulfillOrder(old(Now()), catalog, no, chance, now) == (Now(), r)
      ensures old(Delivered(Now(), catalog)) ==> Delivered(Now(), catalog) && Preserves(old(Now()), Now())
    {
      var saved := Now();
      var records;
      r, records := FulfillInside(no, chance, now);
      if r.Failure? {
        orders, grants, executions := saved.orders, saved.grants, saved.executions;
        credits.Rollback(saved.wallet);
        assert Now() == saved;
        if !chance.recordLost {
          PersistFailed(records);
          assert Now() == saved.(executions := Spec.PersistFailed(saved.executions, records));
        }
      }
      assert r.Success? ==> r.value == ();
      if Delivered(saved, catalog) {
        FulfillKeeps(saved, catalog, no, chance, now);
      }
    }
  }
}
