/** Idempotency keys of delivered orders. A key joins the order number and the
    rule id with colons, so it tells orders apart as long as order numbers
    contain none; rule ids may contain anything. */
module DeliveryKeys {

  // CHK-<nanoseconds>-<sku>, RNL-<hex digits>: no colon.
  type OrderNo = no: string | ':' !in no

  const PREFIX := "fulfillment:"

  function ExecutionKey(order: OrderNo, rule: string): string {
    PREFIX + order + ":" + rule
  }

  function EntitlementKey(order: OrderNo, rule: string): string {
    ExecutionKey(order, rule) + ":entitlement"
  }

  function CreditsKey(order: OrderNo, rule: string): string {
    ExecutionKey(order, rule) + ":credits"
  }

  function GraceKey(order: OrderNo, entitlement: string): string {
    "subscription_grace:" + order + ":" + entitlement
  }

  predicate Foreign(key: string) {
    !(PREFIX <= key)
  }

  lemma SplitAtColon(a: OrderNo, x: string, b: OrderNo, y: string)
    requires a + ":" + x == b + ":" + y
    ensures a == b && x == y
  {
    var joined, same := a + ":" + x, b + ":" + y;
    assert forall j :: 0 <= j < |a| ==> joined[j] == a[j] && a[j] in a;
    assert forall j :: 0 <= j < |b| ==> same[j] == b[j] && b[j] in b;
    assert joined[|a|] == ':' && same[|b|] == ':';
    assert a == joined[..|a|] && b == same[..|b|];
    assert x == joined[|a| + 1..] && y == same[|b| + 1..];
  }

  lemma ExecutionKeyUnique(a: OrderNo, r: string, b: OrderNo, q: string)
    requires ExecutionKey(a, r) == ExecutionKey(b, q)
    ensures a == b && r == q
  {
    assert ExecutionKey(a, r)[|PREFIX|..] == a + ":" + r;
    assert ExecutionKey(b, q)[|PREFIX|..] == b + ":" + q;
    SplitAtColon(a, r, b, q);
  }

  lemma EntitlementKeyUnique(a: OrderNo, r: string, b: OrderNo, q: string)
    requires EntitlementKey(a, r) == EntitlementKey(b, q)
    ensures a == b && r == q
  {
    var k := EntitlementKey(a, r);
    assert ExecutionKey(a, r) == k[..|k| - |":entitlement"|] == ExecutionKey(b, q);
    ExecutionKeyUnique(a, r, b, q);
  }

  lemma CreditsKeyUnique(a: OrderNo, r: string, b: OrderNo, q: string)
    requires CreditsKey(a, r) == CreditsKey(b, q)
    ensures a == b && r == q
  {
    var k := CreditsKey(a, r);
    assert ExecutionKey(a, r) == k[..|k| - |":credits"|] == ExecutionKey(b, q);
    ExecutionKeyUnique(a, r, b, q);
  }

  lemma TargetKeysAreOurs(order: OrderNo, rule: string)
    ensures !Foreign(EntitlementKey(order, rule)) && !Foreign(CreditsKey(order, rule))
  {
    assert EntitlementKey(order, rule)[..|PREFIX|] == PREFIX;
    assert CreditsKey(order, rule)[..|PREFIX|] == PREFIX;
  }

  lemma GraceKeysAreForeign(order: OrderNo, entitlement: string)
    ensures Foreign(GraceKey(order, entitlement))
  {
    assert GraceKey(order, entitlement)[0] == 's' && PREFIX[0] == 'f';
  }
}
