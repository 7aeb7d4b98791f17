/** What a refund does to access: every entitlement delivered for the order ends now, if
    it would run on, and no other grant is touched. */
module RefundTerms {
  import opened Wrappers
  import opened DeliveryKeys
  import opened Commerce
  import opened FulfillmentSpec
  import opened Delivery
  import opened Payments
  import opened CommerceWallet
  import opened CommerceResults
  import W = WalletSpec

  // Revoked, and over at the latest now; a grant revoked before stays as it is.
  predicate EndsNow(g: Grant, h: Grant, now: Time) {
    if g.status == Revoked then h == g
    else h == g.(status := Revoked, expiresAt := h.expiresAt) && h.expiresAt.Some?
         && h.expiresAt.value == if g.expiresAt.Some? && g.expiresAt.value <= now then g.expiresAt.value else now
  }

  // The listed entitlements, as positions of their grants.
  ghost predicate Listed(listing: seq<Execution>, i: nat) {
    exists k :: 0 <= k < |listing| && listing[k].target.ToEntitlement? && listing[k].ref == Some(i)
  }

  ghost predicate ListedEnd(before: seq<Grant>, after: seq<Grant>, listing: seq<Execution>, revoke: bool, now: Time) {
    |before| == |after| && forall i :: 0 <= i < |before| ==> OneEnds(before, after, listing, revoke, now, i)
  }

  ghost predicate OneEnds(before: seq<Grant>, after: seq<Grant>, listing: seq<Execution>, revoke: bool, now: Time, i: nat)
    requires i < |before| == |after|
  {
    if revoke && Listed(listing, i) then EndsNow(before[i], after[i], now) else after[i] == before[i]
  }

  lemma ListedStep(listing: seq<Execution>, i: nat)
    requires listing != []
    ensures Listed(listing, i) <==> (listing[0].target.ToEntitlement? && listing[0].ref == Some(i)) || Listed(listing[1..], i)
  {
    if Listed(listing[1..], i) {
      var k :| 0 <= k < |listing[1..]| && listing[1..][k].target.ToEntitlement? && listing[1..][k].ref == Some(i);
      assert listing[k + 1] == listing[1..][k];
    }
    if Listed(listing, i) && !(listing[0].target.ToEntitlement? && listing[0].ref == Some(i)) {
      var k :| 0 <= k < |listing| && listing[k].target.ToEntitlement? && listing[k].ref == Some(i);
      assert listing[1..][k - 1] == listing[k];
    }
  }

  lemma {:induction false} CompensateEndsListed(s: Store, order: W.Order, listing: seq<Execution>, d: Decision, now: Time)
    requires Compensate(s, order, listing, d, now).Success?
    ensures ListedEnd(s.grants, Compensate(s, order, listing, d, now).value.grants, listing, d.revoke, now)
    decreases |listing|
  {
    if listing != [] {
      var e, rest := listing[0], listing[1..];
      var m := if e.target.ToEntitlement? then (if d.revoke then s.(grants := Revoke(s.grants, e.ref, now)) else s)
               else if !d.clawback then s
               else s.(wallet := W.ClawbackOne(s.wallet, order, WalletExecution(e), now).value.0);
      CompensateEndsListed(m, order, rest, d, now);
      var r := Compensate(m, order, rest, d, now).value;
      forall i: nat | i < |s.grants|
        ensures OneEnds(s.grants, r.grants, listing, d.revoke, now, i)
      {
        ListedStep(listing, i);
        assert OneEnds(m.grants, r.grants, rest, d.revoke, now, i);
      }
    }
  }

  // A grant delivered for the order.
  ghost predicate DeliveredFor(g: Grant, no: OrderNo) {
    exists rule :: g.key == EntitlementKey(no, rule)
  }

  lemma ListedAreDelivered(s: Store, cat: Catalog, no: OrderNo, listing: seq<Execution>, i: nat)
    requires Delivered(s, cat) && no in s.orders && IsListing(s.executions, AppliedKeys(s.executions, no), listing) && i < |s.grants|
    ensures Listed(listing, i) <==> DeliveredFor(s.grants[i], no)
  {
    ListsExecutions(s, cat, no, listing);
    if Listed(listing, i) {
      var k :| 0 <= k < |listing| && listing[k].target.ToEntitlement? && listing[k].ref == Some(i);
      AppliedNamesGrant(s, cat, no, listing[k]);
    }
    if DeliveredFor(s.grants[i], no) {
      var rule :| s.grants[i].key == EntitlementKey(no, rule);
      assert Names(s, no, rule, i, true);
      var key := ExecutionKey(no, rule);
      assert RecordSound(s, cat, key);
      ExecutionKeyUnique(no, rule, s.executions[key].order, s.executions[key].rule);
      var k := ListsEvery(s.executions, AppliedKeys(s.executions, no), listing, key);
    }
  }

  // Main result: a compensation that revokes ends every entitlement delivered for the
  // order as of now, and one that does not none; other grants stay as they are.
  lemma RefundRevokes(s: Store, cat: Catalog, no: OrderNo, weather: Weather)
    requires Delivered(s, cat) && no in s.orders && s.orders[no].kind == Checkout && s.orders[no].user != ""
    requires weather.decision.compensate && !weather.adjustFails && Adjust(s, no, weather).1.Done?
    ensures var r := Adjust(s, no, weather).0.grants;
            && |r| == |s.grants|
            && forall i :: 0 <= i < |r| ==>
                 if weather.decision.revoke && DeliveredFor(s.grants[i], no) then EndsNow(s.grants[i], r[i], weather.now)
                 else r[i] == s.grants[i]
  {
    var order, listing := W.Order(no, s.orders[no].user), AppliedListing(s.executions, no, weather.query);
    var r := Adjust(s, no, weather).0.grants;
    CompensateEndsListed(s, order, listing, weather.decision, weather.now);
    forall i: nat | i < |r|
      ensures if weather.decision.revoke && DeliveredFor(s.grants[i], no) then EndsNow(s.grants[i], r[i], weather.now)
              else r[i] == s.grants[i]
    {
      assert OneEnds(s.grants, r, listing, weather.decision.revoke, weather.now, i);
      ListedAreDelivered(s, cat, no, listing, i);
    }
  }
}
