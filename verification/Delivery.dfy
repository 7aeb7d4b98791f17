/** What delivering orders keeps true: every applied execution points at the one
    grant or ledger entry it made, nothing is delivered off the record, and an
    order is delivered whole or not at all. */
module Delivery {
  import opened Wrappers
  import opened DeliveryKeys
  import opened Commerce
  import opened FulfillmentSpec
  import Credits
  import W = WalletSpec
  import WalletKeys

  // ---------------------------------------------------------------- invariant

  // A rule that sets no end.
  predicate Endless(duration: Duration) {
    duration.Unset? || duration.Lifetime?
  }

  ghost predicate BackedBy(s: Store, e: Execution, rule: Rule) {
    && rule.id == e.rule && e.target == TargetOf(rule) && e.ref.Some?
    && if rule.kind.GrantEntitlement? then
         && e.ref.value < |s.grants|
         && var g := s.grants[e.ref.value];
            g.key == EntitlementKey(e.order, e.rule) && g.user == e.user && g.entitlement == rule.entitlement && g.source == Fulfillment
            && (g.status == Active ==> (g.expiresAt.None? <==> Endless(rule.duration)))
       else
         && e.ref.value < |s.wallet.ledger|
         && var t := s.wallet.ledger[e.ref.value];
            && t.key == Credits.CallerKey(CreditsKey(e.order, e.rule)) && t.user == e.user
            && t.kind == Credits.GrantEntry && t.amount == rule.amount > 0 && t.bucket.Some?
  }

  ghost predicate Backed(s: Store, cat: Catalog, e: Execution) {
    exists i :: 0 <= i < |RulesFor(cat, e.sku)| && BackedBy(s, e, RulesFor(cat, e.sku)[i])
  }

  ghost predicate RecordSound(s: Store, cat: Catalog, key: string)
    requires key in s.executions
  {
    var e := s.executions[key];
    && key == ExecutionKey(e.order, e.rule)
    && e.order in s.orders && e.user == s.orders[e.order].user && e.sku == s.orders[e.order].sku
    && (e.status == Applied ==> Backed(s, cat, e))
  }

  ghost predicate RecordsSound(s: Store, cat: Catalog) {
    forall key :: key in s.executions ==> RecordSound(s, cat, key)
  }

  ghost predicate Names(s: Store, no: OrderNo, rule: string, ref: nat, entitlement: bool) {
    && IsApplied(s, no, rule)
    && var e := s.executions[ExecutionKey(no, rule)];
       e.ref == Some(ref) && e.target.ToEntitlement? == entitlement
  }

  ghost predicate GrantsAccounted(s: Store) {
    forall no: OrderNo, rule, i :: 0 <= i < |s.grants| && s.grants[i].key == EntitlementKey(no, rule) ==> Names(s, no, rule, i, true)
  }

  ghost predicate CreditsAccounted(s: Store) {
    forall no: OrderNo, rule, i :: 0 <= i < |s.wallet.ledger| && s.wallet.ledger[i].key == Credits.CallerKey(CreditsKey(no, rule)) ==>
      Names(s, no, rule, i, false)
  }

  ghost predicate GrantKeysUnique(grants: seq<Grant>) {
    forall i, j :: 0 <= i < j < |grants| ==> grants[i].key != grants[j].key
  }

  ghost predicate NothingOffRecord(s: Store) {
    && GrantsAccounted(s) && CreditsAccounted(s)
    && GrantKeysUnique(s.grants) && WalletKeys.KeysUnique(s.wallet.ledger)
  }

  ghost predicate Accounted(s: Store, cat: Catalog) {
    RecordsSound(s, cat) && NothingOffRecord(s)
  }

  // Every rule of the order's SKU has been applied.
  ghost predicate Complete(s: Store, cat: Catalog, no: OrderNo)
    requires no in s.orders
  {
    var rules := RulesFor(cat, s.orders[no].sku);
    rules != [] && forall i :: 0 <= i < |rules| ==> ValidRule(rules[i]) && IsApplied(s, no, rules[i].id)
  }

  ghost predicate AllOrNothing(s: Store, cat: Catalog) {
    && (forall no: OrderNo, rule :: no in s.orders && IsApplied(s, no, rule) ==> Complete(s, cat, no))
    && (forall no :: no in s.orders && s.orders[no].status == Fulfilled ==> Complete(s, cat, no))
  }

  ghost predicate Delivered(s: Store, cat: Catalog) {
    Accounted(s, cat) && AllOrNothing(s, cat)
  }

  // ---------------------------------------------------------------- one rule

  // The record of one rule turns to applied; all others stay.
  ghost predicate Marks(s: Store, r: Store, e: Execution) {
    && e.status == Applied && !IsApplied(s, e.order, e.rule)
    && r.executions == s.executions[ExecutionKey(e.order, e.rule) := e]
    && r.orders == s.orders && e.order in s.orders && e.user == s.orders[e.order].user && e.sku == s.orders[e.order].sku
  }

  ghost predicate MadeGrant(s: Store, r: Store, e: Execution, rule: Rule) {
    && Marks(s, r, e) && BackedBy(r, e, rule) && rule.kind.GrantEntitlement?
    && e.ref == Some(|s.grants|) && |r.grants| == |s.grants| + 1 && s.grants == r.grants[..|s.grants|]
    && r.wallet == s.wallet
    && FindGrant(s.grants, EntitlementKey(e.order, e.rule)).None?
  }

  ghost predicate MadeEntry(s: Store, r: Store, e: Execution, rule: Rule) {
    && Marks(s, r, e) && BackedBy(r, e, rule) && rule.kind.GrantCredits?
    && e.ref == Some(|s.wallet.ledger|) && |r.wallet.ledger| == |s.wallet.ledger| + 1
    && s.wallet.ledger == r.wallet.ledger[..|s.wallet.ledger|]
    && r.grants == s.grants
    && W.FindKey(s.wallet.ledger, Credits.CallerKey(CreditsKey(e.order, e.rule))).None?
  }

  ghost predicate Made(s: Store, r: Store, e: Execution, rule: Rule) {
    MadeGrant(s, r, e, rule) || MadeEntry(s, r, e, rule)
  }

  lemma MarksOnly(s: Store, r: Store, e: Execution, no: OrderNo, rule: string)
    requires Marks(s, r, e)
    ensures IsApplied(r, no, rule) <==> IsApplied(s, no, rule) || (no == e.order && rule == e.rule)
    ensures IsApplied(s, no, rule) ==> r.executions[ExecutionKey(no, rule)] == s.executions[ExecutionKey(no, rule)]
  {
    if ExecutionKey(no, rule) == ExecutionKey(e.order, e.rule) {
      ExecutionKeyUnique(no, rule, e.order, e.rule);
    }
  }

  lemma MadeKeepsRecords(s: Store, r: Store, cat: Catalog, e: Execution, rule: Rule, i: nat)
    requires RecordsSound(s, cat) && Made(s, r, e, rule)
    requires i < |RulesFor(cat, e.sku)| && RulesFor(cat, e.sku)[i] == rule
    ensures RecordsSound(r, cat)
  {
    forall key | key in r.executions
      ensures RecordSound(r, cat, key)
    {
      if key == ExecutionKey(e.order, e.rule) {
        assert Backed(r, cat, e);
      } else {
        assert RecordSound(s, cat, key);
        var before := s.executions[key];
        if before.status == Applied {
          var j :| 0 <= j < |RulesFor(cat, before.sku)| && BackedBy(s, before, RulesFor(cat, before.sku)[j]);
          assert BackedBy(r, before, RulesFor(cat, before.sku)[j]);
        }
      }
    }
  }

  lemma MadeGrantAccounted(s: Store, r: Store, e: Execution, rule: Rule)
    requires NothingOffRecord(s) && MadeGrant(s, r, e, rule)
    ensures NothingOffRecord(r)
  {
    forall no: OrderNo, q, i | 0 <= i < |r.grants| && r.grants[i].key == EntitlementKey(no, q)
      ensures Names(r, no, q, i, true)
    {
      MarksOnly(s, r, e, no, q);
      if i < |s.grants| {
        assert s.grants[i] == r.grants[i];
        assert Names(s, no, q, i, true);
      } else {
        EntitlementKeyUnique(no, q, e.order, e.rule);
      }
    }
    forall no: OrderNo, q, i | 0 <= i < |r.wallet.ledger| && r.wallet.ledger[i].key == Credits.CallerKey(CreditsKey(no, q))
      ensures Names(r, no, q, i, false)
    {
      MarksOnly(s, r, e, no, q);
      assert Names(s, no, q, i, false);
    }
    forall i, j | 0 <= i < j < |r.grants|
      ensures r.grants[i].key != r.grants[j].key
    {
      assert r.grants[i] == s.grants[i];
      assert j < |s.grants| ==> r.grants[j] == s.grants[j];
    }
  }

  lemma MadeEntryAccounted(s: Store, r: Store, e: Execution, rule: Rule)
    requires NothingOffRecord(s) && MadeEntry(s, r, e, rule)
    ensures NothingOffRecord(r)
  {
    var before, after := s.wallet.ledger, r.wallet.ledger;
    forall no: OrderNo, q, i | 0 <= i < |after| && after[i].key == Credits.CallerKey(CreditsKey(no, q))
      ensures Names(r, no, q, i, false)
    {
      MarksOnly(s, r, e, no, q);
      if i < |before| {
        assert before[i] == after[i];
        assert Names(s, no, q, i, false);
      } else {
        CreditsKeyUnique(no, q, e.order, e.rule);
      }
    }
    forall no: OrderNo, q, i | 0 <= i < |r.grants| && r.grants[i].key == EntitlementKey(no, q)
      ensures Names(r, no, q, i, true)
    {
      MarksOnly(s, r, e, no, q);
      assert Names(s, no, q, i, true);
    }
    forall i, j | 0 <= i < j < |after|
      ensures after[i].key != after[j].key
    {
      assert after[i] == before[i];
      assert j < |before| ==> after[j] == before[j];
    }
  }

  lemma MadeStaysOnRecord(s: Store, r: Store, e: Execution, rule: Rule)
    requires NothingOffRecord(s) && Made(s, r, e, rule)
    ensures NothingOffRecord(r)
  {
    if MadeGrant(s, r, e, rule) {
      MadeGrantAccounted(s, r, e, rule);
    } else {
      MadeEntryAccounted(s, r, e, rule);
    }
  }

  lemma MadeKeepsAccounts(s: Store, r: Store, cat: Catalog, e: Execution, rule: Rule, i: nat)
    requires Accounted(s, cat) && Made(s, r, e, rule)
    requires i < |RulesFor(cat, e.sku)| && RulesFor(cat, e.sku)[i] == rule
    ensures Accounted(r, cat)
  {
    MadeKeepsRecords(s, r, cat, e, rule, i);
    MadeStaysOnRecord(s, r, e, rule);
  }

  lemma NoGrantYet(s: Store, no: OrderNo, rule: string)
    requires GrantsAccounted(s) && !IsApplied(s, no, rule)
    ensures FindGrant(s.grants, EntitlementKey(no, rule)).None?
  {
    var found := FindGrant(s.grants, EntitlementKey(no, rule));
    assert found.Some? ==> Names(s, no, rule, found.value, true);
  }

  lemma NoEntryYet(s: Store, no: OrderNo, rule: string)
    requires CreditsAccounted(s) && !IsApplied(s, no, rule)
    ensures W.FindKey(s.wallet.ledger, Credits.CallerKey(CreditsKey(no, rule))).None?
  {
    var found := W.FindKey(s.wallet.ledger, Credits.CallerKey(CreditsKey(no, rule)));
    assert found.Some? ==> Names(s, no, rule, found.value, false);
  }

  lemma EntitlementMakes(s: Store, cat: Catalog, no: OrderNo, order: Order, rule: Rule, chance: Chance, now: Time, e: Execution)
    requires no in s.orders && s.orders[no] == order && rule.kind.GrantEntitlement? && !IsApplied(s, no, rule.id)
    requires FindGrant(s.grants, EntitlementKey(no, rule.id)).None?
    requires var attempt := ApplyRule(s, cat, no, order, rule, chance, now); attempt.outcome.Success? && attempt.records == [e]
    ensures MadeGrant(s, ApplyRule(s, cat, no, order, rule, chance, now).outcome.value, e, rule)
    ensures e.order == no && e.rule == rule.id && e.sku == order.sku
  {
  }

  lemma CreditsMake(s: Store, cat: Catalog, no: OrderNo, order: Order, rule: Rule, chance: Chance, now: Time, e: Execution)
    requires no in s.orders && s.orders[no] == order && rule.kind.GrantCredits? && !IsApplied(s, no, rule.id)
    requires W.FindKey(s.wallet.ledger, Credits.CallerKey(CreditsKey(no, rule.id))).None?
    requires var attempt := ApplyRule(s, cat, no, order, rule, chance, now); attempt.outcome.Success? && attempt.records == [e]
    ensures MadeEntry(s, ApplyRule(s, cat, no, order, rule, chance, now).outcome.value, e, rule)
    ensures e.order == no && e.rule == rule.id && e.sku == order.sku
  {
  }

  // A rule that goes through and was not applied before makes its grant or entry
  // anew; an earlier one under the same key cannot exist.
  lemma RuleMakes(s: Store, cat: Catalog, no: OrderNo, order: Order, rule: Rule, chance: Chance, now: Time) returns (e: Execution)
    requires GrantsAccounted(s) && CreditsAccounted(s) && no in s.orders && s.orders[no] == order
    requires !IsApplied(s, no, rule.id) && ApplyRule(s, cat, no, order, rule, chance, now).outcome.Success?
    ensures ValidRule(rule) && e.order == no && e.rule == rule.id && e.sku == order.sku
    ensures Made(s, ApplyRule(s, cat, no, order, rule, chance, now).outcome.value, e, rule)
  {
    e := ApplyRule(s, cat, no, order, rule, chance, now).records[0];
    if rule.kind.GrantEntitlement? {
      NoGrantYet(s, no, rule.id);
      EntitlementMakes(s, cat, no, order, rule, chance, now, e);
    } else {
      NoEntryYet(s, no, rule.id);
      CreditsMake(s, cat, no, order, rule, chance, now, e);
    }
  }

  // ---------------------------------------------------------------- one attempt

  // Whatever was delivered stays delivered, as it was.
  ghost predicate Preserves(s: Store, r: Store) {
    && s.grants <= r.grants && s.wallet.ledger <= r.wallet.ledger
    && forall no: OrderNo, rule :: IsApplied(s, no, rule) ==>
         IsApplied(r, no, rule) && r.executions[ExecutionKey(no, rule)] == s.executions[ExecutionKey(no, rule)]
  }

  // Only this order's rules turned to applied.
  ghost predicate OnlyFor(s: Store, r: Store, no: OrderNo) {
    forall other: OrderNo, rule :: other != no && IsApplied(r, other, rule) ==> IsApplied(s, other, rule)
  }

  lemma PreservesThrough(s: Store, m: Store, r: Store, no: OrderNo)
    requires Preserves(s, m) && Preserves(m, r) && OnlyFor(s, m, no) && OnlyFor(m, r, no)
    ensures Preserves(s, r) && OnlyFor(s, r, no)
  {
    forall o: OrderNo, q | IsApplied(s, o, q)
      ensures IsApplied(r, o, q) && r.executions[ExecutionKey(o, q)] == s.executions[ExecutionKey(o, q)]
    {
      assert IsApplied(m, o, q);
    }
    forall o: OrderNo, q | o != no && IsApplied(r, o, q)
      ensures IsApplied(s, o, q)
    {
      assert IsApplied(m, o, q);
    }
  }

  lemma MadePreserves(s: Store, r: Store, e: Execution, rule: Rule)
    requires Made(s, r, e, rule)
    ensures Preserves(s, r) && OnlyFor(s, r, e.order)
  {
    forall o: OrderNo, q
      ensures IsApplied(r, o, q) <==> IsApplied(s, o, q) || (o == e.order && q == e.rule)
      ensures IsApplied(s, o, q) ==> r.executions[ExecutionKey(o, q)] == s.executions[ExecutionKey(o, q)]
    {
      MarksOnly(s, r, e, o, q);
    }
  }

  // One rule that goes through, whether it was applied before or not.
  lemma RuleKeeps(s: Store, cat: Catalog, no: OrderNo, k: nat, chance: Chance, now: Time)
    requires Accounted(s, cat) && no in s.orders && k < |RulesFor(cat, s.orders[no].sku)|
    requires ApplyRule(s, cat, no, s.orders[no], RulesFor(cat, s.orders[no].sku)[k], chance, now).outcome.Success?
    ensures var rule := RulesFor(cat, s.orders[no].sku)[k];
            var r := ApplyRule(s, cat, no, s.orders[no], rule, chance, now).outcome.value;
            && Accounted(r, cat) && r.orders == s.orders && Preserves(s, r) && OnlyFor(s, r, no)
            && ValidRule(rule) && IsApplied(r, no, rule.id)
  {
    var rule := RulesFor(cat, s.orders[no].sku)[k];
    var r := ApplyRule(s, cat, no, s.orders[no], rule, chance, now).outcome.value;
    if IsApplied(s, no, rule.id) {
      assert r == s;
    } else {
      var e := RuleMakes(s, cat, no, s.orders[no], rule, chance, now);
      MadeKeepsAccounts(s, r, cat, e, rule, k);
      MadePreserves(s, r, e, rule);
      MarksOnly(s, r, e, no, rule.id);
    }
  }

  lemma {:induction false} RulesKeep(s: Store, cat: Catalog, no: OrderNo, k: nat, chance: Chance, now: Time)
    requires Accounted(s, cat) && no in s.orders && k <= |RulesFor(cat, s.orders[no].sku)|
    requires ApplyRules(s, cat, no, s.orders[no], RulesFor(cat, s.orders[no].sku)[k..], chance, now).outcome.Success?
    ensures var rules := RulesFor(cat, s.orders[no].sku);
            var r := ApplyRules(s, cat, no, s.orders[no], rules[k..], chance, now).outcome.value;
            && Accounted(r, cat) && r.orders == s.orders && Preserves(s, r) && OnlyFor(s, r, no)
            && forall i :: k <= i < |rules| ==> ValidRule(rules[i]) && IsApplied(r, no, rules[i].id)
    decreases |RulesFor(cat, s.orders[no].sku)| - k
  {
    var rules := RulesFor(cat, s.orders[no].sku);
    if k < |rules| {
      assert rules[k..][0] == rules[k] && rules[k..][1..] == rules[k + 1..];
      RuleKeeps(s, cat, no, k, chance, now);
      var m := ApplyRule(s, cat, no, s.orders[no], rules[k], chance, now).outcome.value;
      RulesKeep(m, cat, no, k + 1, chance, now);
      PreservesThrough(s, m, ApplyRules(m, cat, no, s.orders[no], rules[k + 1..], chance, now).outcome.value, no);
    }
  }

  lemma CompleteStays(s: Store, r: Store, cat: Catalog, no: OrderNo)
    requires no in s.orders && no in r.orders && r.orders[no].sku == s.orders[no].sku && Preserves(s, r) && Complete(s, cat, no)
    ensures Complete(r, cat, no)
  {
  }

  lemma AttemptKeeps(s: Store, cat: Catalog, no: OrderNo, chance: Chance, now: Time)
    requires Delivered(s, cat) && FulfillInside(s, cat, no, chance, now).outcome.Success?
    ensures var r := FulfillInside(s, cat, no, chance, now).outcome.value;
            Delivered(r, cat) && Preserves(s, r) && OnlyFor(s, r, no) && no in r.orders && Complete(r, cat, no)
  {
    var r := FulfillInside(s, cat, no, chance, now).outcome.value;
    var order := s.orders[no];
    if order.status != Fulfilled {
      var rules := RulesFor(cat, order.sku);
      assert rules[0..] == rules;
      RulesKeep(s, cat, no, 0, chance, now);
      var m := ApplyRules(s, cat, no, order, rules, chance, now).outcome.value;
      FinishKeeps(s, m, r, cat, no);
    }
  }

  lemma FinishKeeps(s: Store, m: Store, r: Store, cat: Catalog, no: OrderNo)
    requires AllOrNothing(s, cat) && Accounted(m, cat) && no in s.orders && m.orders == s.orders
    requires Preserves(s, m) && OnlyFor(s, m, no)
    requires r == m.(orders := r.orders) && no in r.orders && r.orders == m.orders[no := r.orders[no]]
    requires r.orders[no].sku == m.orders[no].sku && r.orders[no].user == m.orders[no].user
    requires Complete(m, cat, no)
    ensures Delivered(r, cat) && Preserves(s, r) && OnlyFor(s, r, no) && Complete(r, cat, no)
  {
    forall o: OrderNo, q
      ensures IsApplied(r, o, q) == IsApplied(m, o, q)
    {
    }
    CompleteStays(m, r, cat, no);
    forall key | key in r.executions
      ensures RecordSound(r, cat, key)
    {
      assert RecordSound(m, cat, key);
      var e := m.executions[key];
      if e.status == Applied {
        var i :| 0 <= i < |RulesFor(cat, e.sku)| && BackedBy(m, e, RulesFor(cat, e.sku)[i]);
        assert BackedBy(r, e, RulesFor(cat, e.sku)[i]);
      }
    }
    forall o: OrderNo, q, i | 0 <= i < |r.grants| && r.grants[i].key == EntitlementKey(o, q)
      ensures Names(r, o, q, i, true)
    {
      assert Names(m, o, q, i, true);
    }
    forall o: OrderNo, q, i | 0 <= i < |r.wallet.ledger| && r.wallet.ledger[i].key == Credits.CallerKey(CreditsKey(o, q))
      ensures Names(r, o, q, i, false)
    {
      assert Names(m, o, q, i, false);
    }
    forall o | o in r.orders && (r.orders[o].status == Fulfilled || exists q :: IsApplied(r, o, q))
      ensures Complete(r, cat, o)
    {
      if o != no {
        assert forall q :: IsApplied(r, o, q) ==> IsApplied(s, o, q);
        CompleteStays(s, m, cat, o);
        CompleteStays(m, r, cat, o);
      }
    }
  }

  // ---------------------------------------------------------------- a failed attempt

  // A failure record: of a rule of this order that has not been applied.
  ghost predicate FailureOf(s: Store, no: OrderNo, e: Execution)
    requires no in s.orders
  {
    e.order == no && e.user == s.orders[no].user && e.sku == s.orders[no].sku && !IsApplied(s, no, e.rule)
  }

  ghost predicate OpenFailures(s: Store, no: OrderNo, records: seq<Execution>)
    requires no in s.orders
  {
    forall i :: 0 <= i < |records| && records[i].status == NotApplied ==> FailureOf(s, no, records[i])
  }

  lemma RuleFailureIsOpen(s: Store, cat: Catalog, no: OrderNo, rule: Rule, chance: Chance, now: Time)
    requires no in s.orders
    ensures OpenFailures(s, no, ApplyRule(s, cat, no, s.orders[no], rule, chance, now).records)
  {
  }

  lemma OpenBefore(s: Store, m: Store, no: OrderNo, records: seq<Execution>)
    requires no in s.orders && m.orders == s.orders && Preserves(s, m) && OpenFailures(m, no, records)
    ensures OpenFailures(s, no, records)
  {
  }

  lemma {:induction false} FailuresAreOpen(s: Store, cat: Catalog, no: OrderNo, k: nat, chance: Chance, now: Time)
    requires Accounted(s, cat) && no in s.orders && k <= |RulesFor(cat, s.orders[no].sku)|
    ensures OpenFailures(s, no, ApplyRules(s, cat, no, s.orders[no], RulesFor(cat, s.orders[no].sku)[k..], chance, now).records)
    decreases |RulesFor(cat, s.orders[no].sku)| - k
  {
    var rules := RulesFor(cat, s.orders[no].sku);
    if k < |rules| {
      assert rules[k..][0] == rules[k] && rules[k..][1..] == rules[k + 1..];
      RuleFailureIsOpen(s, cat, no, rules[k], chance, now);
      var first := ApplyRule(s, cat, no, s.orders[no], rules[k], chance, now);
      if first.outcome.Success? {
        RuleKeeps(s, cat, no, k, chance, now);
        FailuresAreOpen(first.outcome.value, cat, no, k + 1, chance, now);
        OpenBefore(s, first.outcome.value, no, ApplyRules(first.outcome.value, cat, no, s.orders[no], rules[k + 1..], chance, now).records);
      }
    }
  }

  // Recording failures touches no applied record and applies nothing.
  ghost predicate SameApplied(before: map<string, Execution>, after: map<string, Execution>) {
    && (forall key :: key in before && before[key].status == Applied ==> key in after && after[key] == before[key])
    && (forall key :: key in after && after[key].status == Applied ==> key in before && before[key] == after[key])
  }

  lemma {:induction false} PersistKeepsApplied(s: Store, no: OrderNo, records: seq<Execution>)
    requires no in s.orders
    requires OpenFailures(s, no, records)
    ensures SameApplied(s.executions, PersistFailed(s.executions, records))
    ensures forall key :: key in PersistFailed(s.executions, records) ==>
              || (key in s.executions && PersistFailed(s.executions, records)[key] == s.executions[key])
              || (var e := PersistFailed(s.executions, records)[key];
                  e.status == NotApplied && FailureOf(s, no, e) && key == ExecutionKey(no, e.rule))
  {
    if records != [] {
      var front, e := records[..|records| - 1], records[|records| - 1];
      PersistKeepsApplied(s, no, front);
      var before := PersistFailed(s.executions, front);
      if e.status == NotApplied {
        assert FailureOf(s, no, e);
        assert !(ExecutionKey(no, e.rule) in before && before[ExecutionKey(no, e.rule)].status == Applied);
      }
    }
  }

  // The same rules are applied, with the same records.
  ghost predicate AppliedSame(s: Store, r: Store) {
    forall no: OrderNo, rule ::
      && (IsApplied(r, no, rule) <==> IsApplied(s, no, rule))
      && (IsApplied(s, no, rule) ==> r.executions[ExecutionKey(no, rule)] == s.executions[ExecutionKey(no, rule)])
  }

  lemma OnRecordSame(s: Store, r: Store)
    requires NothingOffRecord(s) && AppliedSame(s, r) && r.grants == s.grants && r.wallet == s.wallet
    ensures NothingOffRecord(r)
  {
    forall no: OrderNo, rule, i | 0 <= i < |r.grants| && r.grants[i].key == EntitlementKey(no, rule)
      ensures Names(r, no, rule, i, true)
    {
      assert Names(s, no, rule, i, true);
    }
    forall no: OrderNo, rule, i | 0 <= i < |r.wallet.ledger| && r.wallet.ledger[i].key == Credits.CallerKey(CreditsKey(no, rule))
      ensures Names(r, no, rule, i, false)
    {
      assert Names(s, no, rule, i, false);
    }
  }

  lemma AllOrNothingSame(s: Store, r: Store, cat: Catalog)
    requires AllOrNothing(s, cat) && AppliedSame(s, r) && r.orders == s.orders
    ensures AllOrNothing(r, cat)
  {
    forall no | no in r.orders && (r.orders[no].status == Fulfilled || exists q :: IsApplied(r, no, q))
      ensures Complete(r, cat, no)
    {
      assert forall q :: IsApplied(r, no, q) ==> IsApplied(s, no, q);
      assert Complete(s, cat, no);
    }
  }

  lemma BackedSame(s: Store, r: Store, cat: Catalog, e: Execution)
    requires Backed(s, cat, e) && s.grants <= r.grants && s.wallet.ledger <= r.wallet.ledger
    ensures Backed(r, cat, e)
  {
    var i :| 0 <= i < |RulesFor(cat, e.sku)| && BackedBy(s, e, RulesFor(cat, e.sku)[i]);
    assert BackedBy(r, e, RulesFor(cat, e.sku)[i]);
  }

  lemma {:induction false} FailureKeeps(s: Store, cat: Catalog, no: OrderNo, r: Store, records: seq<Execution>)
    requires Delivered(s, cat) && no in s.orders
    requires OpenFailures(s, no, records)
    requires r == s.(executions := PersistFailed(s.executions, records))
    ensures Delivered(r, cat) && Preserves(s, r) && Preserves(r, s)
  {
    PersistKeepsApplied(s, no, records);
    assert AppliedSame(s, r);
    forall key | key in r.executions
      ensures RecordSound(r, cat, key)
    {
      if key in s.executions && r.executions[key] == s.executions[key] {
        assert RecordSound(s, cat, key);
        if s.executions[key].status == Applied {
          BackedSame(s, r, cat, s.executions[key]);
        }
      }
    }
    OnRecordSame(s, r);
    AllOrNothingSame(s, r, cat);
  }

  // Every call to FulfillOrder, whatever goes wrong in it: what was delivered
  // stays, the order is complete afterwards or nothing but failure records moved.
  lemma {:induction false} FulfillKeeps(s: Store, cat: Catalog, no: OrderNo, chance: Chance, now: Time)
    requires Delivered(s, cat)
    ensures var r := FulfillOrder(s, cat, no, chance, now);
            && Delivered(r.0, cat) && Preserves(s, r.0)
            && (r.1.Success? ==> no in r.0.orders && Complete(r.0, cat, no) && r.0.orders[no].status == Fulfilled)
            && (r.1.Failure? ==> r.0 == s.(executions := r.0.executions) && Preserves(r.0, s))
  {
    var attempt := FulfillInside(s, cat, no, chance, now);
    if attempt.outcome.Success? {
      AttemptKeeps(s, cat, no, chance, now);
    } else if !chance.recordLost && attempt.records != [] {
      var rules := RulesFor(cat, s.orders[no].sku);
      assert rules[0..] == rules;
      FailuresAreOpen(s, cat, no, 0, chance, now);
      FailureKeeps(s, cat, no, FulfillOrder(s, cat, no, chance, now).0, attempt.records);
    }
  }

  // An order with anything delivered - fulfilled, or refunded and then paid again -
  // is never delivered again: only its status can move.
  lemma {:induction false} AppliedRulesDoNothing(s: Store, cat: Catalog, no: OrderNo, rules: seq<Rule>, chance: Chance, now: Time)
    requires no in s.orders && forall i :: 0 <= i < |rules| ==> ValidRule(rules[i]) && IsApplied(s, no, rules[i].id)
    ensures var attempt := ApplyRules(s, cat, no, s.orders[no], rules, chance, now);
            attempt.outcome == Success(s) && forall i :: 0 <= i < |attempt.records| ==> attempt.records[i].status == Applied
  {
    if rules != [] {
      AppliedRulesDoNothing(s, cat, no, rules[1..], chance, now);
    }
  }

  lemma {:induction false} AppliedRecordsNotPersisted(executions: map<string, Execution>, records: seq<Execution>)
    requires forall i :: 0 <= i < |records| ==> records[i].status == Applied
    ensures PersistFailed(executions, records) == executions
  {
    if records != [] {
      AppliedRecordsNotPersisted(executions, records[..|records| - 1]);
    }
  }

  lemma DeliveredOnceOnly(s: Store, cat: Catalog, no: OrderNo, rule: string, chance: Chance, now: Time)
    requires Delivered(s, cat) && IsApplied(s, no, rule)
    ensures var r := FulfillOrder(s, cat, no, chance, now).0;
            && r.grants == s.grants && r.wallet == s.wallet && r.executions == s.executions
  {
    assert RecordSound(s, cat, ExecutionKey(no, rule));
    var e := s.executions[ExecutionKey(no, rule)];
    ExecutionKeyUnique(no, rule, e.order, e.rule);
    assert Complete(s, cat, no);
    var rules := RulesFor(cat, s.orders[no].sku);
    AppliedRulesDoNothing(s, cat, no, rules, chance, now);
    AppliedRecordsNotPersisted(s.executions, ApplyRules(s, cat, no, s.orders[no], rules, chance, now).records);
  }
}
