/** What a buyer gets from a delivered rule: from when and until when an entitlement is
    active, and into which bucket, for how long, credits go. */
module DeliveredTerms {
  import opened Wrappers
  import opened DeliveryKeys
  import opened Commerce
  import opened FulfillmentSpec
  import opened Delivery
  import opened PaidTime
  import opened PaymentInbox
  import opened Payments
  import opened CommerceWallet
  import opened CommerceRuns
  import Credits
  import W = WalletSpec
  import Receipts

  // ---------------------------------------------------------------- entitlements

  // The time of payment, or of delivery if none is on record.
  predicate IsPayment(from: Time, order: Order, now: Time) {
    if order.paidAt.Some? then Some(from) == order.paidAt else from == now
  }

  // When a new period begins: at the end of paid time that still runs, else with the
  // latest grace period begun before the payment, else with the payment.
  ghost predicate Begins(anchor: Time, grants: seq<Grant>, user: UserId, entitlement: string, from: Time, now: Time) {
    var end := RunsUntil(grants, user, entitlement);
    if end.Some? && end.value > now && end.value > from then anchor == end.value
    else if exists g :: GraceBefore(g, grants, user, entitlement, from, now) then
      && (exists g :: GraceBefore(g, grants, user, entitlement, from, now) && g.startsAt == anchor)
      && (forall g :: GraceBefore(g, grants, user, entitlement, from, now) ==> g.startsAt <= anchor)
    else anchor == from
  }

  ghost predicate ActiveFrom(g: Grant, start: Time) {
    forall at :: GrantActive(g, at) <==> start <= at
  }

  ghost predicate ActiveDuring(g: Grant, start: Time, end: Time) {
    forall at :: GrantActive(g, at) <==> start <= at < end
  }

  ghost predicate RunsForSpan(g: Grant, grants: seq<Grant>, order: Order, rule: Rule, now: Time)
    requires rule.duration.Span?
  {
    exists from, anchor ::
      IsPayment(from, order, now) && Begins(anchor, grants, order.user, rule.entitlement, from, now)
      && ActiveDuring(g, now, anchor + rule.duration.length)
  }

  // The grant of a rule delivered now.
  ghost predicate IsDelivered(g: Grant, grants: seq<Grant>, no: OrderNo, order: Order, rule: Rule, now: Time) {
    && g.user == order.user && g.entitlement == rule.entitlement && g.key == EntitlementKey(no, rule.id) && g.source == Fulfillment
    && (rule.duration.Unset? || rule.duration.Lifetime? ==> ActiveFrom(g, now))
    && (rule.duration.Span? ==> RunsForSpan(g, grants, order, rule, now))
  }

  lemma AnchorBegins(grants: seq<Grant>, user: UserId, entitlement: string, from: Time, now: Time)
    ensures Begins(Anchor(ListGrants(grants, user, entitlement, now), from), grants, user, entitlement, from, now)
  {
    AnchorDecided(grants, user, entitlement, from, now);
  }

  lemma SpanRuns(g: Grant, grants: seq<Grant>, order: Order, rule: Rule, now: Time)
    requires g.status == Active && g.startsAt == now && rule.duration.Span?
    requires g.expiresAt == Some(Anchor(ListGrants(grants, order.user, rule.entitlement, now), PaidAnchor(order, now)) + rule.duration.length)
    ensures RunsForSpan(g, grants, order, rule, now)
  {
    var from := PaidAnchor(order, now);
    var anchor := Anchor(ListGrants(grants, order.user, rule.entitlement, now), from);
    AnchorBegins(grants, order.user, rule.entitlement, from, now);
    assert IsPayment(from, order, now) && ActiveDuring(g, now, anchor + rule.duration.length);
  }

  lemma GrantMade(s: Store, cat: Catalog, no: OrderNo, order: Order, rule: Rule, chance: Chance, now: Time)
    requires FindGrant(s.grants, EntitlementKey(no, rule.id)).None? && !IsApplied(s, no, rule.id) && rule.kind.GrantEntitlement?
    requires ApplyRule(s, cat, no, order, rule, chance, now).outcome.Success?
    ensures var r := ApplyRule(s, cat, no, order, rule, chance, now).outcome.value.grants;
            && |r| == |s.grants| + 1 && r[..|s.grants|] == s.grants && r[|s.grants|].status == Active && r[|s.grants|].startsAt == now
            && r[|s.grants|].user == order.user && r[|s.grants|].entitlement == rule.entitlement && r[|s.grants|].source == Fulfillment
            && r[|s.grants|].key == EntitlementKey(no, rule.id) && !rule.duration.Unreadable?
            && r[|s.grants|].expiresAt ==
                 if !rule.duration.Span? then None
                 else Some(Anchor(ListGrants(s.grants, order.user, rule.entitlement, now), PaidAnchor(order, now)) + rule.duration.length)
  {
  }

  // Main result: an entitlement rule applied for the first time makes one grant, active
  // from then on for good if the rule sets no end, and else until the rule's span after
  // the beginning of the period.
  lemma EntitlementTerms(s: Store, cat: Catalog, no: OrderNo, rule: Rule, chance: Chance, now: Time)
    requires NothingOffRecord(s) && no in s.orders && !IsApplied(s, no, rule.id) && rule.kind.GrantEntitlement?
    requires ApplyRule(s, cat, no, s.orders[no], rule, chance, now).outcome.Success?
    ensures var r := ApplyRule(s, cat, no, s.orders[no], rule, chance, now).outcome.value.grants;
            |r| == |s.grants| + 1 && r[..|s.grants|] == s.grants && IsDelivered(r[|s.grants|], s.grants, no, s.orders[no], rule, now)
  {
    NoGrantYet(s, no, rule.id);
    GrantMade(s, cat, no, s.orders[no], rule, chance, now);
    if rule.duration.Span? {
      SpanRuns(ApplyRule(s, cat, no, s.orders[no], rule, chance, now).outcome.value.grants[|s.grants|], s.grants, s.orders[no], rule, now);
    }
  }

  // ---------------------------------------------------------------- credits

  // Which bucket a rule's credits go to: the one it names, else the subscription's if
  // it has a duration and the order is no plain licence, else one without an end.
  predicate CreditsKind(kind: Credits.BucketType, order: Order, rule: Rule) {
    match rule.bucket
    case Chosen(asked) => kind == asked
    case _ => kind == if rule.duration.Unset? || order.kind.NewLicense? then Credits.Topup else Credits.SubscriptionPeriod
  }

  // Credits of a subscription last for the rule's span after the payment, all others
  // for good.
  predicate CreditsLast(k: Credits.Bucket, order: Order, rule: Rule, now: Time) {
    if k.kind == Credits.SubscriptionPeriod && rule.duration.Span? && rule.duration.length > 0
    then k.expiresAt.Some? && IsPayment(k.expiresAt.value - rule.duration.length, order, now)
    else k.expiresAt.None?
  }

  lemma InputTerms(k: Credits.Bucket, no: OrderNo, order: Order, rule: Rule, id: Credits.BucketId, now: Time)
    requires ValidRule(rule) && rule.kind.GrantCredits? && Receipts.IsGrantBucket(k, CreditsInput(no, order, rule, now), id, now)
    ensures CreditsKind(k.kind, order, rule) && CreditsLast(k, order, rule, now)
  {
  }

  lemma CreditsBooked(s: Store, cat: Catalog, no: OrderNo, order: Order, rule: Rule, chance: Chance, now: Time)
    requires !IsApplied(s, no, rule.id) && rule.kind.GrantCredits? && ApplyRule(s, cat, no, order, rule, chance, now).outcome.Success?
    ensures var made := W.GrantCredits(s.wallet, CreditsInput(no, order, rule, now), chance.ids(rule.id), now);
            && ValidRule(rule) && made.Success?
            && ApplyRule(s, cat, no, order, rule, chance, now).outcome.value.wallet == made.value.0
  {
  }

  // Main result: a credit rule applied for the first time books its amount once, into
  // one new bucket of that kind and that length.
  lemma CreditsTerms(s: Store, cat: Catalog, no: OrderNo, rule: Rule, chance: Chance, now: Time)
    requires NothingOffRecord(s) && no in s.orders && !IsApplied(s, no, rule.id) && rule.kind.GrantCredits?
    requires ApplyRule(s, cat, no, s.orders[no], rule, chance, now).outcome.Success?
    ensures var w, order, id := ApplyRule(s, cat, no, s.orders[no], rule, chance, now).outcome.value.wallet, s.orders[no], chance.ids(rule.id);
            && id !in s.wallet.buckets && id in w.buckets && w.buckets == s.wallet.buckets[id := w.buckets[id]]
            && w.buckets[id].owner == order.user && w.buckets[id].remaining == rule.amount && w.buckets[id].status == Credits.Active
            && CreditsKind(w.buckets[id].kind, order, rule) && CreditsLast(w.buckets[id], order, rule, now)
            && order.user in w.accounts
            && w.accounts[order.user].balance
               == rule.amount + if order.user in s.wallet.accounts then s.wallet.accounts[order.user].balance else 0
  {
    var order, id := s.orders[no], chance.ids(rule.id);
    var input := CreditsInput(no, order, rule, now);
    NoEntryYet(s, no, rule.id);
    CreditsBooked(s, cat, no, order, rule, chance, now);
    Receipts.GrantNames(s.wallet, input, id, now);
    InputTerms(W.GrantCredits(s.wallet, input, id, now).value.0.buckets[id], no, order, rule, id, now);
  }

  // ---------------------------------------------------------------- over runs

  // An entitlement delivered by a rule: as long as it is not ended by a revocation, it
  // has an end exactly if the rule sets one.
  ghost predicate KeepsTerms(s: Store, no: OrderNo, rule: Rule, i: nat) {
    && i < |s.grants| && s.grants[i].key == EntitlementKey(no, rule.id) && s.grants[i].entitlement == rule.entitlement
    && (s.grants[i].status == Active ==> (s.grants[i].expiresAt.None? <==> rule.duration.Unset? || rule.duration.Lifetime?))
  }

  // Main result, over every run: every grant under an order's key is there by a rule of
  // the order's SKU and keeps its terms.
  lemma EveryRunKeepsTerms(users: set<UserId>, cfg: Config, cat: Catalog, steps: seq<Step>, no: OrderNo, id: string, i: nat)
    requires AllowedRun(Start(users), cfg, cat, steps)
    requires var s := RunSteps(Start(users), cfg, cat, steps).store; i < |s.grants| && s.grants[i].key == EntitlementKey(no, id)
    ensures var s := RunSteps(Start(users), cfg, cat, steps).store;
            && no in s.orders && s.grants[i].user == s.orders[no].user
            && exists k :: 0 <= k < |RulesFor(cat, s.orders[no].sku)| && KeepsTerms(s, no, RulesFor(cat, s.orders[no].sku)[k], i)
  {
    EveryRunSafe(users, cfg, cat, steps);
    var s := RunSteps(Start(users), cfg, cat, steps).store;
    assert Names(s, no, id, i, true);
    var key := ExecutionKey(no, id);
    assert RecordSound(s, cat, key);
    var e := s.executions[key];
    ExecutionKeyUnique(no, id, e.order, e.rule);
    var k :| 0 <= k < |RulesFor(cat, e.sku)| && BackedBy(s, e, RulesFor(cat, e.sku)[k]);
    assert KeepsTerms(s, no, RulesFor(cat, s.orders[no].sku)[k], i);
  }

  // A grant that is active once is active at every time from its start to its end, and
  // stays so, unchanged, until it is ended.
  lemma UnchangedWhileActive(sys: System, cfg: Config, cat: Catalog, users: set<UserId>, steps: seq<Step>, i: nat)
    requires Safe(sys.store, cat, users) && AllowedRun(sys, cfg, cat, steps) && i < |sys.store.grants|
    ensures var r := RunSteps(sys, cfg, cat, steps).store;
            i < |r.grants| && (r.grants[i].status == Active ==> r.grants[i] == sys.store.grants[i])
  {
    RunSafe(sys, cfg, cat, users, steps);
    assert SameDeal(sys.store.grants[i], RunSteps(sys, cfg, cat, steps).store.grants[i]);
  }
}
