/** Delivering a paid order, as functions of the store: each rule of the order's
    SKU is executed once, all of them in one unit of work; what a failed attempt
    leaves behind is a record of the failure. */
module FulfillmentSpec {
  import opened Wrappers
  import opened DeliveryKeys
  import opened Commerce
  import Credits
  import W = WalletSpec

  type Outcome<+T> = Result<T, Error>

  // What the environment does to one attempt: rules whose executor breaks down,
  // rules whose record cannot be written, whether the commit goes through, whether
  // the failure can be recorded, and the fresh ids it hands out.
  datatype Chance = Chance(
    broken: set<string>,
    unsaved: set<string>,
    commitFails: bool,
    recordLost: bool,
    ids: string -> Credits.BucketId)

  // The outcome of an attempt and the execution records it returns.
  datatype Attempt = Attempt(outcome: Outcome<Store>, records: seq<Execution>)

  // ---------------------------------------------------------------- periods

  function RuleExpiry(duration: Duration, anchor: Time): Outcome<Option<Time>> {
    match duration
    case Unset => Success(None)
    case Lifetime => Success(None)
    case Span(length) => if length <= 0 then Failure(InvalidRule) else Success(Some(anchor + length))
    case Unreadable => Failure(InvalidRule)
  }

  function PaidAnchor(order: Order, now: Time): Time {
    if order.paidAt.Some? then order.paidAt.value else now
  }

  predicate Listed(g: Grant, user: UserId, entitlement: string, now: Time) {
    g.user == user && g.entitlement == entitlement && g.status == Active && (g.expiresAt.Some? ==> now < g.expiresAt.value)
  }

  // The grant query, newest first.
  function ListGrants(grants: seq<Grant>, user: UserId, entitlement: string, now: Time): (r: seq<Grant>)
    ensures forall g :: g in r <==> g in grants && Listed(g, user, entitlement, now)
  {
    if grants == [] then []
    else
      var last := grants[|grants| - 1];
      (if Listed(last, user, entitlement, now) then [last] else []) + ListGrants(grants[..|grants| - 1], user, entitlement, now)
  }

  // Until when the listed fulfillment grants already run, if that is after `from`.
  function PaidUntil(listing: seq<Grant>, from: Time): Time {
    if listing == [] then from
    else
      var before := PaidUntil(listing[..|listing| - 1], from);
      var g := listing[|listing| - 1];
      if g.source == Fulfillment && g.expiresAt.Some? && g.expiresAt.value > before then g.expiresAt.value else before
  }

  // The latest start of a listed grace grant that began before `from`.
  function GraceSince(listing: seq<Grant>, from: Time): Option<Time> {
    if listing == [] then None
    else
      var before := GraceSince(listing[..|listing| - 1], from);
      var g := listing[|listing| - 1];
      if g.source == SubscriptionGrace && g.startsAt < from && (before.Some? ==> g.startsAt > before.value) then Some(g.startsAt)
      else before
  }

  function Anchor(listing: seq<Grant>, from: Time): Time {
    var paid := PaidUntil(listing, from);
    var grace := GraceSince(listing, from);
    if paid > from then paid else if grace.Some? then grace.value else from
  }

  // ---------------------------------------------------------------- executors

  predicate ValidRule(rule: Rule) {
    && rule.id != "" && rule.sku != ""
    && match rule.kind
       case GrantEntitlement => rule.entitlement != ""
       case GrantCredits => rule.amount > 0 && !rule.bucket.UnknownBucket?
       case UnknownRuleKind => false
  }

  function TargetOf(rule: Rule): Target {
    if rule.kind.GrantEntitlement? then ToEntitlement(rule.entitlement) else ToCredits
  }

  // createGrantWithRepos, called with a key.
  function CreateGrant(grants: seq<Grant>, users: set<UserId>, cat: Catalog, g: Grant): Outcome<(seq<Grant>, GrantId)> {
    if g.user == "" || g.entitlement == "" then Failure(InvalidGrant)
    else
      var existing := FindGrant(grants, g.key);
      if existing.Some? then
        var prior := grants[existing.value];
        if prior.user != g.user || prior.entitlement != g.entitlement then Failure(InvalidGrant) else Success((grants, existing.value))
      else if g.entitlement !in cat.entitlements then Failure(UnknownEntitlement)
      else if g.user !in users then Failure(UserNotFound)
      else Success((grants + [g], |grants|))
  }

  function ExecuteEntitlement(s: Store, cat: Catalog, no: OrderNo, order: Order, rule: Rule, now: Time): Outcome<(Store, nat)> {
    var listing := ListGrants(s.grants, order.user, rule.entitlement, now);
    var expiresAt :- RuleExpiry(rule.duration, Anchor(listing, PaidAnchor(order, now)));
    var grant := Grant(order.user, rule.entitlement, Active, Fulfillment, now, expiresAt, EntitlementKey(no, rule.id));
    var created :- CreateGrant(s.grants, s.wallet.users, cat, grant);
    Success((s.(grants := created.0), created.1))
  }

  function CreditsBucketKind(order: Order, rule: Rule): Credits.BucketType {
    if rule.bucket.Chosen? then rule.bucket.kind
    else if !order.kind.NewLicense? && !rule.duration.Unset? then Credits.SubscriptionPeriod
    else Credits.Topup
  }

  function CreditsPeriodEnd(order: Order, rule: Rule, now: Time): Option<Time> {
    if CreditsBucketKind(order, rule) != Credits.SubscriptionPeriod then None
    else
      var expiry := RuleExpiry(rule.duration, PaidAnchor(order, now));
      if expiry.Success? then expiry.value else None
  }

  function CreditsInput(no: OrderNo, order: Order, rule: Rule, now: Time): W.GrantInput {
    var end := CreditsPeriodEnd(order, rule, now);
    W.GrantInput(order.user, rule.amount, CreditsKey(no, rule.id), Some(CreditsBucketKind(order, rule)), true, end, end)
  }

  function ExecuteCredits(s: Store, no: OrderNo, order: Order, rule: Rule, id: Credits.BucketId, now: Time): Outcome<(Store, nat)> {
    match W.GrantCredits(s.wallet, CreditsInput(no, order, rule, now), id, now)
    case Failure(cause) => Failure(CreditsRefused(cause))
    case Success((wallet, receipt)) =>
      if receipt.transaction.None? then Failure(StoreFailure)
      else Success((s.(wallet := wallet), receipt.transaction.value))
  }

  function Execute(s: Store, cat: Catalog, no: OrderNo, order: Order, rule: Rule, chance: Chance, now: Time): Outcome<(Store, nat)>
    requires ValidRule(rule)
  {
    if rule.id in chance.broken then Failure(StoreFailure)
    else if rule.kind.GrantEntitlement? then ExecuteEntitlement(s, cat, no, order, rule, now)
    else ExecuteCredits(s, no, order, rule, chance.ids(rule.id), now)
  }

  // ---------------------------------------------------------------- orders

  predicate IsApplied(s: Store, no: OrderNo, rule: string) {
    var key := ExecutionKey(no, rule);
    key in s.executions && s.executions[key].status == Applied
  }

  // A new record, or a new version of the one already stored.
  function Recorded(executions: map<string, Execution>, e: Execution): Execution {
    var key := ExecutionKey(e.order, e.rule);
    if key in executions then e.(createdAt := executions[key].createdAt) else e
  }

  function Save(executions: map<string, Execution>, e: Execution): map<string, Execution> {
    executions[ExecutionKey(e.order, e.rule) := Recorded(executions, e)]
  }

  function ApplyRule(s: Store, cat: Catalog, no: OrderNo, order: Order, rule: Rule, chance: Chance, now: Time): (r: Attempt)
    ensures |r.records| <= 1
  {
    if !ValidRule(rule) then Attempt(Failure(InvalidRule), [])
    else if IsApplied(s, no, rule.id) then Attempt(Success(s), [s.executions[ExecutionKey(no, rule.id)]])
    else
      var e := Execution(no, order.user, order.sku, rule.id, TargetOf(rule), NotApplied, None, now);
      match Execute(s, cat, no, order, rule, chance, now)
      case Failure(error) =>
        if rule.id in chance.unsaved then Attempt(Failure(StoreFailure), [])
        else Attempt(Failure(error), [Recorded(s.executions, e)])
      case Success((done, ref)) =>
        if rule.id in chance.unsaved then Attempt(Failure(StoreFailure), [])
        else
          var applied := Recorded(s.executions, e.(status := Applied, ref := Some(ref)));
          Attempt(Success(done.(executions := Save(s.executions, applied))), [applied])
  }

  function ApplyRules(s: Store, cat: Catalog, no: OrderNo, order: Order, rules: seq<Rule>, chance: Chance, now: Time): Attempt
    decreases |rules|
  {
    if rules == [] then Attempt(Success(s), [])
    else
      var first := ApplyRule(s, cat, no, order, rules[0], chance, now);
      if first.outcome.Failure? then first
      else
        var rest := ApplyRules(first.outcome.value, cat, no, order, rules[1..], chance, now);
        Attempt(rest.outcome, first.records + rest.records)
  }

  function RulesFor(cat: Catalog, sku: string): seq<Rule> {
    if sku in cat.rules then cat.rules[sku] else []
  }

  // Why an order is not delivered, before any rule is tried.
  function Refusal(s: Store, cat: Catalog, no: OrderNo): Option<Error> {
    if no !in s.orders then Some(OrderNotFound)
    else
      var order := s.orders[no];
      if order.user == "" || order.sku == "" || order.kind.NewLicense? then Some(InvalidOrder)
      else if order.status == Fulfilled then None
      else if order.status != Paid then Some(OrderNotPaid)
      else if order.user !in s.wallet.users then Some(UserNotFound)
      else if RulesFor(cat, order.sku) == [] then Some(RulesNotFound)
      else None
  }

  function Finish(s: Store, no: OrderNo, order: Order, now: Time): Store {
    var at := if order.fulfilledAt.None? then Some(now) else order.fulfilledAt;
    s.(orders := s.orders[no := order.(status := Fulfilled, fulfilledAt := at)])
  }

  // One attempt, inside its unit of work.
  function FulfillInside(s: Store, cat: Catalog, no: OrderNo, chance: Chance, now: Time): Attempt {
    var refusal := Refusal(s, cat, no);
    if refusal.Some? then Attempt(Failure(refusal.value), [])
    else
      var order := s.orders[no];
      if order.status == Fulfilled then Attempt(if chance.commitFails then Failure(StoreFailure) else Success(s), [])
      else
        var applied := ApplyRules(s, cat, no, order, RulesFor(cat, order.sku), chance, now);
        if applied.outcome.Failure? then applied
        else if chance.commitFails then Attempt(Failure(StoreFailure), applied.records)
        else Attempt(Success(Finish(applied.outcome.value, no, order, now)), applied.records)
  }

  function PersistFailed(executions: map<string, Execution>, records: seq<Execution>): map<string, Execution> {
    if records == [] then executions
    else
      var before := PersistFailed(executions, records[..|records| - 1]);
      var e := records[|records| - 1];
      if e.status == Applied then before else Save(before, e)
  }

  function FulfillOrder(s: Store, cat: Catalog, no: OrderNo, chance: Chance, now: Time): (Store, Outcome<()>) {
    var attempt := FulfillInside(s, cat, no, chance, now);
    match attempt.outcome
    case Success(done) => (done, Success(()))
    case Failure(error) =>
      (if chance.recordLost then s else s.(executions := PersistFailed(s.executions, attempt.records)), Failure(error))
  }
}
