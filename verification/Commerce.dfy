/** Records of orders, delivery rules, entitlement grants and fulfillment
    executions, and the store that holds them beside the wallet. */
module Commerce {
  import opened Wrappers
  import opened DeliveryKeys
  import Credits
  import W = WalletSpec

  type UserId = Credits.UserId
  type Time = Credits.Time

  datatype Error =
    | OrderNotFound
    | InvalidOrder
    | OrderNotPaid
    | RulesNotFound
    | UserNotFound
    | InvalidRule
    | InvalidGrant
    | UnknownEntitlement
    | CreditsRefused(cause: Credits.Error)
    | StoreFailure

  datatype OrderKind = NewLicense | Renewal | Checkout

  datatype OrderStatus = Pending | CheckoutCreated | Paid | Fulfilled | Cancelled | Refunded | Failed

  // A billing period's start or end, or the month an event without one came in.
  datatype Cycle = At(instant: Time) | InMonth(month: int)

  datatype OrderKey = ClientKey(key: string) | RenewalKey(source: OrderNo, cycle: Cycle)

  datatype Order = Order(
    user: UserId,
    sku: string,
    kind: OrderKind,
    amount: int,
    currency: string,
    status: OrderStatus,
    provider: string,
    tradeNo: string,
    key: Option<OrderKey>,
    paidAt: Option<Time>,
    fulfilledAt: Option<Time>)

  datatype RuleKind = GrantEntitlement | GrantCredits | UnknownRuleKind

  datatype BucketChoice = Unspecified | Chosen(kind: Credits.BucketType) | UnknownBucket

  datatype Duration = Unset | Lifetime | Span(length: int) | Unreadable

  datatype Rule = Rule(
    id: string,
    sku: string,
    kind: RuleKind,
    entitlement: string,
    amount: int,
    bucket: BucketChoice,
    duration: Duration)

  datatype Catalog = Catalog(rules: map<string, seq<Rule>>, entitlements: set<string>)

  datatype GrantStatus = Active | Expired | Revoked

  datatype GrantSource = Fulfillment | SubscriptionGrace | Manual

  datatype Grant = Grant(
    user: UserId,
    entitlement: string,
    status: GrantStatus,
    source: GrantSource,
    startsAt: Time,
    expiresAt: Option<Time>,
    key: string)

  type GrantId = nat

  datatype Target = ToEntitlement(entitlement: string) | ToCredits

  datatype ExecutionStatus = Applied | NotApplied

  datatype Execution = Execution(
    order: OrderNo,
    user: UserId,
    sku: string,
    rule: string,
    target: Target,
    status: ExecutionStatus,
    ref: Option<nat>,
    createdAt: Time)

  datatype Store = Store(
    orders: map<OrderNo, Order>,
    grants: seq<Grant>,
    executions: map<string, Execution>,
    wallet: W.State)

  function EmptyStore(users: set<UserId>): Store {
    Store(map[], [], map[], W.Empty(users))
  }

  function FindGrant(grants: seq<Grant>, key: string): (r: Option<GrantId>)
    ensures r.Some? ==> r.value < |grants| && grants[r.value].key == key
    ensures r.None? ==> forall i :: 0 <= i < |grants| ==> grants[i].key != key
  {
    if grants == [] then None
    else if grants[|grants| - 1].key == key then Some(|grants| - 1)
    else FindGrant(grants[..|grants| - 1], key)
  }

  predicate GrantActive(g: Grant, now: Time) {
    g.status == Active && g.startsAt <= now && (g.expiresAt.Some? ==> now < g.expiresAt.value)
  }
}
