/** What a verified payment event does to orders, deliveries, grants and credits:
    the order's status, compensation of refunds, and subscription renewals. */
module Payments {
  import opened Wrappers
  import opened DeliveryKeys
  import opened Commerce
  import opened FulfillmentSpec
  import W = WalletSpec

  datatype EventKind =
    | PaymentPaid | PaymentCancelled | PaymentRefunded | PaymentDisputed
    | RenewalPaid | RenewalFailed | SubscriptionExpired
    | OtherKind(name: string)

  datatype Event = Event(
    provider: string,
    eventId: string,
    kind: EventKind,
    orderNo: string,
    tradeNo: string,
    amount: int,
    currency: string,
    periodStart: Option<Time>,
    periodEnd: Option<Time>,
    receivedAt: Time)

  datatype ReviewStatus = ReviewRequired | PolicyRejected

  // How a processor call ends: done, broken, or decided by policy.
  datatype Verdict = Done | Broken | Decided(review: ReviewStatus)

  datatype Decision = Decision(compensate: bool, revoke: bool, clawback: bool, manualReview: bool, rejected: bool)

  datatype Config = Config(
    digest: OrderKey -> OrderNo,
    monthOf: Time -> int,
    graceDays: int,
    sweepsGrace: bool,
    grace: map<string, seq<string>>,
    graceFallback: seq<string>)

  // Applied executions by order, as the execution query returns them.
  type ExecutionQuery = OrderNo -> seq<Execution>

  // What the environment brings to one processor call.
  datatype Weather = Weather(chance: Chance, decision: Decision, adjustFails: bool, query: ExecutionQuery, now: Time)

  // Times are whole seconds.
  const DAY := 86400
  const BILLING_TOLERANCE := 120
  const DEFAULT_GRACE_DAYS := 3

  function Settled(r: Outcome<()>): Verdict {
    if r.Success? then Done else Broken
  }

  // ---------------------------------------------------------------- order status

  function LowerChar(c: char): char {
    if 'A' <= c <= 'Z' then c - 'A' + 'a' else c
  }

  function Lower(s: string): string {
    if s == "" then "" else [LowerChar(s[0])] + Lower(s[1..])
  }

  predicate CurrencyMatches(order: string, event: string) {
    event == "" || order == "" || Lower(order) == Lower(event)
  }

  predicate IsPaidKind(kind: EventKind) {
    kind.PaymentPaid? || kind.RenewalPaid?
  }

  predicate Settlement(status: OrderStatus) {
    status == Paid || status == Fulfilled
  }

  function PayOrder(order: Order, event: Event, at: Time): Order {
    order.(status := Paid, provider := event.provider, tradeNo := event.tradeNo,
           paidAt := if order.paidAt.None? then Some(at) else order.paidAt)
  }

  function OrderAfter(order: Order, event: Event, now: Time): Outcome<Order> {
    if IsPaidKind(event.kind) && event.amount > 0 && order.amount > 0 && event.amount != order.amount then Failure(InvalidOrder)
    else if IsPaidKind(event.kind) && !CurrencyMatches(order.currency, event.currency) then Failure(InvalidOrder)
    else
      match event.kind
      case PaymentPaid => Success(if Settlement(order.status) then order else PayOrder(order, event, now))
      case RenewalPaid => Success(if Settlement(order.status) then order else PayOrder(order, event, now))
      case PaymentCancelled => Success(if Settlement(order.status) then order else order.(status := Cancelled))
      case PaymentRefunded => Success(order.(status := Refunded))
      case PaymentDisputed => Success(order.(status := Refunded))
      case RenewalFailed => Success(if Settlement(order.status) then order else order.(status := Failed))
      case SubscriptionExpired => Success(if order.status in {Pending, CheckoutCreated} then order.(status := Failed) else order)
      case OtherKind(_) => Failure(InvalidOrder)
  }

  function SetOrder(s: Store, no: OrderNo, order: Order): Store {
    s.(orders := s.orders[no := order])
  }

  // ---------------------------------------------------------------- compensation

  function AppliedKeys(executions: map<string, Execution>, no: OrderNo): set<string> {
    set key | key in executions && executions[key].order == no && executions[key].status == Applied
  }

  // The records under these keys, each once, in any order.
  ghost predicate IsListing(executions: map<string, Execution>, keys: set<string>, listing: seq<Execution>)
    requires keys <= executions.Keys
    decreases |listing|
  {
    if keys == {} then listing == []
    else listing != [] && exists key :: key in keys && executions[key] == listing[0] && IsListing(executions, keys - {key}, listing[1..])
  }

  ghost function SomeListing(executions: map<string, Execution>, keys: set<string>): (r: seq<Execution>)
    requires keys <= executions.Keys
    ensures IsListing(executions, keys, r)
  {
    if keys == {} then []
    else
      var key :| key in keys;
      var rest := SomeListing(executions, keys - {key});
      assert ([executions[key]] + rest)[1..] == rest;
      [executions[key]] + rest
  }

  // The applied executions of an order, in whatever order the query returns them.
  ghost function AppliedListing(executions: map<string, Execution>, no: OrderNo, query: ExecutionQuery): (r: seq<Execution>)
    ensures IsListing(executions, AppliedKeys(executions, no), r)
  {
    if IsListing(executions, AppliedKeys(executions, no), query(no)) then query(no) else SomeListing(executions, AppliedKeys(executions, no))
  }

  function RevokeGrant(g: Grant, now: Time): Grant {
    if g.status == Revoked then g
    else g.(status := Revoked, expiresAt := if g.expiresAt.None? || g.expiresAt.value > now then Some(now) else g.expiresAt)
  }

  function Revoke(grants: seq<Grant>, ref: Option<nat>, now: Time): seq<Grant> {
    if ref.None? || ref.value >= |grants| then grants else grants[ref.value := RevokeGrant(grants[ref.value], now)]
  }

  function WalletExecution(e: Execution): W.Execution {
    W.Execution(e.target.ToCredits?, e.rule, e.ref)
  }

  function Compensate(s: Store, order: W.Order, listing: seq<Execution>, d: Decision, now: Time): Outcome<Store>
    decreases |listing|
  {
    if listing == [] then Success(s)
    else
      var e := listing[0];
      if e.target.ToEntitlement? then
        Compensate(if d.revoke then s.(grants := Revoke(s.grants, e.ref, now)) else s, order, listing[1..], d, now)
      else if !d.clawback then Compensate(s, order, listing[1..], d, now)
      else
        match W.ClawbackOne(s.wallet, order, WalletExecution(e), now)
        case Failure(cause) => Failure(CreditsRefused(cause))
        case Success((wallet, _)) => Compensate(s.(wallet := wallet), order, listing[1..], d, now)
  }

  ghost function Adjust(s: Store, no: OrderNo, weather: Weather): (Store, Verdict)
    requires no in s.orders
  {
    var d := weather.decision;
    if s.orders[no].kind != Checkout || s.orders[no].user == "" then (s, Done)
    else if weather.adjustFails then (s, Broken)
    else if !d.compensate then (s, if d.manualReview then Decided(ReviewRequired) else if d.rejected then Decided(PolicyRejected) else Done)
    else
      match Compensate(s, W.Order(no, s.orders[no].user), AppliedListing(s.executions, no, weather.query), d, weather.now)
      case Failure(_) => (s, Broken)
      case Success(r) => (r, Done)
  }

  // ---------------------------------------------------------------- renewals

  predicate IsRenewalKind(kind: EventKind) {
    kind.RenewalPaid? || kind.RenewalFailed? || kind.SubscriptionExpired?
  }

  // The billing period an event speaks of: a failed or expired one by its end,
  // which is the start by which the payment for the next period goes.
  function CycleOf(cfg: Config, event: Event): Cycle {
    if !event.kind.RenewalPaid? && event.periodEnd.Some? then At(event.periodEnd.value)
    else if event.periodStart.Some? then At(event.periodStart.value)
    else if event.periodEnd.Some? then At(event.periodEnd.value)
    else InMonth(cfg.monthOf(event.receivedAt))
  }

  function PaidAt(event: Event): Time {
    if event.periodStart.Some? then event.periodStart.value else event.receivedAt
  }

  function GraceStart(event: Event): Time {
    if event.periodEnd.Some? then event.periodEnd.value else PaidAt(event)
  }

  predicate SameBillingInstant(a: Time, b: Time) {
    -BILLING_TOLERANCE <= a - b <= BILLING_TOLERANCE
  }

  // A renewal event that in truth reports the checkout's own first payment.
  predicate CheckoutBacked(order: Order, event: Event) {
    && event.kind.RenewalPaid? && order.kind == Checkout
    && (order.paidAt.None? || (event.periodStart.Some? && SameBillingInstant(order.paidAt.value, event.periodStart.value)))
  }

  function StatusFor(kind: EventKind): OrderStatus {
    if kind.RenewalPaid? then Paid else if IsRenewalKind(kind) then Failed else Pending
  }

  function Either(a: string, b: string): string {
    if a != "" then a else b
  }

  function Derived(source: Order, key: OrderKey, event: Event): Order {
    var amount := if event.amount > 0 then event.amount else if source.amount > 0 then source.amount else 0;
    Order(source.user, source.sku, Renewal, amount, Either(event.currency, source.currency), StatusFor(event.kind),
          Either(event.provider, source.provider), event.tradeNo, Some(key),
          if event.kind.RenewalPaid? then Some(PaidAt(event)) else None, None)
  }

  ghost predicate HasKey(orders: map<OrderNo, Order>, key: OrderKey) {
    exists no :: no in orders && orders[no].key == Some(key)
  }

  ghost function FindOrder(orders: map<OrderNo, Order>, key: OrderKey): (no: OrderNo)
    requires HasKey(orders, key)
    ensures no in orders && orders[no].key == Some(key)
  {
    var no :| no in orders && orders[no].key == Some(key);
    no
  }

  // The renewal order an event is about: the one already derived for its cycle, or
  // a new one.
  ghost function Resolve(s: Store, cfg: Config, no: OrderNo, event: Event): Outcome<(Store, OrderNo)>
    requires no in s.orders
  {
    var source := s.orders[no];
    if source.kind != Checkout || source.user == "" || source.sku == "" then Success((s, no))
    else
      var key := RenewalKey(no, CycleOf(cfg, event));
      if HasKey(s.orders, key) then Success((s, FindOrder(s.orders, key)))
      else if cfg.digest(key) in s.orders then Failure(StoreFailure)
      else Success((SetOrder(s, cfg.digest(key), Derived(source, key, event)), cfg.digest(key)))
  }

  function RenewalOrderAfter(order: Order, event: Event): Order {
    match event.kind
    case RenewalPaid =>
      if order.status == Fulfilled then order
      else PayOrder(order, event, PaidAt(event)).(provider := Either(event.provider, order.provider))
    case RenewalFailed => if Settlement(order.status) then order else order.(status := Failed)
    case SubscriptionExpired => if order.status in {Pending, CheckoutCreated} then order.(status := Failed) else order
    case _ => order
  }

  function MarkInitialPaid(order: Order, event: Event): Order {
    if order.status == Fulfilled then order
    else PayOrder(order, event, PaidAt(event)).(provider := Either(event.provider, order.provider))
  }

  function GraceFor(cfg: Config, sku: string): Option<seq<string>> {
    var listed := if sku in cfg.grace then cfg.grace[sku] else cfg.graceFallback;
    if listed == [] then None else Some(listed)
  }

  function GraceDays(cfg: Config): int {
    if cfg.graceDays <= 0 then DEFAULT_GRACE_DAYS else cfg.graceDays
  }

  function GrantGrace(s: Store, cfg: Config, cat: Catalog, no: OrderNo, user: UserId, entitlements: seq<string>, startsAt: Time): Outcome<Store>
    decreases |entitlements|
  {
    if entitlements == [] then Success(s)
    else
      var grant := Grant(user, entitlements[0], Active, SubscriptionGrace, startsAt, Some(startsAt + GraceDays(cfg) * DAY),
                         GraceKey(no, entitlements[0]));
      var created :- CreateGrant(s.grants, s.wallet.users, cat, grant);
      GrantGrace(s.(grants := created.0), cfg, cat, no, user, entitlements[1..], startsAt)
  }

  predicate GraceOver(g: Grant, user: UserId, entitlement: string, at: Time) {
    && g.user == user && g.entitlement == entitlement && g.status == Active && g.source == SubscriptionGrace
    && g.startsAt <= at && g.expiresAt.Some? && g.expiresAt.value <= at
  }

  function ExpireGrace(grants: seq<Grant>, user: UserId, entitlements: seq<string>, at: Time): seq<Grant>
    decreases |entitlements|
  {
    if entitlements == [] then grants
    else
      var swept := seq(|grants|, i requires 0 <= i < |grants| =>
        if GraceOver(grants[i], user, entitlements[0], at) then grants[i].(status := Expired, expiresAt := Some(at)) else grants[i]);
      ExpireGrace(swept, user, entitlements[1..], at)
  }

  // A checkout's first payment, reported as a renewal.
  function ApplyInitial(s: Store, cat: Catalog, no: OrderNo, event: Event, weather: Weather): (Store, Verdict)
    requires no in s.orders
  {
    var marked := SetOrder(s, no, MarkInitialPaid(s.orders[no], event));
    var r := FulfillOrder(marked, cat, no, weather.chance, weather.now);
    var atomic := s.orders[no].paidAt.Some? && event.periodStart.Some?;
    // Inside an outer unit of work the mark is rolled back; the failure record is not.
    if r.1.Failure? && atomic then (s.(executions := r.0.executions), Broken) else (r.0, Settled(r.1))
  }

  ghost function ApplyRenewal(s: Store, cfg: Config, cat: Catalog, event: Event, weather: Weather): (Store, Verdict) {
    if event.orderNo == "" || event.orderNo !in s.orders then (s, Broken)
    else if CheckoutBacked(s.orders[event.orderNo], event) then ApplyInitial(s, cat, event.orderNo, event, weather)
    else
      match Resolve(s, cfg, event.orderNo, event)
      case Failure(_) => (s, Broken)
      case Success((s1, no)) => ApplyToRenewal(s, s1, cfg, cat, no, event, weather)
  }

  // s is the store to go back to if the unit of work fails.
  function ApplyToRenewal(s: Store, s1: Store, cfg: Config, cat: Catalog, no: OrderNo, event: Event, weather: Weather): (Store, Verdict)
    requires no in s1.orders
  {
    var order := s1.orders[no];
    if order.kind != Renewal || order.user == "" || order.sku == "" then (s1, Done)
    else
      var s2 := SetOrder(s1, no, RenewalOrderAfter(order, event));
      match event.kind
      case RenewalPaid =>
        var r := FulfillOrder(s2, cat, no, weather.chance, weather.now);
        (r.0, Settled(r.1))
      case RenewalFailed =>
        var grace := GraceFor(cfg, order.sku);
        if grace.None? then (s, Broken)
        else
          (match GrantGrace(s2, cfg, cat, no, order.user, grace.value, GraceStart(event))
           case Failure(_) => (s, Broken)
           case Success(r) => (r, Done))
      case _ =>
        var grace := GraceFor(cfg, order.sku);
        if !cfg.sweepsGrace || grace.None? then (s2, Done)
        else (s2.(grants := ExpireGrace(s2.grants, order.user, grace.value, event.receivedAt)), Done)
  }

  // Wallet operations asked for outside the payment flow, under keys of their own.
  predicate ForeignOperation(op: W.Operation) {
    match op
    case DoGrant(input, _, _) => Foreign(input.key)
    case DoFinalize(_, _, key, _) => Foreign(key)
    case DoFulfill(_, _, _) => false
    case DoClawback(_, _, _) => false
    case _ => true
  }

  // ---------------------------------------------------------------- one processor call

  ghost function ProcessPayment(s: Store, cfg: Config, cat: Catalog, event: Event, weather: Weather): (Store, Verdict) {
    if IsRenewalKind(event.kind) then ApplyRenewal(s, cfg, cat, event, weather)
    else if event.orderNo == "" || event.orderNo !in s.orders then (s, Broken)
    else
      match OrderAfter(s.orders[event.orderNo], event, weather.now)
      case Failure(_) => (s, Broken)
      case Success(order) =>
        var s1 := SetOrder(s, event.orderNo, order);
        if !event.kind.PaymentPaid? then Adjust(s1, event.orderNo, weather)
        else if order.kind != Checkout then (s1, Done)
        else
          var r := FulfillOrder(s1, cat, event.orderNo, weather.chance, weather.now);
          (r.0, Settled(r.1))
  }
}
