/** The run in which a refunded order is delivered after all: the first delivery fails,
    the order is refunded, and the payment is reported again. */
module RefundedRun {
  import opened Wrappers
  import opened DeliveryKeys
  import opened Commerce
  import opened FulfillmentSpec
  import opened Delivery
  import opened Payments
  import opened PaymentInbox
  import opened CommerceWallet
  import opened CommerceRuns
  import opened PromptDelivery
  import opened DeliveryOutcome
  import opened OrderEvents
  import opened LatePayments
  import W = WalletSpec

  // ---------------------------------------------------------------- what is given is active

  ghost predicate AllActive(grants: seq<Grant>) {
    forall i :: 0 <= i < |grants| ==> grants[i].status == Active
  }

  lemma RuleGivesActive(s: Store, cat: Catalog, no: OrderNo, order: Order, rule: Rule, chance: Chance, now: Time)
    requires AllActive(s.grants)
    ensures var r := ApplyRule(s, cat, no, order, rule, chance, now).outcome; r.Success? ==> AllActive(r.value.grants)
  {
  }

  lemma {:induction false} RulesGiveActive(s: Store, cat: Catalog, no: OrderNo, order: Order, rules: seq<Rule>, chance: Chance, now: Time)
    requires AllActive(s.grants)
    ensures var r := ApplyRules(s, cat, no, order, rules, chance, now).outcome; r.Success? ==> AllActive(r.value.grants)
    decreases |rules|
  {
    if rules != [] {
      var first := ApplyRule(s, cat, no, order, rules[0], chance, now).outcome;
      RuleGivesActive(s, cat, no, order, rules[0], chance, now);
      if first.Success? {
        RulesGiveActive(first.value, cat, no, order, rules[1..], chance, now);
      }
    }
  }

  lemma DeliveryGivesActive(s: Store, cat: Catalog, no: OrderNo, chance: Chance, now: Time)
    requires AllActive(s.grants)
    ensures AllActive(FulfillOrder(s, cat, no, chance, now).0.grants)
  {
    if no in s.orders {
      RulesGiveActive(s, cat, no, s.orders[no], RulesFor(cat, s.orders[no].sku), chance, now);
    }
  }

  // ---------------------------------------------------------------- one event at a time

  // Nothing delivered yet and nothing in the wallet.
  ghost predicate Bare(s: Store, users: set<UserId>, no: OrderNo, order: Order) {
    && no in s.orders && SameDealing(s.orders[no], order)
    && s.grants == [] && s.wallet == W.Empty(users) && forall q :: !IsApplied(s, no, q)
  }

  predicate SameDealing(a: Order, b: Order) {
    a.user == b.user && a.sku == b.sku && a.kind == b.kind && a.amount == b.amount && a.currency == b.currency
  }

  lemma BareAlike(s: Store, t: Store, cat: Catalog, users: set<UserId>, no: OrderNo, order: Order, chance: Chance)
    requires Bare(s, users, no, order) && Bare(t, users, no, order)
    ensures GoesThrough(s, cat, no, chance) <==> GoesThrough(t, cat, no, chance)
  {
    var rules := RulesFor(cat, order.sku);
    assert AppliedRules(s, no, rules) == {} == AppliedRules(t, no, rules);
  }

  lemma FailsBare(s: Store, cat: Catalog, users: set<UserId>, no: OrderNo, order: Order, chance: Chance, now: Time)
    requires Delivered(s, cat) && Bare(s, users, no, order) && s.orders[no].status == Paid && !GoesThrough(s, cat, no, chance)
    ensures var r := FulfillOrder(s, cat, no, chance, now);
            r.1.Failure? && Bare(r.0, users, no, order) && r.0.orders == s.orders
  {
    PaidOutcome(s, cat, no, chance, now);
    FulfillKeeps(s, cat, no, chance, now);
  }

  lemma PaysAndFails(s: Store, cfg: Config, cat: Catalog, users: set<UserId>, no: OrderNo, order: Order, event: Event, weather: Weather)
    requires Safe(s, cat, users) && Bare(s, users, no, order) && order.kind == Checkout && s.orders[no].status in {Pending, Refunded}
    requires event.kind.PaymentPaid? && event.orderNo == no && no != "" && Matches(order, event)
    requires !GoesThrough(s, cat, no, weather.chance)
    ensures var r := ProcessPayment(s, cfg, cat, event, weather);
            Bare(r.0, users, no, order) && r.0.orders[no].status == Paid && r.1.Broken?
  {
    var paid := PayOrder(s.orders[no], event, weather.now);
    var s1 := SetOrder(s, no, paid);
    SetOrderSafe(s, cat, users, no, paid);
    StatusAside(s, cat, no, paid, weather.chance);
    assert Bare(s1, users, no, order);
    FailsBare(s1, cat, users, no, order, weather.chance, weather.now);
  }

  lemma RefundsUntouched(s: Store, cfg: Config, cat: Catalog, users: set<UserId>, no: OrderNo, order: Order, event: Event, weather: Weather)
    requires Safe(s, cat, users) && Bare(s, users, no, order)
    requires event.kind.PaymentRefunded? && event.orderNo == no && no != ""
    ensures var r := ProcessPayment(s, cfg, cat, event, weather).0;
            Bare(r, users, no, order) && r.orders[no].status == Refunded
  {
    var s1 := SetOrder(s, no, s.orders[no].(status := Refunded));
    assert forall q :: IsApplied(s1, no, q) <==> IsApplied(s, no, q);
    forall key | key in AppliedKeys(s.executions, no)
      ensures false
    {
      assert RecordSound(s, cat, key);
      assert IsApplied(s, no, s.executions[key].rule);
    }
    assert AppliedKeys(s1.executions, no) == {};
    assert AppliedListing(s1.executions, no, weather.query) == [];
    assert Adjust(s1, no, weather).0 == s1;
  }

  lemma PaysAndDelivers(s: Store, cfg: Config, cat: Catalog, users: set<UserId>, no: OrderNo, order: Order, event: Event, weather: Weather)
    requires Safe(s, cat, users) && Bare(s, users, no, order) && order.kind == Checkout && s.orders[no].status == Refunded
    requires event.kind.PaymentPaid? && event.orderNo == no && no != "" && Matches(order, event)
    requires GoesThrough(s, cat, no, weather.chance)
    ensures var r := ProcessPayment(s, cfg, cat, event, weather).0;
            no in r.orders && r.orders[no].status == Fulfilled && DeliveredEach(r, cat, no, 1) && AllActive(r.grants)
  {
    var r := ProcessPayment(s, cfg, cat, event, weather).0;
    assert !Complete(s, cat, no);
    RefundedDelivered(s, cfg, cat, users, event, weather, no);
    DeliveryGivesActive(SetOrder(s, no, PayOrder(s.orders[no], event, weather.now)), cat, no, weather.chance, weather.now);
  }

  // ---------------------------------------------------------------- the run

  // A first report of an event, and a report again of one that broke.
  lemma FirstReport(sys: System, cfg: Config, cat: Catalog, event: Event, env: Env)
    requires event.provider != "" && event.eventId != "" && Processable(event.kind) && env.fault.NoFault?
    requires FindRow(sys.rows, event.provider, event.eventId).None?
    ensures var r, called := Act(sys, cfg, cat, Webhook(event, env)), ProcessPayment(sys.store, cfg, cat, event, env.weather);
            && r.store == called.0 && |r.rows| == |sys.rows| + 1 && r.rows[..|sys.rows|] == sys.rows
            && r.rows[|sys.rows|].event == event && r.rows[|sys.rows|].status == PaymentInbox.StatusAfter(called.1)
  {
  }

  lemma ReportAgain(sys: System, cfg: Config, cat: Catalog, event: Event, env: Env, id: RowId)
    requires event.provider != "" && event.eventId != "" && Processable(event.kind) && env.fault.NoFault?
    requires FindRow(sys.rows, event.provider, event.eventId) == Some(id) && sys.rows[id].event == event && sys.rows[id].status.Broke?
    ensures Act(sys, cfg, cat, Webhook(event, env)).store == ProcessPayment(sys.store, cfg, cat, event, env.weather).0
  {
  }

  // What the run is made of: a checkout, its payment and refund as the provider reports
  // them, and what happens while the three reports are processed.
  datatype Story = Story(no: OrderNo, order: Order, paid: Event, refund: Event, failing: Weather, between: Weather, fine: Weather)

  function Placed(users: set<UserId>, story: Story): Store {
    SetOrder(EmptyStore(users), story.no, story.order)
  }

  predicate Plausible(story: Story, users: set<UserId>, cat: Catalog) {
    && story.no != "" && story.order.kind == Checkout && story.order.status == Pending && story.order.key.None?
    && story.paid.kind.PaymentPaid? && story.paid.orderNo == story.no && Matches(story.order, story.paid)
    && story.refund.kind.PaymentRefunded? && story.refund.orderNo == story.no
    && story.paid.provider != "" && story.paid.eventId != "" && story.refund.provider != "" && story.refund.eventId != ""
    && (story.paid.provider != story.refund.provider || story.paid.eventId != story.refund.eventId)
    && !GoesThrough(Placed(users, story), cat, story.no, story.failing.chance)
    && GoesThrough(Placed(users, story), cat, story.no, story.fine.chance)
  }

  function StepsOf(story: Story): (steps: seq<Step>)
    ensures |steps| == 4
  {
    [PlaceOrder(story.no, story.order), Webhook(story.paid, Env(story.failing, NoFault)),
     Webhook(story.refund, Env(story.between, NoFault)), Webhook(story.paid, Env(story.fine, NoFault))]
  }

  // After the first two steps: the order paid, nothing delivered, the report broken.
  ghost predicate PaidInVain(sys: System, cat: Catalog, users: set<UserId>, story: Story) {
    && Safe(sys.store, cat, users) && Bare(sys.store, users, story.no, story.order) && sys.store.orders[story.no].status == Paid
    && |sys.rows| == 1 && sys.rows[0].event == story.paid && sys.rows[0].status.Broke?
  }

  ghost predicate RefundedBare(sys: System, cat: Catalog, users: set<UserId>, story: Story) {
    && Safe(sys.store, cat, users) && Bare(sys.store, users, story.no, story.order) && sys.store.orders[story.no].status == Refunded
    && |sys.rows| == 2 && sys.rows[0].event == story.paid && sys.rows[0].status.Broke? && sys.rows[1].event == story.refund
  }

  ghost predicate DeliveredAfterAll(sys: System, cat: Catalog, users: set<UserId>, story: Story) {
    && Safe(sys.store, cat, users) && story.no in sys.store.orders && sys.store.orders[story.no].status == Fulfilled
    && sys.store.orders[story.no].sku == story.order.sku && DeliveredEach(sys.store, cat, story.no, 1) && AllActive(sys.store.grants)
  }

  lemma PlacedBare(users: set<UserId>, cfg: Config, cat: Catalog, story: Story)
    requires Plausible(story, users, cat)
    ensures var sys := Act(Start(users), cfg, cat, StepsOf(story)[0]);
            && Allowed(Start(users), StepsOf(story)[0]) && Safe(sys.store, cat, users)
            && sys == System(Placed(users, story), [], []) && Bare(sys.store, users, story.no, story.order)
  {
    EmptyReachable(users);
    assert Delivered(EmptyStore(users), cat);
    ActSafe(Start(users), cfg, cat, users, StepsOf(story)[0]);
  }

  lemma ThenPaid(sys: System, users: set<UserId>, cfg: Config, cat: Catalog, story: Story)
    requires Plausible(story, users, cat) && sys == System(Placed(users, story), [], [])
    requires Safe(sys.store, cat, users) && Bare(sys.store, users, story.no, story.order)
    ensures PaidInVain(Act(sys, cfg, cat, StepsOf(story)[1]), cat, users, story)
  {
    ActSafe(sys, cfg, cat, users, StepsOf(story)[1]);
    PaysAndFails(sys.store, cfg, cat, users, story.no, story.order, story.paid, story.failing);
    FirstReport(sys, cfg, cat, story.paid, Env(story.failing, NoFault));
  }

  lemma ThenRefunded(sys: System, users: set<UserId>, cfg: Config, cat: Catalog, story: Story)
    requires Plausible(story, users, cat) && PaidInVain(sys, cat, users, story)
    ensures RefundedBare(Act(sys, cfg, cat, StepsOf(story)[2]), cat, users, story)
  {
    ActSafe(sys, cfg, cat, users, StepsOf(story)[2]);
    RefundsUntouched(sys.store, cfg, cat, users, story.no, story.order, story.refund, story.between);
    assert FindRow(sys.rows, story.refund.provider, story.refund.eventId).None?;
    FirstReport(sys, cfg, cat, story.refund, Env(story.between, NoFault));
    var next := Act(sys, cfg, cat, StepsOf(story)[2]);
    assert next.rows[0] == next.rows[..1][0];
  }

  lemma ThenDelivered(sys: System, users: set<UserId>, cfg: Config, cat: Catalog, story: Story)
    requires Plausible(story, users, cat) && RefundedBare(sys, cat, users, story) && Bare(Placed(users, story), users, story.no, story.order)
    ensures DeliveredAfterAll(Act(sys, cfg, cat, StepsOf(story)[3]), cat, users, story)
  {
    ActSafe(sys, cfg, cat, users, StepsOf(story)[3]);
    BareAlike(sys.store, Placed(users, story), cat, users, story.no, story.order, story.fine.chance);
    PaysAndDelivers(sys.store, cfg, cat, users, story.no, story.order, story.paid, story.fine);
    assert FindRow(sys.rows, story.paid.provider, story.paid.eventId) == Some(0);
    ReportAgain(sys, cfg, cat, story.paid, Env(story.fine, NoFault), 0);
  }

  // Main result: whatever the catalog, the checkout and the way its first delivery fails -
  // if a later one would go through, then after a refund, however it is decided, the same
  // payment reported again leaves the refunded order delivered, every grant active.
  lemma RefundedThenDelivered(users: set<UserId>, cfg: Config, cat: Catalog, story: Story)
    requires Plausible(story, users, cat)
    ensures var steps := StepsOf(story);
            && AllowedRun(Start(users), cfg, cat, steps)
            && RefundedBare(RunSteps(Start(users), cfg, cat, steps[..3]), cat, users, story)
            && DeliveredAfterAll(RunSteps(Start(users), cfg, cat, steps), cat, users, story)
  {
    var steps := StepsOf(story);
    var a := Act(Start(users), cfg, cat, steps[0]);
    PlacedBare(users, cfg, cat, story);
    ThenPaid(a, users, cfg, cat, story);
    var b := Act(a, cfg, cat, steps[1]);
    ThenRefunded(b, users, cfg, cat, story);
    var c := Act(b, cfg, cat, steps[2]);
    ThenDelivered(c, users, cfg, cat, story);
    RunOfFour(Start(users), a, b, c, cfg, cat, steps);
  }

  lemma RunNext(s: System, next: System, cfg: Config, cat: Catalog, steps: seq<Step>, k: nat)
    requires k < |steps| && next == Act(s, cfg, cat, steps[k])
    ensures RunSteps(s, cfg, cat, steps[k..]) == RunSteps(next, cfg, cat, steps[k + 1..])
    ensures AllowedRun(s, cfg, cat, steps[k..]) <==> Allowed(s, steps[k]) && AllowedRun(next, cfg, cat, steps[k + 1..])
  {
    assert steps[k..][0] == steps[k] && steps[k..][1..] == steps[k + 1..];
  }

  lemma RunOfFour(s: System, a: System, b: System, c: System, cfg: Config, cat: Catalog, steps: seq<Step>)
    requires |steps| == 4 && a == Act(s, cfg, cat, steps[0]) && b == Act(a, cfg, cat, steps[1]) && c == Act(b, cfg, cat, steps[2])
    requires Allowed(s, steps[0]) && steps[1].Webhook? && steps[2].Webhook? && steps[3].Webhook?
    ensures AllowedRun(s, cfg, cat, steps) && RunSteps(s, cfg, cat, steps[..3]) == c
    ensures RunSteps(s, cfg, cat, steps) == Act(c, cfg, cat, steps[3])
  {
    var d, three := Act(c, cfg, cat, steps[3]), steps[..3];
    RunNext(c, d, cfg, cat, steps, 3);
    RunNext(b, c, cfg, cat, steps, 2);
    RunNext(a, b, cfg, cat, steps, 1);
    RunNext(s, a, cfg, cat, steps, 0);
    RunNext(b, c, cfg, cat, three, 2);
    RunNext(a, b, cfg, cat, three, 1);
    RunNext(s, a, cfg, cat, three, 0);
    assert steps[0..] == steps && steps[4..] == [] && three[0..] == three && three[3..] == [];
  }

  // ---------------------------------------------------------------- a story of one rule

  const RULE := Rule("r", "s", GrantEntitlement, "e", 0, Unspecified, Lifetime)
  const CATALOG := Catalog(map["s" := [RULE]], {"e"})
  const CHECKOUT := Order("u", "s", Checkout, 0, "", Pending, "", "", None, None, None)

  function Report(id: string, kind: EventKind): Event {
    Event("p", id, kind, "o", "t", 0, "", None, None, 0)
  }

  function Luck(broken: set<string>): Chance {
    Chance(broken, {}, false, false, _ => 0)
  }

  function At(time: Time, broken: set<string>): Weather {
    Weather(Luck(broken), Decision(true, true, true, false, false), false, _ => [], time)
  }

  const STORY := Story("o", CHECKOUT, Report("1", PaymentPaid), Report("2", PaymentRefunded), At(1, {"r"}), At(2, {}), At(3, {}))

  lemma StoryPlausible(story: Story, cat: Catalog, users: set<UserId>)
    requires story == STORY && cat == CATALOG && users == {"u"}
    ensures Plausible(story, users, cat)
  {
    var s := Placed(users, story);
    OneRule(s, cat, story.no, RULE, story.failing.chance);
    OneRule(s, cat, story.no, RULE, story.fine.chance);
  }

  lemma OneRule(s: Store, cat: Catalog, no: OrderNo, rule: Rule, chance: Chance)
    requires no in s.orders && RulesFor(cat, s.orders[no].sku) == [rule] && !IsApplied(s, no, rule.id) && rule.kind.GrantEntitlement?
    requires s.orders[no].user != "" && s.orders[no].sku != "" && s.orders[no].user in s.wallet.users && !s.orders[no].kind.NewLicense?
    ensures GoesThrough(s, cat, no, chance) <==> Works(cat, rule, chance) && !chance.commitFails
  {
    assert [rule][1..] == [] && AppliedRules(s, no, [rule]) == {};
    assert Carries(cat, [rule], chance, s.wallet.buckets.Keys, {}) <==> Works(cat, rule, chance);
  }

  lemma AppliedGrant(s: Store, cat: Catalog, no: OrderNo, rule: Rule)
    requires Delivered(s, cat) && no in s.orders && RulesFor(cat, s.orders[no].sku) == [rule] && rule.kind.GrantEntitlement?
    requires s.orders[no].status == Fulfilled && AllActive(s.grants)
    ensures exists i :: 0 <= i < |s.grants| && s.grants[i].key == EntitlementKey(no, rule.id) && s.grants[i].status == Active
                        && (s.grants[i].expiresAt.None? <==> Endless(rule.duration))
  {
    assert IsApplied(s, no, RulesFor(cat, s.orders[no].sku)[0].id);
    assert RecordSound(s, cat, ExecutionKey(no, rule.id));
    var e := s.executions[ExecutionKey(no, rule.id)];
    ExecutionKeyUnique(no, rule.id, e.order, e.rule);
    assert BackedBy(s, e, rule);
  }

  // A single entitlement whose executor breaks the first time.
  lemma OneGrantAfterRefund(users: set<UserId>, cfg: Config) returns (story: Story, middle: Store, end: Store)
    requires users == {"u"}
    ensures story == STORY && AllowedRun(Start(users), cfg, CATALOG, StepsOf(story))
    ensures middle == RunSteps(Start(users), cfg, CATALOG, StepsOf(story)[..3]).store
    ensures end == RunSteps(Start(users), cfg, CATALOG, StepsOf(story)).store
    ensures "o" in middle.orders && middle.orders["o"].status == Refunded && middle.grants == []
    ensures "o" in end.orders && end.orders["o"].status == Fulfilled
    ensures exists i :: 0 <= i < |end.grants| && end.grants[i].key == EntitlementKey("o", "r") && end.grants[i].status == Active
                        && end.grants[i].expiresAt.None?
  {
    story := STORY;
    StoryPlausible(story, CATALOG, users);
    RefundedThenDelivered(users, cfg, CATALOG, story);
    middle := RunSteps(Start(users), cfg, CATALOG, StepsOf(story)[..3]).store;
    end := RunSteps(Start(users), cfg, CATALOG, StepsOf(story)).store;
    AppliedGrant(end, CATALOG, "o", RULE);
  }
}
