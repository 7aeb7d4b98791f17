/** A refund from the event that reports it to the credits it takes: it goes through
    whatever happened before, and the order in which the order's executions are listed
    makes no difference to what is counted and taken. */
module RefundEvents {
  import opened Wrappers
  import opened Totals
  import opened DeliveryKeys
  import opened Commerce
  import opened Payments
  import opened CommerceWallet
  import opened CommerceRuns
  import opened CommerceResults
  import W = WalletSpec
  import WalletBalance
  import Refund

  // ---------------------------------------------------------------- any order of listing

  ghost function GrantedOf(s: Store, keys: set<string>): map<string, int>
    requires keys <= s.executions.Keys
  {
    map key | key in keys :: Refund.Worth(s.wallet, WalletExecution(s.executions[key])).0
  }

  ghost function LeftOf(s: Store, keys: set<string>): map<string, int>
    requires keys <= s.executions.Keys
  {
    map key | key in keys :: Refund.Worth(s.wallet, WalletExecution(s.executions[key])).1
  }

  lemma SumsStep(w: W.State, listing: seq<Execution>)
    requires listing != []
    ensures var first, rest := Refund.Worth(w, WalletExecution(listing[0])), Refund.Sums(w, CreditHalf(listing[1..]));
            Refund.Sums(w, CreditHalf(listing)) == (first.0 + rest.0, first.1 + rest.1)
  {
    assert CreditHalf(listing)[1..] == CreditHalf(listing[1..]) && CreditHalf(listing)[0] == WalletExecution(listing[0]);
  }

  lemma TotalsStep(s: Store, keys: set<string>, key: string)
    requires keys <= s.executions.Keys && key in keys
    ensures var worth := Refund.Worth(s.wallet, WalletExecution(s.executions[key]));
            && Total(GrantedOf(s, keys)) == worth.0 + Total(GrantedOf(s, keys - {key}))
            && Total(LeftOf(s, keys)) == worth.1 + Total(LeftOf(s, keys - {key}))
  {
    TotalRemove(GrantedOf(s, keys), key);
    TotalRemove(LeftOf(s, keys), key);
    assert GrantedOf(s, keys) - {key} == GrantedOf(s, keys - {key});
    assert LeftOf(s, keys) - {key} == LeftOf(s, keys - {key});
  }

  lemma FirstListed(executions: map<string, Execution>, keys: set<string>, listing: seq<Execution>) returns (key: string)
    requires keys <= executions.Keys && IsListing(executions, keys, listing) && keys != {}
    ensures key in keys && listing != [] && executions[key] == listing[0] && IsListing(executions, keys - {key}, listing[1..])
  {
    key :| key in keys && executions[key] == listing[0] && IsListing(executions, keys - {key}, listing[1..]);
  }

  ghost predicate SumsMatch(s: Store, keys: set<string>, listing: seq<Execution>)
    requires keys <= s.executions.Keys
  {
    Refund.Sums(s.wallet, CreditHalf(listing)) == (Total(GrantedOf(s, keys)), Total(LeftOf(s, keys)))
  }

  lemma NothingSummed(s: Store)
    ensures SumsMatch(s, {}, [])
  {
    assert GrantedOf(s, {}) == map[] && LeftOf(s, {}) == map[] && CreditHalf([]) == [];
  }

  lemma OneMoreSummed(s: Store, keys: set<string>, listing: seq<Execution>, key: string)
    requires keys <= s.executions.Keys && key in keys && listing != [] && s.executions[key] == listing[0]
    requires SumsMatch(s, keys - {key}, listing[1..])
    ensures SumsMatch(s, keys, listing)
  {
    SumsStep(s.wallet, listing);
    TotalsStep(s, keys, key);
  }

  // The sums over a listing are sums over the records it lists.
  lemma {:induction false} SumsAreTotals(s: Store, keys: set<string>, listing: seq<Execution>)
    requires keys <= s.executions.Keys && IsListing(s.executions, keys, listing)
    ensures SumsMatch(s, keys, listing)
    decreases |listing|
  {
    if keys == {} {
      NothingSummed(s);
    } else {
      var key := FirstListed(s.executions, keys, listing);
      SumsAreTotals(s, keys - {key}, listing[1..]);
      OneMoreSummed(s, keys, listing, key);
    }
  }

  lemma ReachableApart(users: set<UserId>, w: W.State)
    requires Reachable(users, w)
    ensures Refund.GrantsApart(w.ledger)
  {
    var ops :| RunReaches(users, ops, w);
    Refund.RunKeepsApart(W.Empty(users), ops);
  }

  lemma ListingWellFormed(s: Store, cat: Catalog, users: set<UserId>, no: OrderNo, listing: seq<Execution>)
    requires Safe(s, cat, users) && no in s.orders && IsListing(s.executions, AppliedKeys(s.executions, no), listing)
    ensures WalletBalance.Balanced(s.wallet)
    ensures Refund.WellFormed(s.wallet, W.Order(no, s.orders[no].user), CreditHalf(listing))
  {
    ReachableSound(users, s.wallet);
    ReachableApart(users, s.wallet);
    ListsExecutions(s, cat, no, listing);
    DeliveredNamesGrants(s, cat, no, listing);
    Refund.NamedGrantsWellFormed(s.wallet, W.Order(no, s.orders[no].user), CreditHalf(listing));
  }

  // In every safe store the usage snapshot of an order is the same however its
  // executions are listed.
  lemma SnapshotIgnoresOrder(s: Store, cat: Catalog, users: set<UserId>, no: OrderNo, a: seq<Execution>, b: seq<Execution>)
    requires Safe(s, cat, users) && no in s.orders && s.orders[no].user in s.wallet.accounts
    requires IsListing(s.executions, AppliedKeys(s.executions, no), a) && IsListing(s.executions, AppliedKeys(s.executions, no), b)
    ensures var order := W.Order(no, s.orders[no].user);
            Refund.Snapshot(s.wallet, order, CreditHalf(a)) == Refund.Snapshot(s.wallet, order, CreditHalf(b))
  {
    var order := W.Order(no, s.orders[no].user);
    ListingWellFormed(s, cat, users, no, a);
    ListingWellFormed(s, cat, users, no, b);
    Refund.SnapshotIsSums(s.wallet, order, CreditHalf(a));
    Refund.SnapshotIsSums(s.wallet, order, CreditHalf(b));
    SumsAreTotals(s, AppliedKeys(s.executions, no), a);
    SumsAreTotals(s, AppliedKeys(s.executions, no), b);
  }

  // ---------------------------------------------------------------- when a refund goes through

  lemma {:induction false} CompensateWithoutCredits(s: Store, order: W.Order, listing: seq<Execution>, d: Decision, now: Time)
    requires !d.clawback
    ensures Compensate(s, order, listing, d, now).Success? && Compensate(s, order, listing, d, now).value.wallet == s.wallet
    decreases |listing|
  {
    if listing != [] {
      var e := listing[0];
      CompensateWithoutCredits(if e.target.ToEntitlement? && d.revoke then s.(grants := Revoke(s.grants, e.ref, now)) else s,
                               order, listing[1..], d, now);
    }
  }

  lemma CompensateGoesThrough(s: Store, cat: Catalog, users: set<UserId>, no: OrderNo, listing: seq<Execution>, d: Decision, now: Time)
    requires Safe(s, cat, users) && no in s.orders && IsListing(s.executions, AppliedKeys(s.executions, no), listing)
    ensures Compensate(s, W.Order(no, s.orders[no].user), listing, d, now).Success?
  {
    var order := W.Order(no, s.orders[no].user);
    if d.clawback {
      ListingWellFormed(s, cat, users, no, listing);
      Refund.RefundGoesThrough(s.wallet, order, CreditHalf(listing), now);
      CompensateWallet(s, order, listing, d, now);
    } else {
      CompensateWithoutCredits(s, order, listing, d, now);
    }
  }

  // What becomes of a refund: nothing for other orders than a buyer's checkout, a
  // failure exactly if the environment fails, else what the policy decided; the
  // compensation itself never fails.
  function AdjustVerdict(order: Order, weather: Weather): Verdict {
    var d := weather.decision;
    if order.kind != Checkout || order.user == "" then Done
    else if weather.adjustFails then Broken
    else if d.compensate then Done
    else if d.manualReview then Decided(ReviewRequired)
    else if d.rejected then Decided(PolicyRejected)
    else Done
  }

  lemma AdjustDecided(s: Store, cat: Catalog, users: set<UserId>, no: OrderNo, weather: Weather)
    requires Safe(s, cat, users) && no in s.orders
    ensures Adjust(s, no, weather).1 == AdjustVerdict(s.orders[no], weather)
  {
    CompensateGoesThrough(s, cat, users, no, AppliedListing(s.executions, no, weather.query), weather.decision, weather.now);
  }

  predicate Refunds(event: Event) {
    event.kind.PaymentRefunded? || event.kind.PaymentDisputed?
  }

  // The event's own listing of what was delivered, as the wallet sees it.
  ghost function Named(s: Store, no: OrderNo, weather: Weather): seq<W.Execution> {
    CreditHalf(AppliedListing(s.executions, no, weather.query))
  }

  lemma RefundMarks(s: Store, cfg: Config, cat: Catalog, users: set<UserId>, event: Event, weather: Weather) returns (s1: Store)
    requires Safe(s, cat, users) && Refunds(event) && event.orderNo != "" && event.orderNo in s.orders
    ensures s1 == SetOrder(s, event.orderNo, s.orders[event.orderNo].(status := Refunded)) && Safe(s1, cat, users)
    ensures ProcessPayment(s, cfg, cat, event, weather) == Adjust(s1, event.orderNo, weather)
  {
    var no: OrderNo := event.orderNo;
    s1 := SetOrder(s, no, s.orders[no].(status := Refunded));
    SetOrderSafe(s, cat, users, no, s.orders[no].(status := Refunded));
  }

  lemma AdjustTakes(s: Store, cat: Catalog, users: set<UserId>, no: OrderNo, weather: Weather)
    requires Safe(s, cat, users) && no in s.orders && s.orders[no].kind == Checkout && s.orders[no].user != ""
    requires weather.decision.compensate && weather.decision.clawback && !weather.adjustFails
    requires var order := W.Order(no, s.orders[no].user);
             order.user in s.wallet.accounts && Refund.NotYetTaken(s.wallet, order, Named(s, no, weather))
    ensures var order, r := W.Order(no, s.orders[no].user), Adjust(s, no, weather);
            var usage := Refund.Snapshot(s.wallet, order, Named(s, no, weather));
            && r.1 == Done && r.0.orders == s.orders
            && order.user in r.0.wallet.accounts
            && r.0.wallet.accounts[order.user].balance == s.wallet.accounts[order.user].balance - usage.available
  {
    var order, listing := W.Order(no, s.orders[no].user), AppliedListing(s.executions, no, weather.query);
    ListingWellFormed(s, cat, users, no, listing);
    Refund.PredictionIsEffect(s.wallet, order, CreditHalf(listing), weather.now);
    CompensateWallet(s, order, listing, weather.decision, weather.now);
    CompensateGoesThrough(s, cat, users, no, listing, weather.decision, weather.now);
    AdjustSafe(s, cat, users, no, weather);
    ListedAreRedeemable(s, cat, no, listing);
    CompensateReaches(users, s, order, listing, weather.decision, weather.now);
  }

  // Main result: a refund or dispute of a checkout whose credits have not been taken
  // back, once the policy compensates with a clawback and nothing breaks: the order
  // is refunded, the buyer's balance falls by just what the snapshot called available,
  // and with a revocation no entitlement of the order is active.
  lemma RefundEventTakes(s: Store, cfg: Config, cat: Catalog, users: set<UserId>, event: Event, weather: Weather)
    requires Safe(s, cat, users) && Refunds(event) && event.orderNo != "" && event.orderNo in s.orders
    requires s.orders[event.orderNo].kind == Checkout && s.orders[event.orderNo].user != ""
    requires weather.decision.compensate && weather.decision.clawback && !weather.adjustFails
    requires var order := W.Order(event.orderNo, s.orders[event.orderNo].user);
             order.user in s.wallet.accounts && Refund.NotYetTaken(s.wallet, order, Named(s, event.orderNo, weather))
    ensures var order, r := W.Order(event.orderNo, s.orders[event.orderNo].user), ProcessPayment(s, cfg, cat, event, weather);
            var usage := Refund.Snapshot(s.wallet, order, Named(s, event.orderNo, weather));
            && r.1 == Done && event.orderNo in r.0.orders && r.0.orders[event.orderNo].status == Refunded
            && order.user in r.0.wallet.accounts
            && r.0.wallet.accounts[order.user].balance == s.wallet.accounts[order.user].balance - usage.available
            && (weather.decision.revoke ==> AccessEnded(r.0, event.orderNo))
  {
    var s1 := RefundMarks(s, cfg, cat, users, event, weather);
    AdjustTakes(s1, cat, users, event.orderNo, weather);
    if weather.decision.revoke {
      RefundEndsAccess(s1, cat, event.orderNo, weather);
    }
  }

  // And every refund event on a known order is decided without running it.
  lemma RefundEventDecided(s: Store, cfg: Config, cat: Catalog, users: set<UserId>, event: Event, weather: Weather)
    requires Safe(s, cat, users) && Refunds(event) && event.orderNo != "" && event.orderNo in s.orders
    ensures ProcessPayment(s, cfg, cat, event, weather).1 == AdjustVerdict(s.orders[event.orderNo], weather)
  {
    var s1 := RefundMarks(s, cfg, cat, users, event, weather);
    AdjustDecided(s1, cat, users, event.orderNo, weather);
  }
}
