/** Grace periods: when they start and end, and which of them an expired subscription
    ends. */
module GraceTerms {
  import opened Wrappers
  import opened DeliveryKeys
  import opened Commerce
  import opened FulfillmentSpec
  import opened Payments
  import opened CommerceRuns

  // The end of the period that was not renewed; without one its start, and without
  // either the time the event came in.
  predicate GraceBegins(start: Time, event: Event) {
    match (event.periodEnd, event.periodStart)
    case (Some(end), _) => start == end
    case (None, Some(begin)) => start == begin
    case (None, None) => start == event.receivedAt
  }

  // As many whole days as configured, or three.
  predicate GraceEnds(end: Time, start: Time, cfg: Config) {
    end == start + 24 * 60 * 60 * if cfg.graceDays > 0 then cfg.graceDays else 3
  }

  predicate IsGrace(g: Grant, cfg: Config, no: OrderNo, user: UserId, entitlement: string, start: Time) {
    && g.user == user && g.entitlement == entitlement && g.source == SubscriptionGrace && g.status == Active
    && g.startsAt == start && g.expiresAt.Some? && GraceEnds(g.expiresAt.value, start, cfg) && g.key == GraceKey(no, entitlement)
  }

  // The grants added are grace for listed entitlements, and each of these has one under
  // its key.
  ghost predicate Graced(before: seq<Grant>, after: seq<Grant>, cfg: Config, no: OrderNo, user: UserId, entitlements: seq<string>, start: Time) {
    && |before| <= |after| && after[..|before|] == before
    && (forall i :: |before| <= i < |after| ==> after[i].entitlement in entitlements && IsGrace(after[i], cfg, no, user, after[i].entitlement, start))
    && (forall e :: e in entitlements ==> HasGrace(after, no, user, e))
  }

  ghost predicate HasGrace(grants: seq<Grant>, no: OrderNo, user: UserId, entitlement: string) {
    exists i :: 0 <= i < |grants| && grants[i].key == GraceKey(no, entitlement) && grants[i].user == user && grants[i].entitlement == entitlement
  }

  lemma GraceStays(before: seq<Grant>, after: seq<Grant>, no: OrderNo, user: UserId, entitlement: string)
    requires |before| <= |after| && after[..|before|] == before && HasGrace(before, no, user, entitlement)
    ensures HasGrace(after, no, user, entitlement)
  {
    var i :| 0 <= i < |before| && before[i].key == GraceKey(no, entitlement) && before[i].user == user && before[i].entitlement == entitlement;
    assert after[..|before|][i] == after[i];
  }

  function FirstGrace(cfg: Config, no: OrderNo, user: UserId, entitlement: string, start: Time): Grant {
    Grant(user, entitlement, Active, SubscriptionGrace, start, Some(start + GraceDays(cfg) * DAY), GraceKey(no, entitlement))
  }

  lemma OneGraced(s: Store, cfg: Config, cat: Catalog, no: OrderNo, user: UserId, entitlement: string, start: Time)
    requires CreateGrant(s.grants, s.wallet.users, cat, FirstGrace(cfg, no, user, entitlement, start)).Success?
    ensures var r := CreateGrant(s.grants, s.wallet.users, cat, FirstGrace(cfg, no, user, entitlement, start)).value.0;
            && |s.grants| <= |r| && r[..|s.grants|] == s.grants && HasGrace(r, no, user, entitlement)
            && forall i :: |s.grants| <= i < |r| ==> r[i].entitlement == entitlement && IsGrace(r[i], cfg, no, user, entitlement, start)
  {
    var grant := FirstGrace(cfg, no, user, entitlement, start);
    var (r, made) := CreateGrant(s.grants, s.wallet.users, cat, grant).value;
    assert r[made].key == GraceKey(no, entitlement) && r[made].user == user && r[made].entitlement == entitlement;
    assert IsGrace(grant, cfg, no, user, entitlement, start);
  }

  // Giving grace gives each listed entitlement its period, and none a second one.
  lemma {:induction false} GraceGiven(s: Store, cfg: Config, cat: Catalog, no: OrderNo, user: UserId, entitlements: seq<string>, start: Time)
    requires GrantGrace(s, cfg, cat, no, user, entitlements, start).Success?
    ensures Graced(s.grants, GrantGrace(s, cfg, cat, no, user, entitlements, start).value.grants, cfg, no, user, entitlements, start)
    decreases |entitlements|
  {
    if entitlements == [] {
      assert s.grants[..|s.grants|] == s.grants;
    } else {
      var first, rest := entitlements[0], entitlements[1..];
      var m := s.(grants := CreateGrant(s.grants, s.wallet.users, cat, FirstGrace(cfg, no, user, first, start)).value.0);
      OneGraced(s, cfg, cat, no, user, first, start);
      GraceGiven(m, cfg, cat, no, user, rest, start);
      GracedThrough(s.grants, m.grants, GrantGrace(m, cfg, cat, no, user, rest, start).value.grants, cfg, no, user, entitlements, start);
    }
  }

  lemma GracedThrough(before: seq<Grant>, middle: seq<Grant>, after: seq<Grant>, cfg: Config, no: OrderNo, user: UserId,
                      entitlements: seq<string>, start: Time)
    requires entitlements != [] && |before| <= |middle| && middle[..|before|] == before && HasGrace(middle, no, user, entitlements[0])
    requires forall i :: |before| <= i < |middle| ==>
               middle[i].entitlement == entitlements[0] && IsGrace(middle[i], cfg, no, user, entitlements[0], start)
    requires Graced(middle, after, cfg, no, user, entitlements[1..], start)
    ensures Graced(before, after, cfg, no, user, entitlements, start)
  {
    assert after[..|before|] == after[..|middle|][..|before|];
    assert forall i :: |before| <= i < |middle| ==> after[i] == after[..|middle|][i];
    GraceStays(middle, after, no, user, entitlements[0]);
  }

  // ---------------------------------------------------------------- a failed renewal

  // The renewal order a failed or expired renewal is about, once found or derived.
  ghost predicate About(s: Store, cfg: Config, event: Event, s1: Store, no: OrderNo) {
    && event.orderNo != "" && event.orderNo in s.orders && Resolve(s, cfg, event.orderNo, event) == Success((s1, no))
    && no in s1.orders && s1.orders[no].kind == Renewal && s1.orders[no].user != "" && s1.orders[no].sku != ""
  }

  // The entitlements with grace: those configured for the SKU, or for all others.
  predicate GraceListed(cfg: Config, sku: string, entitlements: seq<string>) {
    entitlements == (if sku in cfg.grace then cfg.grace[sku] else cfg.graceFallback) && entitlements != []
  }

  // Main result: a failed renewal that goes through gives the order's user grace for each
  // entitlement that has it, from the end of the period on, and changes no other grant;
  // one that does not changes nothing.
  lemma FailedGivesGrace(s: Store, cfg: Config, cat: Catalog, event: Event, weather: Weather, s1: Store, no: OrderNo, entitlements: seq<string>)
    requires event.kind.RenewalFailed? && About(s, cfg, event, s1, no) && GraceListed(cfg, s1.orders[no].sku, entitlements)
    ensures var r := ProcessPayment(s, cfg, cat, event, weather);
            && (r.1 == Done || r == (s, Broken))
            && (r.1 == Done ==> exists start ::
                  GraceBegins(start, event) && Graced(s.grants, r.0.grants, cfg, no, s1.orders[no].user, entitlements, start))
  {
    var order := s1.orders[no];
    var s2 := SetOrder(s1, no, RenewalOrderAfter(order, event));
    if GrantGrace(s2, cfg, cat, no, order.user, entitlements, GraceStart(event)).Success? {
      GraceGiven(s2, cfg, cat, no, order.user, entitlements, GraceStart(event));
      assert GraceBegins(GraceStart(event), event);
    }
  }

  // ---------------------------------------------------------------- an expired subscription

  // Grace of this user for a listed entitlement that had begun and is over.
  predicate EndedGrace(g: Grant, user: UserId, entitlements: seq<string>, at: Time) {
    && g.user == user && g.entitlement in entitlements && g.source == SubscriptionGrace && g.status == Active
    && g.startsAt <= at && g.expiresAt.Some? && g.expiresAt.value <= at
  }

  predicate Marked(g: Grant, h: Grant, user: UserId, entitlements: seq<string>, at: Time) {
    h == if EndedGrace(g, user, entitlements, at) then g.(status := Expired, expiresAt := Some(at)) else g
  }

  lemma {:induction false} GraceExpired(grants: seq<Grant>, user: UserId, entitlements: seq<string>, at: Time)
    ensures var r := ExpireGrace(grants, user, entitlements, at);
            |r| == |grants| && forall i :: 0 <= i < |grants| ==> Marked(grants[i], r[i], user, entitlements, at)
    decreases |entitlements|
  {
    if entitlements != [] {
      var swept := seq(|grants|, i requires 0 <= i < |grants| =>
        if GraceOver(grants[i], user, entitlements[0], at) then grants[i].(status := Expired, expiresAt := Some(at)) else grants[i]);
      GraceExpired(swept, user, entitlements[1..], at);
      forall i | 0 <= i < |grants|
        ensures Marked(grants[i], ExpireGrace(grants, user, entitlements, at)[i], user, entitlements, at)
      {
        assert Marked(swept[i], ExpireGrace(swept, user, entitlements[1..], at)[i], user, entitlements[1..], at);
      }
    }
  }

  // Main result: an expired subscription ends, where grace is swept, exactly the grace of
  // the order's user that is over when the event comes in.
  lemma ExpiredEndsGrace(s: Store, cfg: Config, cat: Catalog, event: Event, weather: Weather, s1: Store, no: OrderNo, entitlements: seq<string>)
    requires event.kind.SubscriptionExpired? && About(s, cfg, event, s1, no) && GraceListed(cfg, s1.orders[no].sku, entitlements)
    ensures var r := ProcessPayment(s, cfg, cat, event, weather);
            && r.1 == Done && |r.0.grants| == |s.grants|
            && forall i :: 0 <= i < |s.grants| ==>
                 if cfg.sweepsGrace then Marked(s.grants[i], r.0.grants[i], s1.orders[no].user, entitlements, event.receivedAt)
                 else r.0.grants[i] == s.grants[i]
  {
    GraceExpired(s.grants, s1.orders[no].user, entitlements, event.receivedAt);
  }
}
