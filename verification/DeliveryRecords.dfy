/** What is left on record of a delivery: each rule's outcome with the time it was first
    tried, and of a failed attempt the one rule it failed at. */
module DeliveryRecords {
  import opened Wrappers
  import opened DeliveryKeys
  import opened Commerce
  import opened FulfillmentSpec
  import opened Delivery
  import opened DeliveryOutcome

  // ---------------------------------------------------------------- which records move

  // A record of one of the rules, new or in a new version, first made when it was.
  predicate Moved(before: map<string, Execution>, after: map<string, Execution>, key: string, now: Time) {
    key in after && after[key].createdAt == if key in before then before[key].createdAt else now
  }

  ghost predicate RecordsMove(before: map<string, Execution>, after: map<string, Execution>, now: Time) {
    && (forall key :: key in before ==> key in after)
    && (forall key :: key in after && (key !in before || after[key] != before[key]) ==> Moved(before, after, key, now))
  }

  lemma MovesThrough(a: map<string, Execution>, b: map<string, Execution>, c: map<string, Execution>, now: Time)
    requires RecordsMove(a, b, now) && RecordsMove(b, c, now)
    ensures RecordsMove(a, c, now)
  {
    forall key | key in c && (key !in a || c[key] != a[key])
      ensures Moved(a, c, key, now)
    {
      if key in b && c[key] == b[key] {
        assert Moved(a, b, key, now);
      } else {
        assert Moved(b, c, key, now);
        assert key in b && (key !in a || b[key] != a[key]) ==> Moved(a, b, key, now);
      }
    }
  }

  lemma {:induction false} RulesMove(s: Store, cat: Catalog, no: OrderNo, order: Order, rules: seq<Rule>, chance: Chance, now: Time)
    requires ApplyRules(s, cat, no, order, rules, chance, now).outcome.Success?
    ensures RecordsMove(s.executions, ApplyRules(s, cat, no, order, rules, chance, now).outcome.value.executions, now)
    decreases |rules|
  {
    if rules != [] {
      var m := ApplyRule(s, cat, no, order, rules[0], chance, now).outcome.value;
      RulesMove(m, cat, no, order, rules[1..], chance, now);
      MovesThrough(s.executions, m.executions, ApplyRules(m, cat, no, order, rules[1..], chance, now).outcome.value.executions, now);
    }
  }

  // ---------------------------------------------------------------- the rule an attempt fails at

  predicate AllApplied(records: seq<Execution>) {
    forall i :: 0 <= i < |records| ==> records[i].status == Applied
  }

  lemma {:induction false} SuccessApplied(s: Store, cat: Catalog, no: OrderNo, order: Order, rules: seq<Rule>, chance: Chance, now: Time)
    requires ApplyRules(s, cat, no, order, rules, chance, now).outcome.Success?
    ensures AllApplied(ApplyRules(s, cat, no, order, rules, chance, now).records)
    decreases |rules|
  {
    if rules != [] {
      SuccessApplied(ApplyRule(s, cat, no, order, rules[0], chance, now).outcome.value, cat, no, order, rules[1..], chance, now);
    }
  }

  lemma {:induction false} AppliedIgnored(executions: map<string, Execution>, applied: seq<Execution>)
    requires AllApplied(applied)
    ensures PersistFailed(executions, applied) == executions
  {
    if applied != [] {
      AppliedIgnored(executions, applied[..|applied| - 1]);
    }
  }

  lemma AppliedSkipped(executions: map<string, Execution>, applied: seq<Execution>, rest: seq<Execution>)
    requires AllApplied(applied) && |rest| <= 1
    ensures PersistFailed(executions, applied + rest)
         == if rest != [] && rest[0].status != Applied then Save(executions, rest[0]) else executions
  {
    var all := applied + rest;
    AppliedIgnored(executions, applied);
    if rest == [] {
      assert all == applied;
    } else {
      assert all[..|all| - 1] == applied && all[|all| - 1] == rest[0];
    }
  }

  // The records of earlier rules are of success; the last is of the failure, if that
  // could be written.
  lemma {:induction false} FailsAt(s: Store, cat: Catalog, no: OrderNo, order: Order, rules: seq<Rule>, chance: Chance, now: Time)
    returns (k: nat, m: Store, earlier: seq<Execution>)
    requires ApplyRules(s, cat, no, order, rules, chance, now).outcome.Failure?
    ensures k < |rules| && ApplyRules(s, cat, no, order, rules[..k], chance, now).outcome == Success(m)
    ensures ApplyRule(m, cat, no, order, rules[k], chance, now).outcome.Failure?
    ensures AllApplied(earlier)
    ensures ApplyRules(s, cat, no, order, rules, chance, now).records == earlier + ApplyRule(m, cat, no, order, rules[k], chance, now).records
    decreases |rules|
  {
    var first := ApplyRule(s, cat, no, order, rules[0], chance, now);
    if first.outcome.Failure? {
      k, m, earlier := 0, s, [];
      assert rules[..0] == [];
    } else {
      var j, later := 0, [];
      RulesUnroll(s, cat, no, order, rules, chance, now);
      j, m, later := FailsAt(first.outcome.value, cat, no, order, rules[1..], chance, now);
      k, earlier := j + 1, first.records + later;
      PrefixGrows(s, cat, no, order, rules, chance, now, j);
      var last := ApplyRule(m, cat, no, order, rules[k], chance, now).records;
      assert rules[1..][j] == rules[k] && first.records + (later + last) == earlier + last;
    }
  }

  lemma RulesUnroll(s: Store, cat: Catalog, no: OrderNo, order: Order, rules: seq<Rule>, chance: Chance, now: Time)
    requires rules != [] && ApplyRule(s, cat, no, order, rules[0], chance, now).outcome.Success?
    ensures var first, all := ApplyRule(s, cat, no, order, rules[0], chance, now), ApplyRules(s, cat, no, order, rules, chance, now);
            var rest := ApplyRules(first.outcome.value, cat, no, order, rules[1..], chance, now);
            all.outcome == rest.outcome && all.records == first.records + rest.records && AllApplied(first.records)
  {
  }

  lemma PrefixGrows(s: Store, cat: Catalog, no: OrderNo, order: Order, rules: seq<Rule>, chance: Chance, now: Time, j: nat)
    requires j < |rules| && ApplyRule(s, cat, no, order, rules[0], chance, now).outcome.Success?
    ensures var m := ApplyRule(s, cat, no, order, rules[0], chance, now).outcome.value;
            ApplyRules(s, cat, no, order, rules[..j + 1], chance, now).outcome == ApplyRules(m, cat, no, order, rules[1..][..j], chance, now).outcome
  {
    assert rules[..j + 1][0] == rules[0] && rules[..j + 1][1..] == rules[1..][..j];
  }

  // Only keys of rules that are then applied have moved on the way.
  lemma {:induction false} OthersKept(s: Store, cat: Catalog, no: OrderNo, order: Order, rules: seq<Rule>, chance: Chance, now: Time, id: string)
    requires ApplyRules(s, cat, no, order, rules, chance, now).outcome.Success?
    requires !IsApplied(ApplyRules(s, cat, no, order, rules, chance, now).outcome.value, no, id)
    ensures var key, m := ExecutionKey(no, id), ApplyRules(s, cat, no, order, rules, chance, now).outcome.value.executions;
            (key in m <==> key in s.executions) && (key in m ==> m[key] == s.executions[key])
    decreases |rules|
  {
    if rules != [] {
      var first := ApplyRule(s, cat, no, order, rules[0], chance, now).outcome.value;
      OthersKept(first, cat, no, order, rules[1..], chance, now, id);
      if rules[0].id == id {
        StaysApplied(first, cat, no, order, rules[1..], chance, now, id);
      } else {
        KeyApart(no, rules[0].id, id);
      }
    }
  }

  lemma KeyApart(no: OrderNo, a: string, b: string)
    requires a != b
    ensures ExecutionKey(no, a) != ExecutionKey(no, b)
  {
    if ExecutionKey(no, a) == ExecutionKey(no, b) {
      ExecutionKeyUnique(no, a, no, b);
    }
  }

  lemma {:induction false} StaysApplied(s: Store, cat: Catalog, no: OrderNo, order: Order, rules: seq<Rule>, chance: Chance, now: Time, id: string)
    requires ApplyRules(s, cat, no, order, rules, chance, now).outcome.Success? && IsApplied(s, no, id)
    ensures IsApplied(ApplyRules(s, cat, no, order, rules, chance, now).outcome.value, no, id)
    decreases |rules|
  {
    if rules != [] {
      if rules[0].id != id {
        KeyApart(no, rules[0].id, id);
      }
      StaysApplied(ApplyRule(s, cat, no, order, rules[0], chance, now).outcome.value, cat, no, order, rules[1..], chance, now, id);
    }
  }

  // ---------------------------------------------------------------- the order

  predicate IsFailure(e: Execution, before: map<string, Execution>, no: OrderNo, order: Order, rule: Rule, now: Time) {
    && e.order == no && e.user == order.user && e.sku == order.sku && e.rule == rule.id && e.status == NotApplied && e.ref.None?
    && e.target == (if rule.kind.GrantEntitlement? then ToEntitlement(rule.entitlement) else ToCredits)
    && Some(e.createdAt) == Some(if ExecutionKey(no, rule.id) in before then before[ExecutionKey(no, rule.id)].createdAt else now)
  }

  // The rule an attempt stops at: all before it are applied already or can be carried
  // out in their turn, and it is not.
  ghost predicate StopsAt(s: Store, cat: Catalog, no: OrderNo, rules: seq<Rule>, chance: Chance, k: nat) {
    && k < |rules|
    && Carries(cat, rules[..k], chance, s.wallet.buckets.Keys, AppliedRules(s, no, rules))
    && !Carries(cat, rules[..k + 1], chance, s.wallet.buckets.Keys, AppliedRules(s, no, rules))
  }

  // The one record of failure left, if the failure could be recorded.
  ghost predicate RecordsFailure(s: Store, r: Store, no: OrderNo, order: Order, rule: Rule, chance: Chance, now: Time) {
    var key := ExecutionKey(no, rule.id);
    if chance.recordLost || !ValidRule(rule) || rule.id in chance.unsaved then r == s
    else r == s.(executions := r.executions) && key in r.executions && r.executions == s.executions[key := r.executions[key]]
         && IsFailure(r.executions[key], s.executions, no, order, rule, now)
  }

  lemma PrefixDecided(s: Store, cat: Catalog, no: OrderNo, rules: seq<Rule>, chance: Chance, now: Time, k: nat)
    requires Delivered(s, cat) && no in s.orders && s.orders[no].user != "" && s.orders[no].user in s.wallet.users && k <= |rules|
    ensures ApplyRules(s, cat, no, s.orders[no], rules[..k], chance, now).outcome.Success?
            <==> Carries(cat, rules[..k], chance, s.wallet.buckets.Keys, AppliedRules(s, no, rules))
  {
    RulesOutcome(s, cat, no, s.orders[no], rules[..k], chance, now, AppliedRules(s, no, rules));
  }

  lemma {:induction false} PrefixFails(s: Store, cat: Catalog, no: OrderNo, order: Order, rules: seq<Rule>, chance: Chance, now: Time,
                                       k: nat, m: Store)
    requires k < |rules| && ApplyRules(s, cat, no, order, rules[..k], chance, now).outcome == Success(m)
    requires ApplyRule(m, cat, no, order, rules[k], chance, now).outcome.Failure?
    ensures ApplyRules(s, cat, no, order, rules[..k + 1], chance, now).outcome.Failure?
    decreases k
  {
    if k == 0 {
      assert rules[..0] == [] && rules[..1] == [rules[0]];
    } else {
      var next := ApplyRule(s, cat, no, order, rules[0], chance, now).outcome.value;
      assert rules[..k][0] == rules[0] && rules[..k][1..] == rules[1..][..k - 1];
      assert rules[..k + 1][0] == rules[0] && rules[..k + 1][1..] == rules[1..][..k];
      PrefixFails(next, cat, no, order, rules[1..], chance, now, k - 1, m);
    }
  }

  // What the failing rule's attempt adds to the records.
  lemma LastRecord(s: Store, m: Store, cat: Catalog, no: OrderNo, order: Order, rule: Rule, chance: Chance, now: Time)
    requires ApplyRule(m, cat, no, order, rule, chance, now).outcome.Failure?
    requires var key := ExecutionKey(no, rule.id);
             (key in m.executions <==> key in s.executions) && (key in m.executions ==> m.executions[key] == s.executions[key])
    ensures var records := ApplyRule(m, cat, no, order, rule, chance, now).records;
            && |records| <= 1 && (records == [] <==> !ValidRule(rule) || rule.id in chance.unsaved)
            && (records != [] ==> records[0].status == NotApplied)
            && (records != [] ==>
                  RecordsFailure(s, s.(executions := Save(s.executions, records[0])), no, order, rule, chance.(recordLost := false), now))
  {
  }

  lemma FailureSaved(s: Store, cat: Catalog, no: OrderNo, order: Order, rules: seq<Rule>, chance: Chance, now: Time) returns (k: nat)
    requires Delivered(s, cat) && no in s.orders && order == s.orders[no] && order.user != "" && order.user in s.wallet.users
    requires ApplyRules(s, cat, no, order, rules, chance, now).outcome.Failure?
    ensures StopsAt(s, cat, no, rules, chance, k)
    ensures RecordsFailure(s, s.(executions := PersistFailed(s.executions, ApplyRules(s, cat, no, order, rules, chance, now).records)), no, order,
                           rules[k], chance.(recordLost := false), now)
  {
    var m, earlier := s, [];
    k, m, earlier := FailsAt(s, cat, no, order, rules, chance, now);
    var last := ApplyRule(m, cat, no, order, rules[k], chance, now).records;
    PrefixFails(s, cat, no, order, rules, chance, now, k, m);
    PrefixDecided(s, cat, no, rules, chance, now, k);
    PrefixDecided(s, cat, no, rules, chance, now, k + 1);
    if ValidRule(rules[k]) {
      OthersKept(s, cat, no, order, rules[..k], chance, now, rules[k].id);
    }
    if ValidRule(rules[k]) || last == [] {
      AppliedSkipped(s.executions, earlier, last);
    }
    if ValidRule(rules[k]) {
      LastRecord(s, m, cat, no, order, rules[k], chance, now);
    }
  }

  // Main result: a failed attempt on a paid order that a buyer and rules are known for
  // leaves one record at most, of the rule it stopped at, if there is one.
  lemma FailureRecorded(s: Store, cat: Catalog, no: OrderNo, chance: Chance, now: Time) returns (k: nat)
    requires Delivered(s, cat) && no in s.orders && s.orders[no].status == Paid && FulfillOrder(s, cat, no, chance, now).1.Failure?
    requires var order := s.orders[no];
             order.user != "" && order.sku != "" && !order.kind.NewLicense? && order.user in s.wallet.users && RulesFor(cat, order.sku) != []
    ensures var r, rules := FulfillOrder(s, cat, no, chance, now).0, RulesFor(cat, s.orders[no].sku);
            if Carries(cat, rules, chance, s.wallet.buckets.Keys, AppliedRules(s, no, rules)) then chance.commitFails && r == s
            else StopsAt(s, cat, no, rules, chance, k) && RecordsFailure(s, r, no, s.orders[no], rules[k], chance, now)
  {
    var order, rules := s.orders[no], RulesFor(cat, s.orders[no].sku);
    k := 0;
    assert rules[..|rules|] == rules;
    PrefixDecided(s, cat, no, rules, chance, now, |rules|);
    if ApplyRules(s, cat, no, order, rules, chance, now).outcome.Failure? {
      k := FailureSaved(s, cat, no, order, rules, chance, now);
    } else {
      SuccessApplied(s, cat, no, order, rules, chance, now);
      var records := ApplyRules(s, cat, no, order, rules, chance, now).records;
      assert records + [] == records;
      AppliedSkipped(s.executions, records, []);
    }
  }

  // And every call leaves each record with the time it was first made.
  lemma RecordTimes(s: Store, cat: Catalog, no: OrderNo, chance: Chance, now: Time)
    requires Delivered(s, cat)
    ensures RecordsMove(s.executions, FulfillOrder(s, cat, no, chance, now).0.executions, now)
  {
    var attempt := FulfillInside(s, cat, no, chance, now);
    if Refusal(s, cat, no).None? && s.orders[no].status != Fulfilled {
      var order, rules := s.orders[no], RulesFor(cat, s.orders[no].sku);
      if ApplyRules(s, cat, no, order, rules, chance, now).outcome.Success? {
        RulesMove(s, cat, no, order, rules, chance, now);
        SuccessApplied(s, cat, no, order, rules, chance, now);
        var records := ApplyRules(s, cat, no, order, rules, chance, now).records;
        assert records + [] == records;
        AppliedSkipped(s.executions, records, []);
      } else {
        var k := FailureSaved(s, cat, no, order, rules, chance, now);
      }
    } else {
      assert PersistFailed(s.executions, []) == s.executions;
    }
  }
}
