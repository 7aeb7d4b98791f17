/** Refunds: what the usage snapshot predicts is what the clawback takes, and a
    second clawback takes nothing. */
module Refund {
  import opened Wrappers
  import opened Totals
  import opened Credits
  import opened WalletSpec
  import opened WalletRows
  import opened WalletBalance
  import opened WalletInvariant
  import opened WalletKeys
  import LedgerReplay

  datatype Usage = Usage(granted: int, available: int, used: int)

  // Whether the snapshot counts an execution: it names a credit entry of the
  // order's own user.
  predicate Counts(ledger: seq<Transaction>, order: Order, e: Execution) {
    && e.credits && e.resultRef.Some? && e.resultRef.value < |ledger|
    && ledger[e.resultRef.value].amount > 0 && ledger[e.resultRef.value].user == order.user
  }

  function Offer(s: State, e: Execution, balance: int): int
    requires e.resultRef.Some? && e.resultRef.value < |s.ledger|
  {
    var recoverable := Recoverable(s.buckets, s.ledger[e.resultRef.value], balance);
    if recoverable < 0 then 0 else recoverable
  }

  // paymentAdjustmentUsageSnapshot, with what is left of the user's balance after
  // the offers made so far.
  function Predict(s: State, order: Order, executions: seq<Execution>, balance: int): (int, int) {
    if executions == [] then (0, 0)
    else if !Counts(s.ledger, order, executions[0]) then Predict(s, order, executions[1..], balance)
    else
      var offer := Offer(s, executions[0], balance);
      var rest := Predict(s, order, executions[1..], balance - offer);
      (s.ledger[executions[0].resultRef.value].amount + rest.0, offer + rest.1)
  }

  function UsageOf(totals: (int, int)): Usage {
    Usage(totals.0, totals.1, if totals.0 > totals.1 then totals.0 - totals.1 else 0)
  }

  function Snapshot(s: State, order: Order, executions: seq<Execution>): Usage
    requires order.user in s.accounts
  {
    UsageOf(Predict(s, order, executions, s.accounts[order.user].balance))
  }

  // ---------------------------------------------------------------- prediction and effect

  // The executions of a refund as fulfillment leaves them: each names a ledger
  // entry of the order's user that came with a bucket of its own, no rule twice.
  ghost predicate WellFormed(s: State, order: Order, executions: seq<Execution>) {
    && (forall i :: 0 <= i < |executions| && executions[i].credits ==>
          && Counts(s.ledger, order, executions[i])
          && s.ledger[executions[i].resultRef.value].bucket.Some?)
    && (forall i, j :: 0 <= i < j < |executions| && executions[i].credits && executions[j].credits ==>
          && executions[i].rule != executions[j].rule
          && s.ledger[executions[i].resultRef.value].bucket != s.ledger[executions[j].resultRef.value].bucket)
  }

  ghost predicate NotYetTaken(s: State, order: Order, executions: seq<Execution>) {
    forall i :: 0 <= i < |executions| && executions[i].credits ==>
      FindKey(s.ledger, ClawbackKey(order.outTradeNo, executions[i].rule)).None?
  }

  // The prediction only looks at the named entries and their buckets.
  ghost predicate SameSources(s: State, r: State, executions: seq<Execution>) {
    forall i :: 0 <= i < |executions| && executions[i].credits && executions[i].resultRef.Some? ==>
      var ref := executions[i].resultRef.value;
      && ref < |s.ledger| && ref < |r.ledger| && s.ledger[ref] == r.ledger[ref]
      && (s.ledger[ref].bucket.Some? ==>
            && s.ledger[ref].bucket.value in s.buckets && s.ledger[ref].bucket.value in r.buckets
            && s.buckets[s.ledger[ref].bucket.value] == r.buckets[s.ledger[ref].bucket.value])
  }

  lemma {:induction false} PredictSameSources(s: State, r: State, order: Order, executions: seq<Execution>, balance: int)
    requires SameSources(s, r, executions)
    ensures Predict(s, order, executions, balance) == Predict(r, order, executions, balance)
    decreases |executions|
  {
    if executions != [] {
      var rest := executions[1..];
      assert forall i :: 0 <= i < |rest| ==> rest[i] == executions[i + 1];
      var offer := if Counts(s.ledger, order, executions[0]) then Offer(s, executions[0], balance) else 0;
      PredictSameSources(s, r, order, rest, balance - offer);
    }
  }

  lemma ClawbackGoesThrough(s: State, order: Order, rule: string, id: TransactionId, now: Time)
    requires id < |s.ledger| && s.ledger[id].amount > 0 && s.ledger[id].user == order.user && order.user in s.accounts
    requires FindKey(s.ledger, ClawbackKey(order.outTradeNo, rule)).None?
    ensures PostClawback(s, order, rule, id, now).Success?
    ensures var r := PostClawback(s, order, rule, id, now).value;
            && r.ledger == s.ledger + [r.ledger[|s.ledger|]]
            && r.ledger[|s.ledger|].amount == -Recoverable(s.buckets, s.ledger[id], s.accounts[order.user].balance)
            && r.ledger[|s.ledger|].key == ClawbackKey(order.outTradeNo, rule)
  {
  }

  // One grant taken back: exactly the offer, from its own bucket.
  ghost predicate Took(s: State, r: State, order: Order, e: Execution, offer: int)
    requires Counts(s.ledger, order, e)
  {
    && order.user in s.accounts && order.user in r.accounts
    && r.accounts[order.user].balance == s.accounts[order.user].balance - offer
    && |r.ledger| == |s.ledger| + 1 && r.ledger == s.ledger + [r.ledger[|s.ledger|]]
    && r.ledger[|s.ledger|].key == ClawbackKey(order.outTradeNo, e.rule)
    && r.buckets.Keys == s.buckets.Keys
    && (forall c :: c in s.buckets && Some(c) != s.ledger[e.resultRef.value].bucket ==> r.buckets[c] == s.buckets[c])
    && 0 <= offer <= s.ledger[e.resultRef.value].amount
  }

  lemma TakeOneShape(s: State, r: State, order: Order, e: Execution, b: BucketId, offer: int)
    requires Counts(s.ledger, order, e) && s.ledger[e.resultRef.value].bucket == Some(b)
    requires b in s.buckets && s.buckets[b].owner == order.user
    requires |s.ledger| < |r.ledger| && TakenFrom(s, r, b, offer, r.ledger[|s.ledger|])
    requires r.ledger[|s.ledger|].key == ClawbackKey(order.outTradeNo, e.rule)
    requires offer <= s.ledger[e.resultRef.value].amount
    ensures Took(s, r, order, e, offer)
  {
  }

  lemma TakeOneEffect(s: State, order: Order, e: Execution, b: BucketId, now: Time)
    requires Counts(s.ledger, order, e) && s.ledger[e.resultRef.value].bucket == Some(b)
    requires FindKey(s.ledger, ClawbackKey(order.outTradeNo, e.rule)).None?
    requires b in s.buckets && s.buckets[b].owner == order.user && order.user in s.accounts
    requires 0 <= s.buckets[b].remaining <= s.accounts[order.user].balance
    requires s.buckets[b].status != Active ==> s.buckets[b].remaining == 0
    ensures PostClawback(s, order, e.rule, e.resultRef.value, now).Success?
    ensures var r := PostClawback(s, order, e.rule, e.resultRef.value, now).value;
            var offer := Offer(s, e, s.accounts[order.user].balance);
            ClawbackOne(s, order, e, now) == Success((r, offer)) && Took(s, r, order, e, offer)
  {
    var id := e.resultRef.value;
    ClawbackGoesThrough(s, order, e.rule, id, now);
    ClawbackShape(s, order, e.rule, id, b, now);
    TakeOneShape(s, PostClawback(s, order, e.rule, id, now).value, order, e, b, Min(s.ledger[id].amount, s.buckets[b].remaining));
  }

  lemma TakeOne(s: State, order: Order, e: Execution, now: Time)
    requires Balanced(s) && Counts(s.ledger, order, e) && s.ledger[e.resultRef.value].bucket.Some?
    requires FindKey(s.ledger, ClawbackKey(order.outTradeNo, e.rule)).None?
    ensures order.user in s.accounts
    ensures var one := ClawbackOne(s, order, e, now);
            var offer := Offer(s, e, s.accounts[order.user].balance);
            one.Success? && one.value.1 == offer && Balanced(one.value.0) && Took(s, one.value.0, order, e, offer)
  {
    var id := e.resultRef.value;
    var b := s.ledger[id].bucket.value;
    assert EntrySound(s, s.ledger[id]);
    BalanceCoversBucket(s, b);
    assert BucketSound(s, b);
    TakeOneEffect(s, order, e, b, now);
    ClawbackKeeps(s, order, e.rule, id, now);
  }

  lemma RestStaysReady(s: State, r: State, order: Order, executions: seq<Execution>)
    requires executions != [] && executions[0].credits && RecordsSound(s)
    requires WellFormed(s, order, executions) && NotYetTaken(s, order, executions)
    requires |r.ledger| == |s.ledger| + 1 && r.ledger == s.ledger + [r.ledger[|s.ledger|]]
    requires r.ledger[|s.ledger|].key == ClawbackKey(order.outTradeNo, executions[0].rule)
    requires r.buckets.Keys == s.buckets.Keys
    requires forall c :: c in s.buckets && Some(c) != s.ledger[executions[0].resultRef.value].bucket ==> r.buckets[c] == s.buckets[c]
    ensures WellFormed(r, order, executions[1..]) && NotYetTaken(r, order, executions[1..])
    ensures SameSources(s, r, executions[1..])
  {
    var rest := executions[1..];
    assert forall i :: 0 <= i < |rest| ==> rest[i] == executions[i + 1];
    forall i | 0 <= i < |rest| && rest[i].credits
      ensures FindKey(r.ledger, ClawbackKey(order.outTradeNo, rest[i].rule)).None?
      ensures Counts(r.ledger, order, rest[i]) && r.ledger[rest[i].resultRef.value] == s.ledger[rest[i].resultRef.value]
      ensures s.ledger[rest[i].resultRef.value].bucket.value in s.buckets
    {
      assert rest[i] == executions[i + 1] && Counts(s.ledger, order, executions[i + 1]);
      assert EntrySound(s, s.ledger[rest[i].resultRef.value]);
      FindKeyAppend(s.ledger, r.ledger[|s.ledger|], ClawbackKey(order.outTradeNo, rest[i].rule));
    }
  }

  ghost predicate TakenAsPredicted(s: State, order: Order, executions: seq<Execution>, now: Time)
    requires order.user in s.accounts
  {
    var predicted := Predict(s, order, executions, s.accounts[order.user].balance);
    var effect := Clawback(s, order, executions, now);
    && effect.Success? && effect.value.1 == predicted.1 <= predicted.0
    && order.user in effect.value.0.accounts
    && effect.value.0.accounts[order.user].balance == s.accounts[order.user].balance - effect.value.1
  }

  lemma {:induction false} PredictedStep(s: State, r: State, order: Order, executions: seq<Execution>, offer: int, now: Time)
    requires executions != [] && executions[0].credits && Counts(s.ledger, order, executions[0])
    requires order.user in s.accounts && offer == Offer(s, executions[0], s.accounts[order.user].balance)
    requires Took(s, r, order, executions[0], offer)
    requires ClawbackOne(s, order, executions[0], now) == Success((r, offer))
    requires SameSources(s, r, executions[1..]) && TakenAsPredicted(r, order, executions[1..], now)
    ensures TakenAsPredicted(s, order, executions, now)
    ensures Clawback(s, order, executions, now).value.0 == Clawback(r, order, executions[1..], now).value.0
  {
    PredictSameSources(s, r, order, executions[1..], r.accounts[order.user].balance);
  }

  lemma {:induction false} PredictedIsTaken(s: State, order: Order, executions: seq<Execution>, now: Time)
    requires Balanced(s) && order.user in s.accounts
    requires WellFormed(s, order, executions) && NotYetTaken(s, order, executions)
    ensures TakenAsPredicted(s, order, executions, now)
    ensures Balanced(Clawback(s, order, executions, now).value.0)
    decreases |executions|
  {
    if executions != [] {
      var e, rest := executions[0], executions[1..];
      if !e.credits {
        assert forall i :: 0 <= i < |rest| ==> rest[i] == executions[i + 1];
        PredictedIsTaken(s, order, rest, now);
      } else {
        TakeOne(s, order, e, now);
        var r := ClawbackOne(s, order, e, now).value.0;
        RestStaysReady(s, r, order, executions);
        PredictedIsTaken(r, order, rest, now);
        PredictedStep(s, r, order, executions, Offer(s, e, s.accounts[order.user].balance), now);
      }
    }
  }

  // Main result: the available credits the snapshot reports are exactly what the
  // clawback then takes from the balance, so used and taken make up what was granted.
  lemma {:induction false} PredictionIsEffect(s: State, order: Order, executions: seq<Execution>, now: Time)
    requires Balanced(s) && order.user in s.accounts
    requires WellFormed(s, order, executions) && NotYetTaken(s, order, executions)
    ensures var usage := Snapshot(s, order, executions);
            var effect := Clawback(s, order, executions, now);
            && effect.Success?
            && effect.value.1 == usage.available
            && usage.used + effect.value.1 == usage.granted
            && order.user in effect.value.0.accounts
            && effect.value.0.accounts[order.user].balance == s.accounts[order.user].balance - usage.available
  {
    PredictedIsTaken(s, order, executions, now);
  }

  // ---------------------------------------------------------------- what the snapshot adds up to

  // Granted by the entry an execution names, and left of it in its bucket.
  function Worth(s: State, e: Execution): (int, int) {
    if e.credits && e.resultRef.Some? && e.resultRef.value < |s.ledger| then
      var t := s.ledger[e.resultRef.value];
      (t.amount, if t.bucket.Some? && t.bucket.value in s.buckets then Min(t.amount, s.buckets[t.bucket.value].remaining) else 0)
    else (0, 0)
  }

  function Sums(s: State, executions: seq<Execution>): (int, int) {
    if executions == [] then (0, 0)
    else
      var first, rest := Worth(s, executions[0]), Sums(s, executions[1..]);
      (first.0 + rest.0, first.1 + rest.1)
  }

  lemma FrontWellFormed(s: State, order: Order, executions: seq<Execution>)
    requires executions != [] && WellFormed(s, order, executions)
    ensures WellFormed(s, order, executions[1..])
  {
    var rest := executions[1..];
    assert forall i :: 0 <= i < |rest| ==> rest[i] == executions[i + 1];
  }

  // The buckets of the named entries, each present and not overdrawn.
  ghost predicate BucketsIn(s: State, executions: seq<Execution>, m: map<BucketId, int>) {
    forall i :: 0 <= i < |executions| && executions[i].credits && executions[i].resultRef.Some? && executions[i].resultRef.value < |s.ledger| ==>
      var bucket := s.ledger[executions[i].resultRef.value].bucket;
      bucket.Some? ==> bucket.value in m && bucket.value in s.buckets && m[bucket.value] == s.buckets[bucket.value].remaining
  }

  lemma {:induction false} SumsWithin(s: State, order: Order, executions: seq<Execution>, m: map<BucketId, int>)
    requires WellFormed(s, order, executions) && BucketsIn(s, executions, m) && forall b :: b in m ==> 0 <= m[b]
    ensures 0 <= Sums(s, executions).1 <= Total(m)
    decreases |executions|
  {
    TotalNonNegative(m);
    if executions != [] {
      var e, rest := executions[0], executions[1..];
      FrontWellFormed(s, order, executions);
      assert forall i :: 0 <= i < |rest| ==> rest[i] == executions[i + 1];
      if e.credits {
        assert Counts(s.ledger, order, e);
        var b := s.ledger[e.resultRef.value].bucket.value;
        TotalRemove(m, b);
        RestApart(s, order, executions, m, b);
        SumsWithin(s, order, rest, m - {b});
      } else {
        SumsWithin(s, order, rest, m);
      }
    }
  }

  lemma RestApart(s: State, order: Order, executions: seq<Execution>, m: map<BucketId, int>, b: BucketId)
    requires executions != [] && executions[0].credits && WellFormed(s, order, executions) && BucketsIn(s, executions, m)
    requires s.ledger[executions[0].resultRef.value].bucket == Some(b)
    ensures BucketsIn(s, executions[1..], m - {b})
  {
    var rest := executions[1..];
    forall i | 0 <= i < |rest| && rest[i].credits
      ensures s.ledger[rest[i].resultRef.value].bucket != Some(b)
    {
      assert rest[i] == executions[i + 1] && Counts(s.ledger, order, executions[i + 1]);
    }
  }

  lemma {:induction false} PredictIsSums(s: State, order: Order, executions: seq<Execution>, balance: int)
    requires WellFormed(s, order, executions) && Solvent(s.buckets) && Sums(s, executions).1 <= balance
    requires forall i :: 0 <= i < |executions| && executions[i].credits ==> s.ledger[executions[i].resultRef.value].bucket.value in s.buckets
    ensures Predict(s, order, executions, balance) == Sums(s, executions)
    ensures 0 <= Sums(s, executions).1
    decreases |executions|
  {
    if executions != [] {
      var e, rest := executions[0], executions[1..];
      FrontWellFormed(s, order, executions);
      assert forall i :: 0 <= i < |rest| ==> rest[i] == executions[i + 1];
      SumsNonNegative(s, order, rest);
      if e.credits {
        assert Counts(s.ledger, order, e);
        assert Offer(s, e, balance) == Worth(s, e).1;
      }
      PredictIsSums(s, order, rest, if e.credits then balance - Worth(s, e).1 else balance);
    }
  }

  lemma {:induction false} SumsNonNegative(s: State, order: Order, executions: seq<Execution>)
    requires WellFormed(s, order, executions) && Solvent(s.buckets)
    ensures 0 <= Sums(s, executions).1
    decreases |executions|
  {
    if executions != [] {
      FrontWellFormed(s, order, executions);
      SumsNonNegative(s, order, executions[1..]);
      assert executions[0].credits ==> Counts(s.ledger, order, executions[0]);
    }
  }

  lemma NamedBuckets(s: State, order: Order, executions: seq<Execution>)
    requires Balanced(s) && WellFormed(s, order, executions)
    ensures BucketsIn(s, executions, Remainders(s.buckets, order.user))
    ensures forall i :: 0 <= i < |executions| && executions[i].credits ==> s.ledger[executions[i].resultRef.value].bucket.value in s.buckets
  {
    forall i | 0 <= i < |executions| && executions[i].credits
      ensures s.ledger[executions[i].resultRef.value].bucket.value in s.buckets
      ensures s.buckets[s.ledger[executions[i].resultRef.value].bucket.value].owner == order.user
    {
      assert Counts(s.ledger, order, executions[i]) && EntrySound(s, s.ledger[executions[i].resultRef.value]);
    }
  }

  // Main result: the snapshot is the plain sum over the executions of what each
  // granted and of what is left of it - the balance never caps it - so the order in
  // which they are listed does not matter.
  lemma SnapshotIsSums(s: State, order: Order, executions: seq<Execution>)
    requires Balanced(s) && order.user in s.accounts && WellFormed(s, order, executions)
    ensures Snapshot(s, order, executions) == UsageOf(Sums(s, executions))
  {
    BalancedSolvent(s);
    NamedBuckets(s, order, executions);
    SumsWithin(s, order, executions, Remainders(s.buckets, order.user));
    assert AccountSound(s, order.user);
    PredictIsSums(s, order, executions, s.accounts[order.user].balance);
  }

  // ---------------------------------------------------------------- a refund always goes through

  ghost predicate AllBacked(ledger: seq<Transaction>, order: Order, executions: seq<Execution>) {
    forall i :: 0 <= i < |executions| && executions[i].credits ==>
      Counts(ledger, order, executions[i]) && ledger[executions[i].resultRef.value].bucket.Some?
  }

  lemma OneGoesThrough(s: State, order: Order, e: Execution, now: Time)
    requires Balanced(s) && Counts(s.ledger, order, e) && s.ledger[e.resultRef.value].bucket.Some?
    ensures ClawbackOne(s, order, e, now).Success?
    ensures var r := ClawbackOne(s, order, e, now).value.0; Balanced(r) && s.ledger <= r.ledger
  {
    if FindKey(s.ledger, ClawbackKey(order.outTradeNo, e.rule)).None? {
      TakeOne(s, order, e, now);
    }
  }

  lemma BackedLater(before: seq<Transaction>, after: seq<Transaction>, order: Order, executions: seq<Execution>)
    requires executions != [] && before <= after && AllBacked(before, order, executions)
    ensures AllBacked(after, order, executions[1..])
  {
    var rest := executions[1..];
    forall i | 0 <= i < |rest| && rest[i].credits
      ensures Counts(after, order, rest[i]) && after[rest[i].resultRef.value].bucket.Some?
    {
      assert rest[i] == executions[i + 1] && Counts(before, order, executions[i + 1]);
    }
  }

  // In an agreeing state a refund of bucketed grants of the order's user goes through,
  // whatever of it has been taken back before.
  lemma {:induction false} RefundGoesThrough(s: State, order: Order, executions: seq<Execution>, now: Time)
    requires Balanced(s) && AllBacked(s.ledger, order, executions)
    ensures Clawback(s, order, executions, now).Success?
    decreases |executions|
  {
    if executions != [] {
      var r := s;
      if executions[0].credits {
        OneGoesThrough(s, order, executions[0], now);
        r := ClawbackOne(s, order, executions[0], now).value.0;
      }
      BackedLater(s.ledger, r.ledger, order, executions);
      RefundGoesThrough(r, order, executions[1..], now);
    }
  }

  // ---------------------------------------------------------------- repeating a refund

  // Taking this execution back again would change nothing and report the amount.
  ghost predicate Done(s: State, order: Order, e: Execution, amount: int) {
    forall now :: ClawbackOne(s, order, e, now) == Success((s, amount))
  }

  // How a clawback extends the ledger, if at all.
  ghost predicate OneMore(s: State, r: State, order: Order, rule: string) {
    r == s || (&& |r.ledger| == |s.ledger| + 1 && r.ledger[..|s.ledger|] == s.ledger
               && r.ledger[|s.ledger|].key == ClawbackKey(order.outTradeNo, rule)
               && r.ledger[|s.ledger|].amount <= 0)
  }

  lemma OneIsDone(s: State, order: Order, e: Execution, now: Time)
    requires LedgerReplay.NonNegative(s) && ClawbackOne(s, order, e, now).Success?
    ensures var one := ClawbackOne(s, order, e, now).value;
            OneMore(s, one.0, order, e.rule) && Done(one.0, order, e, one.1) && LedgerReplay.NonNegative(one.0)
  {
    var one := ClawbackOne(s, order, e, now).value;
    if one.0 != s {
      LedgerReplay.RowKeepsNonNegative(s, ClawbackRow(order, e.rule, e.resultRef.value), now);
      assert 0 <= Recoverable(s.buckets, s.ledger[e.resultRef.value], s.accounts[s.ledger[e.resultRef.value].user].balance);
      assert FindKey(one.0.ledger, ClawbackKey(order.outTradeNo, e.rule)) == Some(|s.ledger|);
    }
  }

  lemma DoneStays(s: State, r: State, order: Order, e: Execution, amount: int, rule: string)
    requires Done(s, order, e, amount) && OneMore(s, r, order, rule) && rule != e.rule
    ensures Done(r, order, e, amount)
  {
    if r != s {
      assert ClawbackOne(s, order, e, 0) == Success((s, amount));
      assert FindKey(r.ledger, ClawbackKey(order.outTradeNo, e.rule)) == FindKey(s.ledger, ClawbackKey(order.outTradeNo, e.rule)) by {
        assert r.ledger[..|r.ledger| - 1] == s.ledger;
      }
      DoneCases(s, r, order, e, amount);
    }
  }

  lemma DoneCases(s: State, r: State, order: Order, e: Execution, amount: int)
    requires ClawbackOne(s, order, e, 0) == Success((s, amount))
    requires |r.ledger| == |s.ledger| + 1 && r.ledger[..|s.ledger|] == s.ledger && r.ledger[|s.ledger|].amount <= 0
    requires FindKey(r.ledger, ClawbackKey(order.outTradeNo, e.rule)) == FindKey(s.ledger, ClawbackKey(order.outTradeNo, e.rule))
    ensures Done(r, order, e, amount)
  {
    var existing := FindKey(s.ledger, ClawbackKey(order.outTradeNo, e.rule));
    assert forall i :: 0 <= i < |s.ledger| ==> r.ledger[i] == s.ledger[i] by {
      assert forall i :: 0 <= i < |s.ledger| ==> r.ledger[..|s.ledger|][i] == r.ledger[i];
    }
  }

  lemma {:induction false} DoneThrough(s: State, order: Order, executions: seq<Execution>, now: Time, e: Execution, amount: int)
    requires LedgerReplay.NonNegative(s) && Done(s, order, e, amount)
    requires forall i :: 0 <= i < |executions| && executions[i].credits ==> executions[i].rule != e.rule
    requires Clawback(s, order, executions, now).Success?
    ensures Done(Clawback(s, order, executions, now).value.0, order, e, amount)
    decreases |executions|
  {
    if executions != [] {
      var rest := executions[1..];
      assert forall i :: 0 <= i < |rest| ==> rest[i] == executions[i + 1];
      if !executions[0].credits {
        DoneThrough(s, order, rest, now, e, amount);
      } else {
        var r := ClawbackOne(s, order, executions[0], now).value.0;
        OneIsDone(s, order, executions[0], now);
        DoneStays(s, r, order, e, amount, executions[0].rule);
        DoneThrough(r, order, rest, now, e, amount);
      }
    }
  }

  // Main result: clawing the same order back again, whenever, changes nothing and
  // reports the same amount.
  lemma {:induction false} ClawbackOnlyOnce(s: State, order: Order, executions: seq<Execution>, now: Time, again: Time)
    requires LedgerReplay.NonNegative(s)
    requires forall i, j :: 0 <= i < j < |executions| && executions[i].credits && executions[j].credits ==> executions[i].rule != executions[j].rule
    requires Clawback(s, order, executions, now).Success?
    ensures Clawback(Clawback(s, order, executions, now).value.0, order, executions, again) == Clawback(s, order, executions, now)
    decreases |executions|
  {
    if executions != [] {
      var rest := executions[1..];
      assert forall i :: 0 <= i < |rest| ==> rest[i] == executions[i + 1];
      if !executions[0].credits {
        ClawbackOnlyOnce(s, order, rest, now, again);
      } else {
        var one := ClawbackOne(s, order, executions[0], now).value;
        OneIsDone(s, order, executions[0], now);
        DoneThrough(one.0, order, rest, now, executions[0], one.1);
        ClawbackOnlyOnce(one.0, order, rest, now, again);
      }
    }
  }

  // ---------------------------------------------------------------- grants and their buckets

  // Every grant entry has a bucket, and no two the same.
  ghost predicate GrantsApart(ledger: seq<Transaction>) {
    && (forall i :: 0 <= i < |ledger| && ledger[i].kind == GrantEntry ==> ledger[i].bucket.Some?)
    && (forall i, j :: 0 <= i < j < |ledger| && ledger[i].kind == GrantEntry && ledger[j].kind == GrantEntry ==>
          ledger[i].bucket != ledger[j].bucket)
  }

  lemma OtherRowAppends(s: State, row: Row, now: Time)
    requires !row.OpenRow? && !row.GrantRow? && Post(s, row, now).Success?
    ensures var r := Post(s, row, now).value;
            |r.ledger| == |s.ledger| + 1 && r.ledger == s.ledger + [r.ledger[|s.ledger|]] && r.ledger[|s.ledger|].kind != GrantEntry
  {
  }

  lemma RowKeepsApart(s: State, row: Row, now: Time)
    requires RecordsSound(s) && GrantsApart(s.ledger) && Post(s, row, now).Success?
    ensures GrantsApart(Post(s, row, now).value.ledger)
  {
    var r := Post(s, row, now).value;
    match row
    case OpenRow(user) =>
    case GrantRow(user, amount, key, bucket) =>
      var t := r.ledger[|s.ledger|];
      assert r.ledger == s.ledger + [t] && t.bucket == Some(bucket.id) && bucket.id !in s.buckets;
      forall i | 0 <= i < |s.ledger| && s.ledger[i].kind == GrantEntry
        ensures s.ledger[i].bucket != t.bucket
      {
        assert EntrySound(s, s.ledger[i]);
      }
    case _ => OtherRowAppends(s, row, now);
  }

  lemma {:induction false} RowsKeepApart(s: State, rows: seq<Row>, now: Time, s': State)
    requires Balanced(s) && GrantsApart(s.ledger) && Posted(s, rows, now, s', true)
    ensures GrantsApart(s'.ledger)
    decreases |rows|
  {
    if rows != [] {
      RowKeeps(s, rows[0], now);
      RowKeepsApart(s, rows[0], now);
      RowsKeepApart(Post(s, rows[0], now).value, rows[1..], now, s');
    }
  }

  lemma {:induction false} RunKeepsApart(s: State, ops: seq<Operation>)
    requires Balanced(s) && GrantsApart(s.ledger) && RunBucketed(s, ops)
    ensures GrantsApart(Run(s, ops).ledger)
    decreases |ops|
  {
    if ops != [] {
      BalancedSolvent(s);
      var rows := OperationIsRows(s, ops[0], true);
      RowsKeepApart(s, rows, ops[0].now, Execute(s, ops[0]));
      OperationKeepsBalance(s, ops[0]);
      RunKeepsApart(Execute(s, ops[0]), ops[1..]);
    }
  }

  // The credit executions name different grants of the order's user.
  ghost predicate NamesGrants(s: State, order: Order, executions: seq<Execution>) {
    && (forall i :: 0 <= i < |executions| && executions[i].credits ==>
          Counts(s.ledger, order, executions[i]) && s.ledger[executions[i].resultRef.value].kind == GrantEntry)
    && (forall i, j :: 0 <= i < j < |executions| && executions[i].credits && executions[j].credits ==>
          executions[i].rule != executions[j].rule && executions[i].resultRef != executions[j].resultRef)
  }

  // Main result, over runs: whatever happened before, refunding an order whose
  // grants have not been clawed back takes what was predicted, once.
  lemma {:induction false} RefundAsPredicted(users: set<UserId>, ops: seq<Operation>, order: Order, executions: seq<Execution>,
                                             now: Time, again: Time)
    requires RunBucketed(Empty(users), ops)
    requires var s := Run(Empty(users), ops);
             order.user in s.accounts && NamesGrants(s, order, executions) && NotYetTaken(s, order, executions)
    ensures var s := Run(Empty(users), ops);
            var usage := Snapshot(s, order, executions);
            var effect := Clawback(s, order, executions, now);
            && effect.Success?
            && effect.value.1 == usage.available
            && usage.used + effect.value.1 == usage.granted
            && order.user in effect.value.0.accounts
            && effect.value.0.accounts[order.user].balance == s.accounts[order.user].balance - usage.available
            && Clawback(effect.value.0, order, executions, again) == effect
  {
    var s := Run(Empty(users), ops);
    EveryRunBalances(users, ops);
    RunKeepsApart(Empty(users), ops);
    LedgerReplay.EveryRunReplays(users, ops);
    NamedGrantsWellFormed(s, order, executions);
    PredictionIsEffect(s, order, executions, now);
    ClawbackOnlyOnce(s, order, executions, now, again);
  }

  lemma NamedGrantsWellFormed(s: State, order: Order, executions: seq<Execution>)
    requires GrantsApart(s.ledger) && NamesGrants(s, order, executions)
    ensures WellFormed(s, order, executions)
  {
    forall i, j | 0 <= i < j < |executions| && executions[i].credits && executions[j].credits
      ensures s.ledger[executions[i].resultRef.value].bucket != s.ledger[executions[j].resultRef.value].bucket
    {
      assert Counts(s.ledger, order, executions[i]) && Counts(s.ledger, order, executions[j]);
    }
  }
}
