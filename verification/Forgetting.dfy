/** Exactly when forgetting idle buckets cannot be noticed. */
module Forgetting {
  import opened RateLimit
  import opened AddressLimit

  // ---------------------------------------------------------------- when it cannot

  ghost predicate LevelsSane(limits: Limits, fills: Fills, clock: real) {
    forall a :: a in fills ==> 0.0 <= fills[a].tokens <= limits.maxTokens && fills[a].lastRefill <= clock
  }

  // The forgetful limiter has lost only buckets idle for long enough.
  ghost predicate Forgot(limits: Limits, kept: Fills, all: Fills, clock: real) {
    && kept.Keys <= all.Keys
    && (forall a :: a in kept ==> kept[a] == all[a])
    && (forall a :: a in all && a !in kept ==> Idle(all[a], clock))
    && LevelsSane(limits, all, clock)
  }

  ghost predicate RefillsWhileIdle(limits: Limits) {
    limits.maxTokens <= Inflow(limits, IDLE_SECONDS)
  }

  lemma InflowMonotone(limits: Limits, x: real, y: real)
    requires 0.0 <= limits.refillRate && x <= y
    ensures Inflow(limits, x) <= Inflow(limits, y)
  {
    InflowPositive(limits, y - x);
    InflowAdds(limits, x, y - x);
  }

  lemma IdleMeansFull(limits: Limits, b: Fill, now: real)
    requires Sane(limits) && RefillsWhileIdle(limits) && 0.0 <= b.tokens && Idle(b, now)
    ensures Refill(limits, b, now) == limits.maxTokens
  {
    InflowMonotone(limits, IDLE_SECONDS, now - b.lastRefill);
  }

  lemma FreshMeansFull(limits: Limits, looked: real, now: real)
    requires Sane(limits) && looked <= now
    ensures Refill(limits, Full(limits, looked), now) == limits.maxTokens
  {
    InflowPositive(limits, now - looked);
  }

  lemma AfterSane(limits: Limits, b: Fill, now: real)
    requires Sane(limits) && 0.0 <= b.tokens <= limits.maxTokens && b.lastRefill <= now
    ensures 0.0 <= After(limits, b, now).tokens <= limits.maxTokens && After(limits, b, now).lastRefill == now
  {
    InflowPositive(limits, now - b.lastRefill);
  }

  lemma RequestAgrees(limits: Limits, kept: Fills, all: Fills, clock: real, e: Event)
    requires Sane(limits) && RefillsWhileIdle(limits) && Forgot(limits, kept, all, clock)
    requires e.Request? && clock <= e.looked <= e.now
    ensures var mine, theirs := LookUp(limits, kept, e.address, e.looked), LookUp(limits, all, e.address, e.looked);
            && Allows(limits, mine, e.now) == Allows(limits, theirs, e.now)
            && After(limits, mine, e.now) == After(limits, theirs, e.now)
    ensures Forgot(limits, Serve(limits, kept, e), Serve(limits, all, e), e.now)
  {
    FreshMeansFull(limits, e.looked, e.now);
    if e.address in all && e.address !in kept {
      IdleMeansFull(limits, all[e.address], e.now);
    }
    AfterSane(limits, LookUp(limits, all, e.address, e.looked), e.now);
  }

  lemma {:induction false} AnswersAgree(limits: Limits, kept: Fills, all: Fills, clock: real, events: seq<Event>)
    requires Sane(limits) && RefillsWhileIdle(limits) && Forgot(limits, kept, all, clock) && InOrder(clock, events)
    ensures Answers(limits, kept, events) == Answers(limits, all, RequestsOnly(events))
    decreases |events|
  {
    if events != [] {
      var e := events[0];
      if e.Cleanup? {
        AnswersAgree(limits, Serve(limits, kept, e), all, e.now, events[1..]);
      } else {
        RequestAgrees(limits, kept, all, clock, e);
        AnswersAgree(limits, Serve(limits, kept, e), Serve(limits, all, e), e.now, events[1..]);
        assert ([e] + RequestsOnly(events[1..]))[1..] == RequestsOnly(events[1..]);
      }
    }
  }

  // A bucket that holds less than one token at best never allows anything.
  lemma {:induction false} NothingAllowed(limits: Limits, fills: Fills, events: seq<Event>)
    requires limits.maxTokens < 1.0
    ensures forall i :: 0 <= i < |Answers(limits, fills, events)| ==> !Answers(limits, fills, events)[i]
    ensures |Answers(limits, fills, events)| == |RequestsOnly(events)|
    decreases |events|
  {
    if events != [] {
      NothingAllowed(limits, Serve(limits, fills, events[0]), events[1..]);
    }
  }

  lemma {:induction false} RequestsOnlyTwice(events: seq<Event>)
    ensures RequestsOnly(RequestsOnly(events)) == RequestsOnly(events)
    decreases |events|
  {
    if events != [] {
      RequestsOnlyTwice(events[1..]);
      if events[0].Request? {
        assert ([events[0]] + RequestsOnly(events[1..]))[1..] == RequestsOnly(events[1..]);
      }
    }
  }

  // ---------------------------------------------------------------- when it can

  function Calls(address: string, times: seq<real>): seq<Event> {
    if times == [] then [] else [Request(address, times[0], times[0])] + Calls(address, times[1..])
  }

  function Count(answers: seq<bool>): nat {
    if answers == [] then 0 else (if answers[0] then 1 else 0) + Count(answers[1..])
  }

  function Times(now: real, n: nat): seq<real> {
    if n == 0 then [] else [now] + Times(now, n - 1)
  }

  // With a single address the limiter is that address's bucket.
  lemma {:induction false} OneAddress(limits: Limits, fills: Fills, address: string, times: seq<real>)
    requires address in fills
    ensures Count(Answers(limits, fills, Calls(address, times))) == Allowed(limits, fills[address], times)
    ensures RequestsOnly(Calls(address, times)) == Calls(address, times)
    decreases |times|
  {
    if times != [] {
      var e := Request(address, times[0], times[0]);
      assert Calls(address, times)[0] == e && Calls(address, times)[1..] == Calls(address, times[1..]);
      var next := Serve(limits, fills, e);
      OneAddress(limits, next, address, times[1..]);
      assert Answers(limits, fills, Calls(address, times))
          == [Allows(limits, fills[address], times[0])] + Answers(limits, next, Calls(address, times[1..]));
    }
  }

  lemma {:induction false} CallsStep(address: string, times: seq<real>, rest: seq<Event>)
    requires times != []
    ensures var events := Calls(address, times) + rest;
            events != [] && events[0] == Request(address, times[0], times[0]) && events[1..] == Calls(address, times[1..]) + rest
  {
    TailOfSum(Calls(address, times), rest);
    assert Calls(address, times)[1..] == Calls(address, times[1..]);
  }

  lemma TailOfSum(a: seq<Event>, b: seq<Event>)
    requires a != []
    ensures (a + b)[0] == a[0] && (a + b)[1..] == a[1..] + b
  {
  }

  lemma {:induction false} OrderedCalls(clock: real, address: string, times: seq<real>, rest: seq<Event>)
    requires Ascending(clock, times) && InOrder(Last(clock, times), rest)
    ensures InOrder(clock, Calls(address, times) + rest)
    decreases |times|
  {
    if times == [] {
      assert Calls(address, times) + rest == rest;
    } else {
      CallsStep(address, times, rest);
      OrderedCalls(times[0], address, times[1..], rest);
    }
  }

  lemma {:induction false} CallsAreRequests(address: string, times: seq<real>, rest: seq<Event>)
    ensures RequestsOnly(Calls(address, times) + rest) == Calls(address, times) + RequestsOnly(rest)
    decreases |times|
  {
    if times == [] {
      assert Calls(address, times) + rest == rest;
    } else {
      CallsStep(address, times, rest);
      CallsAreRequests(address, times[1..], rest);
    }
  }

  // One call answered, the rest to come.
  lemma AnswersStep(limits: Limits, fills: Fills, address: string, times: seq<real>, rest: seq<Event>)
    requires times != [] && address in fills
    ensures Answers(limits, fills, Calls(address, times) + rest)
         == [Allows(limits, fills[address], times[0])]
            + Answers(limits, fills[address := After(limits, fills[address], times[0])], Calls(address, times[1..]) + rest)
  {
    CallsStep(address, times, rest);
  }

  lemma {:induction false} AnswersAppend(limits: Limits, fills: Fills, address: string, times: seq<real>, rest: seq<Event>)
    requires address in fills
    ensures Answers(limits, fills, Calls(address, times) + rest)
         == Answers(limits, fills, Calls(address, times))
            + Answers(limits, fills[address := RunBucket(limits, fills[address], times)], rest)
    decreases |times|
  {
    if times == [] {
      assert Calls(address, times) + rest == rest;
      assert fills[address := fills[address]] == fills;
    } else {
      var next := fills[address := After(limits, fills[address], times[0])];
      AnswersStep(limits, fills, address, times, rest);
      AnswersStep(limits, fills, address, times, []);
      assert Calls(address, times) + [] == Calls(address, times) && Calls(address, times[1..]) + [] == Calls(address, times[1..]);
      AnswersAppend(limits, next, address, times[1..], rest);
      assert next[address := RunBucket(limits, next[address], times[1..])] == fills[address := RunBucket(limits, fills[address], times)];
    }
  }

  // n calls at one moment, from n tokens and a fraction.
  lemma {:induction false} Drain(limits: Limits, b: Fill, n: nat)
    requires n as real <= b.tokens <= limits.maxTokens
    ensures Allowed(limits, b, Times(b.lastRefill, n)) == n
    ensures RunBucket(limits, b, Times(b.lastRefill, n)) == Fill(b.tokens - n as real, b.lastRefill)
    decreases n
  {
    if n > 0 {
      InflowAdds(limits, 0.0, 0.0);
      var times := Times(b.lastRefill, n);
      assert times[1..] == Times(b.lastRefill, n - 1);
      var c := After(limits, b, times[0]);
      assert c == Fill(b.tokens - 1.0, b.lastRefill);
      Drain(limits, c, n - 1);
    }
  }

  // A first call creates the bucket it then uses.
  lemma FirstCall(limits: Limits, fills: Fills, address: string, times: seq<real>, rest: seq<Event>)
    requires times != [] && address !in fills
    ensures Answers(limits, fills, Calls(address, times) + rest)
         == Answers(limits, fills[address := Full(limits, times[0])], Calls(address, times) + rest)
  {
    var full := fills[address := Full(limits, times[0])];
    var e := Request(address, times[0], times[0]);
    assert Serve(limits, fills, e) == Serve(limits, full, e);
    assert (Calls(address, times) + rest)[0] == e;
  }

  // Calls that drain the bucket, a pause that gets it forgotten, and calls that
  // probe it: if the probes fare differently, forgetting is noticed.
  lemma Noticed(limits: Limits, drain: seq<real>, pause: real, probes: seq<real>)
    requires drain != [] && probes != [] && Ascending(drain[0], drain) && Ascending(pause, probes)
    requires var b := RunBucket(limits, Full(limits, drain[0]), drain);
             && Idle(b, pause) && Last(drain[0], drain) <= pause
             && Allowed(limits, Full(limits, probes[0]), probes) != Allowed(limits, b, probes)
    ensures !ForgettingUnobservable(limits)
  {
    var full := map["a" := Full(limits, drain[0])];
    var b := RunBucket(limits, Full(limits, drain[0]), drain);
    var after := map["a" := b];
    assert full["a" := b] == after;
    var tail := [Cleanup(pause)] + Calls("a", probes);
    var events := Calls("a", drain) + tail;
    assert tail[1..] == Calls("a", probes);
    // with cleanup
    FirstCall(limits, map[], "a", drain, tail);
    assert map[]["a" := Full(limits, drain[0])] == full;
    AnswersAppend(limits, full, "a", drain, tail);
    assert Serve(limits, after, Cleanup(pause)) == map[];
    ProbeEmpty(limits, probes);
    // without
    OneAddress(limits, after, "a", probes);
    var plain := Calls("a", drain) + Calls("a", probes);
    assert RequestsOnly(tail) == Calls("a", probes);
    CallsAreRequests("a", drain, tail);
    assert RequestsOnly(events) == plain;
    FirstCall(limits, map[], "a", drain, Calls("a", probes));
    AnswersAppend(limits, full, "a", drain, Calls("a", probes));
    // the answers to the probes differ
    var common := Answers(limits, full, Calls("a", drain));
    var mine, theirs := Answers(limits, map[], Calls("a", probes)), Answers(limits, after, Calls("a", probes));
    assert Answers(limits, map[], events) == common + mine;
    assert Answers(limits, map[], plain) == common + theirs;
    SuffixDiffers(common, mine, theirs);
    // and the events are in order
    assert Calls("a", probes) + [] == Calls("a", probes);
    OrderedCalls(pause, "a", probes, []);
    assert InOrder(Last(drain[0], drain), tail);
    OrderedCalls(drain[0], "a", drain, tail);
    assert InOrder(drain[0], events);
  }

  lemma SuffixDiffers(common: seq<bool>, mine: seq<bool>, theirs: seq<bool>)
    requires Count(mine) != Count(theirs)
    ensures common + mine != common + theirs
  {
    assert (common + mine)[|common|..] == mine;
    assert (common + theirs)[|common|..] == theirs;
  }

  lemma ProbeEmpty(limits: Limits, probes: seq<real>)
    requires probes != []
    ensures Count(Answers(limits, map[], Calls("a", probes))) == Allowed(limits, Full(limits, probes[0]), probes)
  {
    var full := map["a" := Full(limits, probes[0])];
    FirstCall(limits, map[], "a", probes, []);
    assert Calls("a", probes) + [] == Calls("a", probes);
    assert map[]["a" := Full(limits, probes[0])] == full;
    OneAddress(limits, full, "a", probes);
  }

  lemma {:induction false} TimesAscend(now: real, n: nat)
    ensures Ascending(now, Times(now, n)) && Last(now, Times(now, n)) == now
    ensures n > 0 ==> Times(now, n) != [] && Times(now, n)[0] == now
    decreases n
  {
    if n > 0 {
      TimesAscend(now, n - 1);
      assert Times(now, n)[1..] == Times(now, n - 1);
    }
  }

  lemma {:induction false} AscendingThen(from: real, times: seq<real>, later: real)
    requires Ascending(from, times) && Last(from, times) <= later
    ensures Ascending(from, times + [later]) && Last(from, times + [later]) == later
    decreases |times|
  {
    if times == [] {
      assert times + [later] == [later];
    } else {
      AscendingThen(times[0], times[1..], later);
      assert (times + [later])[1..] == times[1..] + [later];
    }
  }

  // From a full bucket at one moment: as many calls as whole tokens, and one more
  // as soon as the next token is complete.
  lemma {:induction false} FullThenOne(limits: Limits, start: real, wait: real)
    requires limits.maxTokens >= 1.0 && Sane(limits) && 0.0 <= wait
    requires Inflow(limits, wait) == 1.0 - (limits.maxTokens - limits.maxTokens.Floor as real)
    ensures var n := limits.maxTokens.Floor as nat;
            var times := Times(start, n) + [start + wait];
            && Allowed(limits, Full(limits, start), times) == n + 1
            && RunBucket(limits, Full(limits, start), times) == Fill(0.0, start + wait)
            && Ascending(start, times) && times[0] == start && Last(start, times) == start + wait
  {
    var n := limits.maxTokens.Floor as nat;
    var full := Full(limits, start);
    Drain(limits, full, n);
    RunAppend(limits, full, Times(start, n), [start + wait]);
    var b := RunBucket(limits, full, Times(start, n));
    assert Refill(limits, b, start + wait) == 1.0;
    assert [start + wait][1..] == [];
    TimesAscend(start, n);
    AscendingThen(start, Times(start, n), start + wait);
  }

  // A positive rate that is too slow: drain to nothing, idle a little over the
  // limit, and probe for the next-but-last token.
  lemma SlowRateNoticed(limits: Limits)
    requires Sane(limits) && limits.maxTokens >= 1.0 && limits.refillRate > 0.0 && !RefillsWhileIdle(limits)
    ensures !ForgettingUnobservable(limits)
  {
    var n := limits.maxTokens.Floor as nat;
    var f := limits.maxTokens - n as real;
    var wait := (1.0 - f) / limits.refillRate;
    var gap := IDLE_SECONDS + (limits.maxTokens - Inflow(limits, IDLE_SECONDS)) / (2.0 * limits.refillRate);
    assert Inflow(limits, wait) == 1.0 - f;
    HalfwayGap(limits);
    var pause := wait + gap;
    FullThenOne(limits, 0.0, wait);
    FullThenOne(limits, pause, wait);
    var drain := Times(0.0, n) + [0.0 + wait];
    var probes := Times(pause, n) + [pause + wait];
    var b := RunBucket(limits, Full(limits, 0.0), drain);
    assert Ascending(b.lastRefill, probes);
    TokensConserved(limits, b, probes);
    InflowAdds(limits, gap, wait);
    assert RunBucket(limits, b, probes).lastRefill - b.lastRefill == gap + wait;
    assert Allowed(limits, b, probes) as real < limits.maxTokens + 1.0 - f;
    Noticed(limits, drain, pause, probes);
  }

  lemma HalfwayGap(limits: Limits)
    requires limits.refillRate > 0.0 && Inflow(limits, IDLE_SECONDS) < limits.maxTokens
    ensures var gap := IDLE_SECONDS + (limits.maxTokens - Inflow(limits, IDLE_SECONDS)) / (2.0 * limits.refillRate);
            IDLE_SECONDS < gap && Inflow(limits, gap) < limits.maxTokens
  {
    var missing := limits.maxTokens - Inflow(limits, IDLE_SECONDS);
    var extra := missing / (2.0 * limits.refillRate);
    assert extra > 0.0;
    InflowAdds(limits, IDLE_SECONDS, extra);
    assert Inflow(limits, extra) == missing / 2.0;
  }

  // Without any refill a drained address is blocked for good, unless forgotten.
  lemma NoRefillNoticed(limits: Limits)
    requires Sane(limits) && limits.maxTokens >= 1.0 && limits.refillRate == 0.0
    ensures !ForgettingUnobservable(limits)
  {
    var n := limits.maxTokens.Floor as nat;
    var pause := IDLE_SECONDS + 1.0;
    var drain, probes := Times(0.0, n), [pause];
    TimesAscend(0.0, n);
    Drain(limits, Full(limits, 0.0), n);
    var b := RunBucket(limits, Full(limits, 0.0), drain);
    assert Refill(limits, b, pause) < 1.0;
    assert probes[1..] == [];
    InflowAdds(limits, 0.0, 0.0);
    Noticed(limits, drain, pause, probes);
  }

  // Main result: clients cannot notice that idle buckets are forgotten exactly when
  // a bucket refills completely within the idle time - or never holds a token.
  lemma ForgettingDecided(limits: Limits)
    requires Sane(limits)
    ensures ForgettingUnobservable(limits) <==> limits.maxTokens < 1.0 || RefillsWhileIdle(limits)
  {
    if limits.maxTokens < 1.0 {
      forall events, start | InOrder(start, events)
        ensures Answers(limits, map[], events) == Answers(limits, map[], RequestsOnly(events))
      {
        NothingAllowed(limits, map[], events);
        NothingAllowed(limits, map[], RequestsOnly(events));
        RequestsOnlyTwice(events);
      }
    } else if RefillsWhileIdle(limits) {
      forall events, start | InOrder(start, events)
        ensures Answers(limits, map[], events) == Answers(limits, map[], RequestsOnly(events))
      {
        AnswersAgree(limits, map[], map[], start, events);
      }
    } else if limits.refillRate > 0.0 {
      SlowRateNoticed(limits);
    } else {
      NoRefillNoticed(limits);
    }
  }
}
