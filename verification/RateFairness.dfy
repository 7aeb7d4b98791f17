/** What a caller is owed: tokens are neither made nor lost but at the cap, and a denied
    call costs nothing. */
module RateFairness {
  import opened RateLimit

  // ---------------------------------------------------------------- the account of a bucket

  function Over(limits: Limits, b: Fill, now: real): real {
    var tokens := b.tokens + Inflow(limits, now - b.lastRefill);
    if tokens > limits.maxTokens then tokens - limits.maxTokens else 0.0
  }

  // What flowed in while the bucket was full.
  function Spilled(limits: Limits, b: Fill, times: seq<real>): real
    decreases |times|
  {
    if times == [] then 0.0 else Over(limits, b, times[0]) + Spilled(limits, After(limits, b, times[0]), times[1..])
  }

  // Main result: tokens left, calls allowed and what was spilled make up exactly what
  // there was and what flowed in, however many calls were denied.
  lemma {:induction false} TokensAccounted(limits: Limits, b: Fill, times: seq<real>)
    ensures var r := RunBucket(limits, b, times);
            && r.lastRefill == Last(b.lastRefill, times)
            && Allowed(limits, b, times) as real + r.tokens + Spilled(limits, b, times) == b.tokens + Inflow(limits, r.lastRefill - b.lastRefill)
    decreases |times|
  {
    InflowAdds(limits, 0.0, 0.0);
    if times != [] {
      var c := After(limits, b, times[0]);
      TokensAccounted(limits, c, times[1..]);
      InflowAdds(limits, RunBucket(limits, b, times).lastRefill - c.lastRefill, c.lastRefill - b.lastRefill);
    }
  }

  // ---------------------------------------------------------------- bursts

  function AtOnce(n: nat, now: real): seq<real> {
    seq(n, _ => now)
  }

  lemma {:induction false} BurstFrom(limits: Limits, b: Fill, n: nat)
    requires Sane(limits) && 0.0 <= b.tokens <= limits.maxTokens
    ensures Allowed(limits, b, AtOnce(n, b.lastRefill)) == if n as real <= b.tokens then n else b.tokens.Floor
    decreases n
  {
    if n > 0 {
      InflowAdds(limits, 0.0, 0.0);
      assert AtOnce(n, b.lastRefill)[1..] == AtOnce(n - 1, b.lastRefill);
      BurstFrom(limits, After(limits, b, b.lastRefill), n - 1);
    }
  }

  // Main result: of any number of calls at once as many are allowed as there are whole
  // tokens.
  lemma BurstAllowed(limits: Limits, b: Fill, n: nat, now: real)
    requires Sane(limits) && 0.0 <= b.tokens && b.lastRefill <= now
    ensures var level := Refill(limits, b, now);
            Allowed(limits, b, AtOnce(n, now)) == if n as real <= level then n else level.Floor
  {
    InflowPositive(limits, now - b.lastRefill);
    BurstFrom(limits, Fill(Refill(limits, b, now), now), n);
    if n > 0 {
      SameFromRefilled(limits, b, AtOnce(n, now));
    }
  }

  // ---------------------------------------------------------------- denied calls

  function Answers(limits: Limits, b: Fill, times: seq<real>): seq<bool>
    decreases |times|
  {
    if times == [] then [] else [Allows(limits, b, times[0])] + Answers(limits, After(limits, b, times[0]), times[1..])
  }

  // From then on every call finds the same in both.
  ghost predicate Alike(limits: Limits, b: Fill, c: Fill, from: real) {
    forall now :: from <= now ==> Refill(limits, b, now) == Refill(limits, c, now)
  }

  lemma DenialAlike(limits: Limits, b: Fill, now: real)
    requires Sane(limits) && !Allows(limits, b, now)
    ensures Alike(limits, After(limits, b, now), b, now)
  {
    forall later | now <= later
      ensures Refill(limits, After(limits, b, now), later) == Refill(limits, b, later)
    {
      InflowPositive(limits, later - now);
      InflowAdds(limits, later - now, now - b.lastRefill);
    }
  }

  lemma AlikeAfter(limits: Limits, b: Fill, c: Fill, from: real, now: real)
    requires Alike(limits, b, c, from) && from <= now
    ensures Allows(limits, b, now) == Allows(limits, c, now) && After(limits, b, now) == After(limits, c, now)
  {
  }

  lemma {:induction false} AlikeAnswers(limits: Limits, b: Fill, c: Fill, from: real, times: seq<real>)
    requires Alike(limits, b, c, from) && Ascending(from, times)
    ensures Answers(limits, b, times) == Answers(limits, c, times)
    ensures Alike(limits, RunBucket(limits, b, times), RunBucket(limits, c, times), Last(from, times))
    decreases |times|
  {
    if times != [] {
      AlikeAfter(limits, b, c, from, times[0]);
    }
  }

  lemma {:induction false} AnswersAppend(limits: Limits, b: Fill, first: seq<real>, second: seq<real>)
    ensures Answers(limits, b, first + second) == Answers(limits, b, first) + Answers(limits, RunBucket(limits, b, first), second)
    decreases |first|
  {
    if first == [] {
      assert first + second == second;
    } else {
      assert (first + second)[1..] == first[1..] + second;
      AnswersAppend(limits, After(limits, b, first[0]), first[1..], second);
    }
  }

  // Main result: a denied call leaves no trace. Without it all others get the answers
  // they got, and the next call finds the same level.
  lemma DenialUnobservable(limits: Limits, b: Fill, before: seq<real>, now: real, after: seq<real>)
    requires Sane(limits) && Ascending(b.lastRefill, before + ([now] + after)) && !Allows(limits, RunBucket(limits, b, before), now)
    ensures Answers(limits, b, before + ([now] + after))
         == Answers(limits, b, before) + ([false] + Answers(limits, RunBucket(limits, b, before), after))
    ensures Answers(limits, b, before + after) == Answers(limits, b, before) + Answers(limits, RunBucket(limits, b, before), after)
    ensures Alike(limits, RunBucket(limits, b, before + ([now] + after)), RunBucket(limits, b, before + after), Last(now, after))
  {
    var c := RunBucket(limits, b, before);
    var d := After(limits, c, now);
    AscendingSplit(b.lastRefill, before, [now] + after);
    assert ([now] + after)[1..] == after;
    DenialAlike(limits, c, now);
    AlikeAnswers(limits, d, c, now, after);
    AnswersAppend(limits, b, before, [now] + after);
    AnswersAppend(limits, b, before, after);
    RunAppend(limits, b, before, [now] + after);
    RunAppend(limits, b, before, after);
    assert Answers(limits, c, [now] + after) == [false] + Answers(limits, d, after);
    assert RunBucket(limits, c, [now] + after) == RunBucket(limits, d, after);
  }

  lemma {:induction false} DenialsAlike(limits: Limits, b: Fill, times: seq<real>)
    requires Sane(limits) && Ascending(b.lastRefill, times) && Allowed(limits, b, times) == 0
    ensures Alike(limits, RunBucket(limits, b, times), b, Last(b.lastRefill, times)) && b.lastRefill <= Last(b.lastRefill, times)
    decreases |times|
  {
    if times != [] {
      var c := After(limits, b, times[0]);
      DenialAlike(limits, b, times[0]);
      DenialsAlike(limits, c, times[1..]);
    }
  }

  // So a call is allowed as soon as one token's time has passed since the last one that
  // was, however many were denied in between.
  lemma AllowedAgain(limits: Limits, b: Fill, allowed: real, denied: seq<real>, now: real)
    requires Sane(limits) && limits.maxTokens >= 1.0 && Allows(limits, b, allowed)
    requires Ascending(allowed, denied) && Allowed(limits, After(limits, b, allowed), denied) == 0
    requires Last(allowed, denied) <= now && Inflow(limits, now - allowed) >= 1.0
    ensures Allows(limits, RunBucket(limits, After(limits, b, allowed), denied), now)
  {
    var c := After(limits, b, allowed);
    DenialsAlike(limits, c, denied);
    assert Refill(limits, RunBucket(limits, c, denied), now) == Refill(limits, c, now);
  }
}
