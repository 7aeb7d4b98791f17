/** Token buckets per client address. Times are seconds, as reals; rounding is not
    modelled. */
module RateLimit {

  datatype Fill = Fill(tokens: real, lastRefill: real)

  datatype Limits = Limits(maxTokens: real, refillRate: real)

  function Full(limits: Limits, now: real): Fill {
    Fill(limits.maxTokens, now)
  }

  function Inflow(limits: Limits, seconds: real): real {
    seconds * limits.refillRate
  }

  function Refill(limits: Limits, b: Fill, now: real): real {
    var tokens := b.tokens + Inflow(limits, now - b.lastRefill);
    if tokens > limits.maxTokens then limits.maxTokens else tokens
  }

  function Allows(limits: Limits, b: Fill, now: real): bool {
    Refill(limits, b, now) >= 1.0
  }

  function After(limits: Limits, b: Fill, now: real): Fill {
    Fill(if Allows(limits, b, now) then Refill(limits, b, now) - 1.0 else Refill(limits, b, now), now)
  }

  // ---------------------------------------------------------------- one bucket

  class TokenBucket {
    const limits: Limits
    var tokens: real
    var lastRefill: real

    function Current(): Fill
      reads this
    {
      Fill(tokens, lastRefill)
    }

    constructor (limits: Limits, now: real)
      ensures this.limits == limits && Current() == Full(limits, now)
    {
      this.limits := limits;
      tokens := limits.maxTokens;
      lastRefill := now;
    }

    method Allow(now: real) returns (allowed: bool)
      modifies this
      ensures allowed == Allows(limits, old(Current()), now)
      ensures Current() == After(limits, old(Current()), now)
      ensures tokens == Refill(limits, old(Current()), now) - if allowed then 1.0 else 0.0
    {
      var elapsed := now - lastRefill;
      tokens := tokens + Inflow(limits, elapsed);
      if tokens > limits.maxTokens {
        tokens := limits.maxTokens;
      }
      lastRefill := now;
      if tokens >= 1.0 {
        tokens := tokens - 1.0;
        return true;
      }
      return false;
    }
  }

  // ---------------------------------------------------------------- windows

  ghost predicate Sane(limits: Limits) {
    0.0 <= limits.maxTokens && 0.0 <= limits.refillRate
  }

  ghost predicate Ascending(from: real, times: seq<real>)
    decreases |times|
  {
    times == [] || (from <= times[0] && Ascending(times[0], times[1..]))
  }

  function RunBucket(limits: Limits, b: Fill, times: seq<real>): Fill
    decreases |times|
  {
    if times == [] then b else RunBucket(limits, After(limits, b, times[0]), times[1..])
  }

  // How many of the calls are allowed.
  function Allowed(limits: Limits, b: Fill, times: seq<real>): nat
    decreases |times|
  {
    if times == [] then 0
    else (if Allows(limits, b, times[0]) then 1 else 0) + Allowed(limits, After(limits, b, times[0]), times[1..])
  }

  function Last(from: real, times: seq<real>): real {
    if times == [] then from else times[|times| - 1]
  }

  // Tokens spent and left never exceed what there was plus what flowed in.
  lemma {:induction false} TokensConserved(limits: Limits, b: Fill, times: seq<real>)
    requires Sane(limits) && 0.0 <= b.tokens <= limits.maxTokens && Ascending(b.lastRefill, times)
    ensures var r := RunBucket(limits, b, times);
            && 0.0 <= r.tokens <= limits.maxTokens
            && r.lastRefill == Last(b.lastRefill, times) && b.lastRefill <= r.lastRefill
            && Allowed(limits, b, times) as real + r.tokens <= b.tokens + Inflow(limits, r.lastRefill - b.lastRefill)
    decreases |times|
  {
    if times == [] {
      InflowAdds(limits, 0.0, 0.0);
    } else {
      var c := After(limits, b, times[0]);
      InflowPositive(limits, times[0] - b.lastRefill);
      TokensConserved(limits, c, times[1..]);
      InflowAdds(limits, RunBucket(limits, b, times).lastRefill - c.lastRefill, c.lastRefill - b.lastRefill);
    }
  }

  lemma InflowPositive(limits: Limits, seconds: real)
    requires 0.0 <= limits.refillRate && 0.0 <= seconds
    ensures 0.0 <= Inflow(limits, seconds)
  {
  }

  lemma InflowAdds(limits: Limits, x: real, y: real)
    ensures Inflow(limits, x + y) == Inflow(limits, x) + Inflow(limits, y)
    ensures Inflow(limits, 0.0) == 0.0
  {
  }

  lemma {:induction false} RunAppend(limits: Limits, b: Fill, first: seq<real>, second: seq<real>)
    ensures RunBucket(limits, b, first + second) == RunBucket(limits, RunBucket(limits, b, first), second)
    ensures Allowed(limits, b, first + second) == Allowed(limits, b, first) + Allowed(limits, RunBucket(limits, b, first), second)
    decreases |first|
  {
    if first == [] {
      assert first + second == second;
    } else {
      RunAppend(limits, After(limits, b, first[0]), first[1..], second);
      assert (first + second)[1..] == first[1..] + second;
    }
  }

  lemma {:induction false} AscendingSplit(from: real, first: seq<real>, second: seq<real>)
    requires Ascending(from, first + second)
    ensures Ascending(from, first) && Ascending(Last(from, first), second)
    decreases |first|
  {
    if first == [] {
      assert first + second == second;
    } else {
      assert (first + second)[1..] == first[1..] + second;
      AscendingSplit(first[0], first[1..], second);
    }
  }

  // Main result: whatever came before, the calls of any window are allowed at most
  // maxTokens plus refillRate times the window's length.
  lemma {:induction false} WindowBound(limits: Limits, start: real, before: seq<real>, window: seq<real>)
    requires Sane(limits) && Ascending(start, before + window) && window != []
    ensures Allowed(limits, RunBucket(limits, Full(limits, start), before), window) as real
         <= limits.maxTokens + Inflow(limits, window[|window| - 1] - window[0])
  {
    AscendingSplit(start, before, window);
    TokensConserved(limits, Full(limits, start), before);
    WindowFrom(limits, RunBucket(limits, Full(limits, start), before), window);
  }

  // The first call of the window finds at most a full bucket.
  lemma {:induction false} WindowFrom(limits: Limits, b: Fill, window: seq<real>)
    requires Sane(limits) && window != [] && 0.0 <= b.tokens <= limits.maxTokens && Ascending(b.lastRefill, window)
    ensures Allowed(limits, b, window) as real <= limits.maxTokens + Inflow(limits, window[|window| - 1] - window[0])
  {
    var c := Fill(Refill(limits, b, window[0]), window[0]);
    InflowPositive(limits, window[0] - b.lastRefill);
    SameFromRefilled(limits, b, window);
    TokensConserved(limits, c, window);
  }

  lemma SameFromRefilled(limits: Limits, b: Fill, window: seq<real>)
    requires window != []
    ensures var c := Fill(Refill(limits, b, window[0]), window[0]);
            && RunBucket(limits, c, window) == RunBucket(limits, b, window)
            && Allowed(limits, c, window) == Allowed(limits, b, window)
  {
    var c := Fill(Refill(limits, b, window[0]), window[0]);
    InflowAdds(limits, 0.0, 0.0);
    assert Refill(limits, c, window[0]) == Refill(limits, b, window[0]);
  }

  ghost predicate Spaced(limits: Limits, from: real, times: seq<real>)
    decreases |times|
  {
    times == [] || (Inflow(limits, times[0] - from) >= 1.0 && Spaced(limits, times[0], times[1..]))
  }

  lemma {:induction false} SpacedAllowedFrom(limits: Limits, b: Fill, times: seq<real>)
    requires limits.maxTokens >= 1.0 && 0.0 <= b.tokens && Spaced(limits, b.lastRefill, times)
    ensures Allowed(limits, b, times) == |times|
    decreases |times|
  {
    if times != [] {
      SpacedAllowedFrom(limits, After(limits, b, times[0]), times[1..]);
    }
  }

  // Main result: requests at least 1/refillRate apart are all allowed.
  lemma {:induction false} SpacedRequestsAllowed(limits: Limits, start: real, first: real, times: seq<real>)
    requires Sane(limits) && limits.maxTokens >= 1.0 && start <= first && Spaced(limits, first, times)
    ensures Allowed(limits, Full(limits, start), [first] + times) == 1 + |times|
  {
    var b := Full(limits, start);
    InflowPositive(limits, first - start);
    SpacedAllowedFrom(limits, After(limits, b, first), times);
    assert ([first] + times)[1..] == times;
  }
}
