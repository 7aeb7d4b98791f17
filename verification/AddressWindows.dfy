/** How many requests of one address any stretch of a run lets through, with the
    requests of other addresses and the forgetting of idle buckets in between. */
module AddressWindows {
  import opened RateLimit
  import opened AddressLimit
  import opened Forgetting

  function ServeAll(limits: Limits, fills: Fills, events: seq<Event>): Fills
    decreases |events|
  {
    if events == [] then fills else ServeAll(limits, Serve(limits, fills, events[0]), events[1..])
  }

  // The answers that let a request of this address through.
  function Granted(events: seq<Event>, answers: seq<bool>, address: string): nat
    decreases |events|
  {
    if events == [] || answers == [] then 0
    else if events[0].Cleanup? then Granted(events[1..], answers, address)
    else (if events[0].address == address && answers[0] then 1 else 0) + Granted(events[1..], answers[1..], address)
  }

  predicate Forgets(fills: Fills, e: Event, address: string) {
    e.Cleanup? && address in fills && Idle(fills[address], e.now)
  }

  // What a forgotten bucket lacked: the next request finds a full one.
  function GivenNow(limits: Limits, fills: Fills, e: Event, address: string): real {
    if Forgets(fills, e, address) then limits.maxTokens - Refill(limits, fills[address], e.now) else 0.0
  }

  // The same over a run.
  function GivenAway(limits: Limits, fills: Fills, events: seq<Event>, address: string): real
    decreases |events|
  {
    if events == [] then 0.0
    else GivenNow(limits, fills, events[0], address) + GivenAway(limits, Serve(limits, fills, events[0]), events[1..], address)
  }

  function End(clock: real, events: seq<Event>): real {
    if events == [] then clock else events[|events| - 1].now
  }

  // The tokens a request of this address would find.
  function Level(limits: Limits, fills: Fills, address: string, now: real): real {
    if address in fills then Refill(limits, fills[address], now) else limits.maxTokens
  }

  // ---------------------------------------------------------------- one event

  lemma RefillGrows(limits: Limits, b: Fill, clock: real, now: real)
    requires Sane(limits) && clock <= now
    ensures Refill(limits, b, now) <= Refill(limits, b, clock) + Inflow(limits, now - clock)
    ensures Refill(limits, b, clock) <= Refill(limits, b, now)
  {
    InflowAdds(limits, clock - b.lastRefill, now - clock);
    InflowPositive(limits, now - clock);
  }

  function GrantedNow(limits: Limits, fills: Fills, e: Event, address: string): nat {
    if e.Request? && e.address == address && Allows(limits, LookUp(limits, fills, address, e.looked), e.now) then 1 else 0
  }

  lemma EventConserves(limits: Limits, fills: Fills, clock: real, e: Event, address: string)
    requires Sane(limits) && LevelsSane(limits, fills, clock) && InOrder(clock, [e])
    ensures LevelsSane(limits, Serve(limits, fills, e), e.now)
    ensures GrantedNow(limits, fills, e, address) as real + Level(limits, Serve(limits, fills, e), address, e.now)
         <= Level(limits, fills, address, clock) + Inflow(limits, e.now - clock) + GivenNow(limits, fills, e, address)
  {
    InflowPositive(limits, e.now - clock);
    if address in fills {
      RefillGrows(limits, fills[address], clock, e.now);
    }
    if e.Request? {
      var b := LookUp(limits, fills, e.address, e.looked);
      AfterSane(limits, b, e.now);
      InflowAdds(limits, 0.0, 0.0);
      FreshMeansFull(limits, e.looked, e.now);
    }
  }

  lemma GrantedOnce(limits: Limits, fills: Fills, events: seq<Event>, address: string)
    requires events != []
    ensures Granted(events, Answers(limits, fills, events), address)
         == GrantedNow(limits, fills, events[0], address)
            + Granted(events[1..], Answers(limits, Serve(limits, fills, events[0]), events[1..]), address)
  {
    var rest := Answers(limits, Serve(limits, fills, events[0]), events[1..]);
    if events[0].Request? {
      assert Answers(limits, fills, events)[1..] == rest;
    } else if rest == [] {
      assert Granted(events[1..], rest, address) == 0;
    }
  }

  // ---------------------------------------------------------------- any stretch of a run

  // Tokens spent by an address and left for it never exceed what there was, what
  // flowed in and what forgetting gave away.
  lemma {:induction false} AddressConserves(limits: Limits, fills: Fills, clock: real, events: seq<Event>, address: string)
    requires Sane(limits) && LevelsSane(limits, fills, clock) && InOrder(clock, events)
    ensures LevelsSane(limits, ServeAll(limits, fills, events), End(clock, events)) && clock <= End(clock, events)
    ensures Granted(events, Answers(limits, fills, events), address) as real
              + Level(limits, ServeAll(limits, fills, events), address, End(clock, events))
         <= Level(limits, fills, address, clock) + Inflow(limits, End(clock, events) - clock) + GivenAway(limits, fills, events, address)
    decreases |events|
  {
    InflowAdds(limits, 0.0, 0.0);
    if events != [] {
      var e := events[0];
      EventConserves(limits, fills, clock, e, address);
      GrantedOnce(limits, fills, events, address);
      AddressConserves(limits, Serve(limits, fills, e), e.now, events[1..], address);
      InflowAdds(limits, e.now - clock, End(e.now, events[1..]) - e.now);
    }
  }

  lemma LevelCapped(limits: Limits, fills: Fills, clock: real, address: string, now: real)
    requires Sane(limits) && LevelsSane(limits, fills, clock) && clock <= now
    ensures 0.0 <= Level(limits, fills, address, now) <= limits.maxTokens
  {
    if address in fills {
      InflowPositive(limits, now - fills[address].lastRefill);
    }
  }

  // A window that opens with a request of the address.
  ghost predicate Opens(window: seq<Event>, address: string) {
    window != [] && window[0].Request? && window[0].address == address
  }

  lemma WindowGranted(limits: Limits, fills: Fills, clock: real, window: seq<Event>, address: string)
    requires Sane(limits) && LevelsSane(limits, fills, clock) && InOrder(clock, window) && Opens(window, address)
    ensures Granted(window, Answers(limits, fills, window), address) as real
         <= limits.maxTokens + Inflow(limits, End(clock, window) - window[0].now) + GivenAway(limits, fills, window, address)
  {
    var e, rest := window[0], window[1..];
    var next := Serve(limits, fills, e);
    var b := LookUp(limits, fills, address, e.looked);
    InflowAdds(limits, 0.0, 0.0);
    AfterSane(limits, b, e.now);
    assert next[address] == After(limits, b, e.now);
    assert GrantedNow(limits, fills, e, address) as real + Level(limits, next, address, e.now) <= limits.maxTokens;
    EventConserves(limits, fills, clock, e, address);
    GrantedOnce(limits, fills, window, address);
    AddressConserves(limits, next, e.now, rest, address);
    LevelCapped(limits, ServeAll(limits, next, rest), End(e.now, rest), address, End(e.now, rest));
  }

  lemma {:induction false} InOrderSplit(clock: real, first: seq<Event>, second: seq<Event>)
    requires InOrder(clock, first + second)
    ensures InOrder(clock, first) && InOrder(End(clock, first), second)
    decreases |first|
  {
    if first == [] {
      assert first + second == second;
    } else {
      assert (first + second)[1..] == first[1..] + second;
      InOrderSplit(first[0].now, first[1..], second);
    }
  }

  // Main result: whatever came before and whoever else asks, of the requests of an
  // address in any window at most maxTokens are let through, and refillRate times the
  // window's length, and what forgetting its bucket within the window gave away.
  lemma AddressWindowBound(limits: Limits, start: real, before: seq<Event>, window: seq<Event>, address: string)
    requires Sane(limits) && InOrder(start, before + window) && Opens(window, address)
    ensures var fills := ServeAll(limits, map[], before);
            (Granted(window, Answers(limits, fills, window), address) as real
             <= limits.maxTokens + Inflow(limits, End(start, window) - window[0].now) + GivenAway(limits, fills, window, address))
  {
    InOrderSplit(start, before, window);
    AddressConserves(limits, map[], start, before, address);
    WindowGranted(limits, ServeAll(limits, map[], before), End(start, before), window, address);
  }

  // ---------------------------------------------------------------- what forgetting can give away

  // What a bucket idle for long enough to be forgotten may lack of being full.
  ghost function Shortfall(limits: Limits): real {
    if RefillsWhileIdle(limits) then 0.0 else limits.maxTokens - Inflow(limits, IDLE_SECONDS)
  }

  // At most one forgetting in ten minutes, each giving away at most the shortfall.
  ghost function Gifts(limits: Limits, length: real): real {
    length / IDLE_SECONDS * Shortfall(limits)
  }

  lemma GiftsAdd(limits: Limits, x: real, y: real)
    ensures Gifts(limits, x + y) == Gifts(limits, x) + Gifts(limits, y)
  {
    assert (x + y) / IDLE_SECONDS == x / IDLE_SECONDS + y / IDLE_SECONDS;
  }

  lemma GiftsGrow(limits: Limits, length: real)
    ensures 0.0 <= Shortfall(limits)
    ensures 0.0 <= length ==> 0.0 <= Gifts(limits, length)
    ensures length > IDLE_SECONDS ==> Shortfall(limits) <= Gifts(limits, length)
  {
    if length > IDLE_SECONDS {
      assert length / IDLE_SECONDS > 1.0;
    }
  }

  lemma IdleLacks(limits: Limits, b: Fill, now: real)
    requires Sane(limits) && 0.0 <= b.tokens && Idle(b, now)
    ensures limits.maxTokens - Refill(limits, b, now) <= Shortfall(limits)
  {
    InflowMonotone(limits, IDLE_SECONDS, now - b.lastRefill);
  }

  // Since when the bucket may have been idle.
  function Since(fills: Fills, address: string, clock: real): real {
    if address in fills then fills[address].lastRefill else clock
  }

  lemma EventGifts(limits: Limits, fills: Fills, clock: real, e: Event, address: string)
    requires Sane(limits) && LevelsSane(limits, fills, clock) && InOrder(clock, [e])
    ensures var since, next := Since(fills, address, clock), Since(Serve(limits, fills, e), address, e.now);
            since <= next && GivenNow(limits, fills, e, address) <= Gifts(limits, next - since)
  {
    var since, next := Since(fills, address, clock), Since(Serve(limits, fills, e), address, e.now);
    GiftsGrow(limits, next - since);
    if Forgets(fills, e, address) {
      IdleLacks(limits, fills[address], e.now);
    }
  }

  lemma {:induction false} ForgettingGives(limits: Limits, fills: Fills, clock: real, events: seq<Event>, address: string)
    requires Sane(limits) && LevelsSane(limits, fills, clock) && InOrder(clock, events)
    ensures GivenAway(limits, fills, events, address) <= Gifts(limits, End(clock, events) - Since(fills, address, clock))
    decreases |events|
  {
    GiftsGrow(limits, clock - Since(fills, address, clock));
    if events != [] {
      var e := events[0];
      var next := Serve(limits, fills, e);
      EventConserves(limits, fills, clock, e, address);
      EventGifts(limits, fills, clock, e, address);
      ForgettingGives(limits, next, e.now, events[1..], address);
      var since, later := Since(fills, address, clock), Since(next, address, e.now);
      GiftsAdd(limits, later - since, End(e.now, events[1..]) - later);
    }
  }

  lemma WindowGifts(limits: Limits, fills: Fills, clock: real, window: seq<Event>, address: string)
    requires Sane(limits) && LevelsSane(limits, fills, clock) && InOrder(clock, window) && Opens(window, address)
    ensures GivenAway(limits, fills, window, address) <= Gifts(limits, End(clock, window) - window[0].now)
  {
    var next := Serve(limits, fills, window[0]);
    EventConserves(limits, fills, clock, window[0], address);
    ForgettingGives(limits, next, window[0].now, window[1..], address);
  }

  lemma ReachedSane(limits: Limits, start: real, before: seq<Event>, window: seq<Event>)
    requires Sane(limits) && InOrder(start, before + window)
    ensures LevelsSane(limits, ServeAll(limits, map[], before), End(start, before)) && InOrder(End(start, before), window)
  {
    InOrderSplit(start, before, window);
    AddressConserves(limits, map[], start, before, "");
  }

  // Main result: so the bound in numbers of the limiter alone; if a bucket refills
  // while idle, it is that of a bucket that is never forgotten.
  lemma AddressWindowNumbers(limits: Limits, start: real, before: seq<Event>, window: seq<Event>, address: string)
    requires Sane(limits) && InOrder(start, before + window) && Opens(window, address)
    ensures var length := End(start, window) - window[0].now;
            (Granted(window, Answers(limits, ServeAll(limits, map[], before), window), address) as real
             <= limits.maxTokens + Inflow(limits, length) + Gifts(limits, length))
  {
    ReachedSane(limits, start, before, window);
    WindowGifts(limits, ServeAll(limits, map[], before), End(start, before), window, address);
    AddressWindowBound(limits, start, before, window, address);
  }
}
