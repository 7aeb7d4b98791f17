/** The per-address limiter, which forgets buckets that have been idle. */
module AddressLimit {
  import opened RateLimit

  const IDLE_SECONDS := 600.0

  // A request reads the clock when its bucket is looked up and again when a token
  // is taken; the cleanup reads it once.
  datatype Event = Request(address: string, looked: real, now: real) | Cleanup(now: real)

  type Fills = map<string, Fill>

  function LookUp(limits: Limits, fills: Fills, address: string, looked: real): Fill {
    if address in fills then fills[address] else Full(limits, looked)
  }

  function Idle(b: Fill, now: real): bool {
    now - b.lastRefill > IDLE_SECONDS
  }

  function Serve(limits: Limits, fills: Fills, e: Event): Fills {
    match e
    case Request(address, looked, now) => fills[address := After(limits, LookUp(limits, fills, address, looked), now)]
    case Cleanup(now) => map a | a in fills && !Idle(fills[a], now) :: fills[a]
  }

  function Answers(limits: Limits, fills: Fills, events: seq<Event>): seq<bool>
    decreases |events|
  {
    if events == [] then []
    else
      var rest := Answers(limits, Serve(limits, fills, events[0]), events[1..]);
      if events[0].Cleanup? then rest
      else [Allows(limits, LookUp(limits, fills, events[0].address, events[0].looked), events[0].now)] + rest
  }

  function RequestsOnly(events: seq<Event>): seq<Event>
    decreases |events|
  {
    if events == [] then []
    else if events[0].Cleanup? then RequestsOnly(events[1..])
    else [events[0]] + RequestsOnly(events[1..])
  }

  // Clock readings, in order, never go back.
  ghost predicate InOrder(clock: real, events: seq<Event>)
    decreases |events|
  {
    events == []
    || (&& clock <= events[0].now
        && (events[0].Request? ==> clock <= events[0].looked <= events[0].now)
        && InOrder(events[0].now, events[1..]))
  }

  // No client can tell from the answers whether idle buckets are ever forgotten.
  ghost predicate ForgettingUnobservable(limits: Limits) {
    forall events, start :: InOrder(start, events) ==>
      Answers(limits, map[], events) == Answers(limits, map[], RequestsOnly(events))
  }

  // ---------------------------------------------------------------- the limiter

  class AddressLimiter {
    const limits: Limits
    var buckets: map<string, TokenBucket>

    ghost predicate Valid()
      reads this, buckets.Values
    {
      && (forall a :: a in buckets ==> buckets[a].limits == limits)
      && (forall a, b :: a in buckets && b in buckets && a != b ==> buckets[a] != buckets[b])
    }

    ghost function Fills(): Fills
      reads this, buckets.Values
    {
      map a | a in buckets :: buckets[a].Current()
    }

    constructor (limits: Limits)
      ensures Valid() && this.limits == limits && Fills() == map[]
    {
      this.limits := limits;
      buckets := map[];
    }

    method GetBucket(address: string, looked: real) returns (bucket: TokenBucket)
      requires Valid()
      modifies this`buckets
      ensures Valid()
      ensures address in buckets && bucket == buckets[address]
      ensures buckets.Keys == old(buckets.Keys) + {address}
      ensures forall a :: a in old(buckets) ==> buckets[a] == old(buckets)[a]
      ensures address !in old(buckets) ==> fresh(bucket)
      ensures bucket.Current() == LookUp(limits, old(Fills()), address, looked)
    {
      if address in buckets {
        bucket := buckets[address];
      } else {
        bucket := new TokenBucket(limits, looked);
        buckets := buckets[address := bucket];
      }
    }

    method RateLimit(address: string, looked: real, now: real) returns (allowed: bool)
      requires Valid()
      modifies this, buckets.Values
      ensures Valid() && fresh(buckets.Values - old(buckets.Values))
      ensures Fills() == Serve(limits, old(Fills()), Request(address, looked, now))
      ensures [allowed] == Answers(limits, old(Fills()), [Request(address, looked, now)])
    {
      var bucket := GetBucket(address, looked);
      allowed := bucket.Allow(now);
    }

    method Cleanup(now: real)
      requires Valid()
      modifies this`buckets
      ensures Valid() && buckets.Values <= old(buckets.Values)
      ensures Fills() == Serve(limits, old(Fills()), Event.Cleanup(now))
    {
      var left := buckets.Keys;
      ghost var all := buckets;
      while left != {}
        invariant left <= all.Keys
        invariant forall a :: a in buckets <==> a in all && (a in left || !Idle(all[a].Current(), now))
        invariant forall a :: a in buckets ==> buckets[a] == all[a]
        decreases left
      {
        var a :| a in left;
        if now - buckets[a].lastRefill > IDLE_SECONDS {
          buckets := buckets - {a};
        }
        left := left - {a};
      }
    }
  }
}
