/** Addresses do not share: an address is answered as if it were alone, and between two
    cleanups as its one token bucket answers. */
module AddressFairness {
  import opened RateLimit
  import opened AddressLimit
  import RateFairness

  // An address's own requests, and the cleanups.
  function Concerning(events: seq<Event>, address: string): seq<Event>
    decreases |events|
  {
    if events == [] then []
    else
      var rest := Concerning(events[1..], address);
      if events[0].Request? && events[0].address != address then rest else [events[0]] + rest
  }

  // The answers to its requests.
  function AnswersTo(events: seq<Event>, answers: seq<bool>, address: string): seq<bool>
    decreases |events|
  {
    if events == [] || answers == [] then []
    else if events[0].Cleanup? then AnswersTo(events[1..], answers, address)
    else (if events[0].address == address then [answers[0]] else []) + AnswersTo(events[1..], answers[1..], address)
  }

  predicate SameBucket(a: Fills, b: Fills, address: string) {
    (address in a <==> address in b) && (address in a ==> a[address] == b[address])
  }

  lemma OthersAside(limits: Limits, fills: Fills, e: Event, address: string)
    requires e.Request? && e.address != address
    ensures SameBucket(Serve(limits, fills, e), fills, address)
  {
  }

  lemma ServedAlike(limits: Limits, a: Fills, b: Fills, e: Event, address: string)
    requires SameBucket(a, b, address) && (e.Request? ==> e.address == address)
    ensures SameBucket(Serve(limits, a, e), Serve(limits, b, e), address)
    ensures e.Request? ==> LookUp(limits, a, address, e.looked) == LookUp(limits, b, address, e.looked)
  {
  }

  lemma AnswersStep(limits: Limits, fills: Fills, events: seq<Event>, address: string)
    requires events != []
    ensures var e, rest := events[0], Answers(limits, Serve(limits, fills, events[0]), events[1..]);
            AnswersTo(events, Answers(limits, fills, events), address)
            == (if e.Request? && e.address == address then [Allows(limits, LookUp(limits, fills, address, e.looked), e.now)] else [])
               + AnswersTo(events[1..], rest, address)
  {
    var rest := Answers(limits, Serve(limits, fills, events[0]), events[1..]);
    if events[0].Request? {
      assert Answers(limits, fills, events)[1..] == rest;
    } else if rest == [] {
      assert AnswersTo(events[1..], rest, address) == [];
    }
  }

  // Main result: whoever else asks in between, an address gets the answers it would get
  // alone.
  lemma {:induction false} AnsweredAlone(limits: Limits, a: Fills, b: Fills, events: seq<Event>, address: string)
    requires SameBucket(a, b, address)
    ensures AnswersTo(events, Answers(limits, a, events), address) == Answers(limits, b, Concerning(events, address))
    decreases |events|
  {
    if events != [] {
      var e := events[0];
      AnswersStep(limits, a, events, address);
      if e.Request? && e.address != address {
        OthersAside(limits, a, e, address);
        AnsweredAlone(limits, Serve(limits, a, e), b, events[1..], address);
      } else {
        ServedAlike(limits, a, b, e, address);
        AnsweredAlone(limits, Serve(limits, a, e), Serve(limits, b, e), events[1..], address);
        var own := Concerning(events, address);
        assert own[0] == e && own[1..] == Concerning(events[1..], address);
      }
    }
  }

  function TimesOf(events: seq<Event>): seq<real>
    decreases |events|
  {
    if events == [] then [] else [events[0].now] + TimesOf(events[1..])
  }

  predicate AllFrom(events: seq<Event>, address: string) {
    forall i :: 0 <= i < |events| ==> events[i].Request? && events[i].address == address
  }

  // And between cleanups its requests are answered by its one bucket, a full one if it
  // had none.
  lemma {:induction false} AnsweredByBucket(limits: Limits, fills: Fills, events: seq<Event>, address: string)
    requires events != [] && AllFrom(events, address)
    ensures Answers(limits, fills, events)
            == RateFairness.Answers(limits, if address in fills then fills[address] else Full(limits, events[0].looked), TimesOf(events))
    decreases |events|
  {
    var e, rest := events[0], events[1..];
    var next := Serve(limits, fills, e);
    assert forall i :: 0 <= i < |rest| ==> rest[i] == events[i + 1];
    assert TimesOf(events)[1..] == TimesOf(rest);
    if rest != [] {
      AnsweredByBucket(limits, next, rest, address);
    }
  }

  // The times of its requests.
  function TimesTo(events: seq<Event>, address: string): seq<real>
    decreases |events|
  {
    if events == [] then []
    else (if events[0].Request? && events[0].address == address then [events[0].now] else []) + TimesTo(events[1..], address)
  }

  // No cleanup comes more than ten minutes after its last request.
  predicate Lively(last: real, events: seq<Event>, address: string)
    decreases |events|
  {
    || events == []
    || match events[0]
       case Request(who, _, now) => Lively(if who == address then now else last, events[1..], address)
       case Cleanup(now) => now - last <= 600.0 && Lively(last, events[1..], address)
  }

  // Main result: a lively address is answered by its one bucket all along, whoever else
  // asks and whatever is cleaned up.
  lemma {:induction false} LivelyByBucket(limits: Limits, fills: Fills, events: seq<Event>, address: string)
    requires address in fills && Lively(fills[address].lastRefill, events, address)
    ensures AnswersTo(events, Answers(limits, fills, events), address) == RateFairness.Answers(limits, fills[address], TimesTo(events, address))
    decreases |events|
  {
    if events != [] {
      AnswersStep(limits, fills, events, address);
      LivelyByBucket(limits, Serve(limits, fills, events[0]), events[1..], address);
      if events[0].Request? && events[0].address == address {
        assert TimesTo(events, address)[1..] == TimesTo(events[1..], address);
      } else {
        assert TimesTo(events, address) == TimesTo(events[1..], address);
        assert Serve(limits, fills, events[0])[address] == fills[address];
      }
    }
  }
}
