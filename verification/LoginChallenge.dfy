/** Email login challenges: how many may be created in any window of time, and how
    often one can be tried and used. */
module LoginChallenge {
  import opened Wrappers

  type ChallengeId = nat
  type Time = int

  datatype Status = Pending | Consumed | Expired

  // A caller's idempotency key, or the stable key derived from the challenge.
  datatype Key = CallerKey(key: string) | DerivedKey(id: ChallengeId)

  datatype Challenge = Challenge(
    email: string,
    device: string,
    tokenHash: string,
    status: Status,
    attempts: nat,
    maxAttempts: int,
    addressHash: string,
    key: Key,
    expiresAt: Time,
    consumedAt: Option<Time>,
    createdAt: Time)

  // A policy; limits that are not positive are switched off.
  datatype Policy = Policy(ttl: int, maxAttempts: int, window: int, maxPerEmail: int, maxPerAddress: int)

  datatype Error = Invalid | Unavailable | RateLimited | ChallengeExpired | Failed | DeliveryFailed

  type Outcome<+T> = Result<T, Error>

  // Hashing stands for an injective function and is left out: a token is
  // represented by its hash, a client address by its own ("" when unknown).
  datatype CreateInput = CreateInput(email: string, device: string, key: string, addressHash: string)

  datatype VerifyInput = VerifyInput(id: ChallengeId, tokenHash: string, device: string)

  // ---------------------------------------------------------------- counting

  // What a creation limit counts together.
  datatype Scope = SameEmail(email: string) | SameAddress(addressHash: string)

  predicate InScope(c: Challenge, scope: Scope) {
    match scope
    case SameEmail(email) => c.email == email
    case SameAddress(addressHash) => c.addressHash == addressHash
  }

  function Limit(policy: Policy, scope: Scope): int {
    if scope.SameEmail? then policy.maxPerEmail else policy.maxPerAddress
  }

  // The repository's Count: created at or after the given moment.
  function CountSince(cs: seq<Challenge>, scope: Scope, since: Time): nat {
    if cs == [] then 0
    else
      var last := cs[|cs| - 1];
      CountSince(cs[..|cs| - 1], scope, since) + if InScope(last, scope) && since <= last.createdAt then 1 else 0
  }

  function CountWithin(cs: seq<Challenge>, scope: Scope, from: Time, to: Time): nat {
    if cs == [] then 0
    else
      var last := cs[|cs| - 1];
      CountWithin(cs[..|cs| - 1], scope, from, to) + if InScope(last, scope) && from <= last.createdAt <= to then 1 else 0
  }

  function FindKey(cs: seq<Challenge>, key: Key): (r: Option<ChallengeId>)
    ensures r.Some? ==> r.value < |cs| && cs[r.value].key == key
    ensures r.None? ==> forall i :: 0 <= i < |cs| ==> cs[i].key != key
  {
    if cs == [] then None
    else if cs[|cs| - 1].key == key then Some(|cs| - 1)
    else FindKey(cs[..|cs| - 1], key)
  }

  // ---------------------------------------------------------------- steps

  predicate Exceeds(policy: Policy, cs: seq<Challenge>, scope: Scope, now: Time) {
    Limit(policy, scope) > 0 && CountSince(cs, scope, now - policy.window) >= Limit(policy, scope)
  }

  // enforceCreateRateLimit
  predicate Refuses(policy: Policy, cs: seq<Challenge>, input: CreateInput, now: Time) {
    && policy.window > 0
    && (|| Exceeds(policy, cs, SameEmail(input.email), now)
        || (input.addressHash != "" && Exceeds(policy, cs, SameAddress(input.addressHash), now)))
  }

  function ReplayResult(c: Challenge, id: ChallengeId, now: Time): Outcome<ChallengeId> {
    if c.status == Expired || c.expiresAt <= now then Failure(ChallengeExpired)
    else if c.status != Pending || c.consumedAt.Some? then Failure(Failed)
    else Success(id)
  }

  function NewChallenge(policy: Policy, input: CreateInput, tokenHash: string, id: ChallengeId, now: Time): Challenge {
    Challenge(input.email, input.device, tokenHash, Pending, 0, policy.maxAttempts, input.addressHash,
              if input.key == "" then DerivedKey(id) else CallerKey(input.key), now + policy.ttl, None, now)
  }

  // available: the delivery channel says it can deliver; delivered: it did.
  function CreateStep(policy: Policy, cs: seq<Challenge>, input: CreateInput, tokenHash: string, available: bool, delivered: bool, now: Time)
    : (seq<Challenge>, Outcome<ChallengeId>)
  {
    if input.email == "" || input.device == "" then (cs, Failure(Invalid))
    else if !available then (cs, Failure(Unavailable))
    else
      var existing := if input.key == "" then None else FindKey(cs, CallerKey(input.key));
      if existing.Some? then (cs, ReplayResult(cs[existing.value], existing.value, now))
      else if Refuses(policy, cs, input, now) then (cs, Failure(RateLimited))
      else
        var c := NewChallenge(policy, input, tokenHash, |cs|, now);
        if delivered then (cs + [c], Success(|cs|)) else (cs + [c.(status := Expired)], Failure(DeliveryFailed))
  }

  // recordFailedAttempt
  function FailedAttempt(c: Challenge): Challenge {
    var tried := c.(attempts := c.attempts + 1);
    if tried.maxAttempts > 0 && tried.attempts >= tried.maxAttempts then tried.(status := Expired) else tried
  }

  datatype Verdict = Accepted | Rejected | NoAttempt(error: Error)

  function VerifyStep(cs: seq<Challenge>, input: VerifyInput, now: Time): (seq<Challenge>, Verdict) {
    if input.tokenHash == "" || input.device == "" then (cs, NoAttempt(Invalid))
    else if input.id >= |cs| then (cs, NoAttempt(Failed))
    else
      var c := cs[input.id];
      if c.status != Pending || c.consumedAt.Some? then (cs, NoAttempt(Failed))
      else if c.expiresAt <= now then (cs[input.id := c.(status := Expired)], NoAttempt(ChallengeExpired))
      else if c.device != input.device || c.tokenHash != input.tokenHash then (cs[input.id := FailedAttempt(c)], Rejected)
      else (cs[input.id := c.(status := Consumed, consumedAt := Some(now))], Accepted)
  }

  datatype Step =
    | DoCreate(input: CreateInput, tokenHash: string, available: bool, delivered: bool, now: Time)
    | DoVerify(attempt: VerifyInput, now: Time)

  function Next(policy: Policy, cs: seq<Challenge>, step: Step): seq<Challenge> {
    match step
    case DoCreate(input, tokenHash, available, delivered, now) =>
      CreateStep(policy, cs, input, tokenHash, available, delivered, now).0
    case DoVerify(attempt, now) => VerifyStep(cs, attempt, now).0
  }

  function Run(policy: Policy, cs: seq<Challenge>, steps: seq<Step>): seq<Challenge>
    decreases |steps|
  {
    if steps == [] then cs else Run(policy, Next(policy, cs, steps[0]), steps[1..])
  }

  // How many steps of a run got one verdict for one challenge.
  function Verdicts(policy: Policy, cs: seq<Challenge>, steps: seq<Step>, id: ChallengeId, verdict: Verdict): nat
    decreases |steps|
  {
    if steps == [] then 0
    else
      var hit := steps[0].DoVerify? && steps[0].attempt.id == id && VerifyStep(cs, steps[0].attempt, steps[0].now).1 == verdict;
      (if hit then 1 else 0) + Verdicts(policy, Next(policy, cs, steps[0]), steps[1..], id, verdict)
  }

  // ---------------------------------------------------------------- the service

  class ChallengeService {
    const policy: Policy
    var challenges: seq<Challenge>

    ghost predicate Valid()
      reads this
    {
      Sound(policy, challenges)
    }

    constructor (policy: Policy)
      ensures Valid() && challenges == [] && this.policy == policy
    {
      this.policy := policy;
      challenges := [];
    }

    method EnforceCreateRateLimit(input: CreateInput, now: Time) returns (allowed: bool)
      ensures allowed == !Refuses(policy, challenges, input, now)
    {
      if policy.window <= 0 {
        return true;
      }
      var createdAfter := now - policy.window;
      if policy.maxPerEmail > 0 {
        var count := CountSince(challenges, SameEmail(input.email), createdAfter);
        if count >= policy.maxPerEmail {
          return false;
        }
      }
      if policy.maxPerAddress > 0 && input.addressHash != "" {
        var count := CountSince(challenges, SameAddress(input.addressHash), createdAfter);
        if count >= policy.maxPerAddress {
          return false;
        }
      }
      return true;
    }

    method Create(input: CreateInput, tokenHash: string, available: bool, delivered: bool, now: Time) returns (r: Outcome<ChallengeId>)
      requires Valid()
      modifies this
      ensures Valid()
      ensures (challenges, r) == CreateStep(policy, old(challenges), input, tokenHash, available, delivered, now)
    {
      ghost var before := challenges;
      StepKeepsSound(policy, before, DoCreate(input, tokenHash, available, delivered, now));
      if input.email == "" || input.device == "" {
        return Failure(Invalid);
      }
      if !available {
        return Failure(Unavailable);
      }
      if input.key != "" {
        var existing := FindKey(challenges, CallerKey(input.key));
        if existing.Some? {
          return ReplayResult(challenges[existing.value], existing.value, now);
        }
      }
      var allowed := EnforceCreateRateLimit(input, now);
      if !allowed {
        return Failure(RateLimited);
      }
      var id := |challenges|;
      var challenge := NewChallenge(policy, input, tokenHash, id, now);
      challenges := challenges + [challenge];
      if !delivered {
        challenges := challenges[id := challenge.(status := Expired)];
        assert challenges == before + [challenge.(status := Expired)];
        return Failure(DeliveryFailed);
      }
      r := Success(id);
    }

    method RecordFailedAttempt(id: ChallengeId)
      requires id < |challenges|
      modifies this
      ensures challenges == old(challenges)[id := FailedAttempt(old(challenges[id]))]
    {
      var c := challenges[id];
      c := c.(attempts := c.attempts + 1);
      if c.maxAttempts > 0 && c.attempts >= c.maxAttempts {
        c := c.(status := Expired);
      }
      challenges := challenges[id := c];
    }

    method Verify(input: VerifyInput, now: Time) returns (verdict: Verdict)
      requires Valid()
      modifies this
      ensures Valid()
      ensures (challenges, verdict) == VerifyStep(old(challenges), input, now)
      ensures verdict == Accepted <==>
                && input.tokenHash != "" && input.device != "" && input.id < |old(challenges)|
                && var c := old(challenges)[input.id];
                   && c.status == Pending && c.consumedAt.None? && now < c.expiresAt
                   && c.tokenHash == input.tokenHash && c.device == input.device
    {
      StepKeepsSound(policy, challenges, DoVerify(input, now));
      if input.tokenHash == "" || input.device == "" {
        return NoAttempt(Invalid);
      }
      if input.id >= |challenges| {
        return NoAttempt(Failed);
      }
      var c := challenges[input.id];
      if c.status != Pending || c.consumedAt.Some? {
        return NoAttempt(Failed);
      }
      if c.expiresAt <= now {
        challenges := challenges[input.id := c.(status := Expired)];
        return NoAttempt(ChallengeExpired);
      }
      if c.device != input.device {
        RecordFailedAttempt(input.id);
        return Rejected;
      }
      if c.tokenHash != input.tokenHash {
        RecordFailedAttempt(input.id);
        return Rejected;
      }
      challenges := challenges[input.id := c.(status := Consumed, consumedAt := Some(now))];
      return Accepted;
    }
  }

  // ---------------------------------------------------------------- the window

  predicate Limited(policy: Policy, c: Challenge, scope: Scope) {
    policy.window > 0 && Limit(policy, scope) > 0 && InScope(c, scope) && (scope.SameAddress? ==> scope.addressHash != "")
  }

  // When challenge k was created, it and those before it within the window were
  // at most as many as the limit.
  ghost predicate WithinLimit(policy: Policy, cs: seq<Challenge>, k: nat, scope: Scope)
    requires k < |cs|
  {
    Limited(policy, cs[k], scope) ==> CountSince(cs[..k + 1], scope, cs[k].createdAt - policy.window) <= Limit(policy, scope)
  }

  ghost predicate ChallengeSound(policy: Policy, c: Challenge) {
    && (c.status == Consumed <==> c.consumedAt.Some?)
    && c.maxAttempts == policy.maxAttempts
    && (c.maxAttempts > 0 ==> c.attempts <= c.maxAttempts)
    && (c.maxAttempts > 0 && c.status != Expired ==> c.attempts < c.maxAttempts)
  }

  ghost predicate Sound(policy: Policy, cs: seq<Challenge>) {
    && (forall k, scope :: 0 <= k < |cs| ==> WithinLimit(policy, cs, k, scope))
    && (forall k :: 0 <= k < |cs| ==> ChallengeSound(policy, cs[k]))
  }

  // Verifying never touches what the counts look at.
  lemma {:induction false} CountSinceSame(p: seq<Challenge>, q: seq<Challenge>, scope: Scope, since: Time)
    requires |p| == |q|
    requires forall i :: 0 <= i < |p| ==>
               p[i].email == q[i].email && p[i].addressHash == q[i].addressHash && p[i].createdAt == q[i].createdAt
    ensures CountSince(p, scope, since) == CountSince(q, scope, since)
    decreases |p|
  {
    if p != [] {
      CountSinceSame(p[..|p| - 1], q[..|q| - 1], scope, since);
    }
  }

  lemma AppendKeepsSound(policy: Policy, cs: seq<Challenge>, c: Challenge)
    requires Sound(policy, cs) && ChallengeSound(policy, c)
    requires forall scope :: Limited(policy, c, scope) ==> CountSince(cs, scope, c.createdAt - policy.window) < Limit(policy, scope)
    ensures Sound(policy, cs + [c])
  {
    var after := cs + [c];
    forall k, scope | 0 <= k < |after|
      ensures WithinLimit(policy, after, k, scope)
    {
      if k < |cs| {
        assert WithinLimit(policy, cs, k, scope);
        assert after[..k + 1] == cs[..k + 1];
      } else {
        assert after[..k + 1] == after && after[..|cs|] == cs;
      }
    }
  }

  lemma UpdateKeepsSound(policy: Policy, cs: seq<Challenge>, id: ChallengeId, c: Challenge)
    requires Sound(policy, cs) && id < |cs| && ChallengeSound(policy, c)
    requires c.email == cs[id].email && c.addressHash == cs[id].addressHash && c.createdAt == cs[id].createdAt
    ensures Sound(policy, cs[id := c])
  {
    var after := cs[id := c];
    forall k, scope | 0 <= k < |after|
      ensures WithinLimit(policy, after, k, scope)
    {
      assert WithinLimit(policy, cs, k, scope);
      CountSinceSame(after[..k + 1], cs[..k + 1], scope, cs[k].createdAt - policy.window);
    }
  }

  lemma NotRefused(policy: Policy, cs: seq<Challenge>, input: CreateInput, now: Time, c: Challenge)
    requires !Refuses(policy, cs, input, now)
    requires c.email == input.email && c.addressHash == input.addressHash && c.createdAt == now
    ensures forall scope :: Limited(policy, c, scope) ==> CountSince(cs, scope, c.createdAt - policy.window) < Limit(policy, scope)
  {
    forall scope | Limited(policy, c, scope)
      ensures CountSince(cs, scope, now - policy.window) < Limit(policy, scope)
    {
      match scope
      case SameEmail(email) => assert !Exceeds(policy, cs, SameEmail(input.email), now);
      case SameAddress(addressHash) => assert !Exceeds(policy, cs, SameAddress(input.addressHash), now);
    }
  }

  lemma StepKeepsSound(policy: Policy, cs: seq<Challenge>, step: Step)
    requires Sound(policy, cs)
    ensures Sound(policy, Next(policy, cs, step))
  {
    match step
    case DoCreate(input, tokenHash, available, delivered, now) =>
      var after := Next(policy, cs, step);
      if after != cs {
        var c := NewChallenge(policy, input, tokenHash, |cs|, now);
        var stored := if delivered then c else c.(status := Expired);
        NotRefused(policy, cs, input, now, stored);
        AppendKeepsSound(policy, cs, stored);
      }
    case DoVerify(attempt, now) =>
      var after := Next(policy, cs, step);
      if after != cs {
        assert after == cs[attempt.id := after[attempt.id]];
        assert ChallengeSound(policy, cs[attempt.id]);
        UpdateKeepsSound(policy, cs, attempt.id, after[attempt.id]);
      }
  }

  lemma {:induction false} RunKeepsSound(policy: Policy, cs: seq<Challenge>, steps: seq<Step>)
    requires Sound(policy, cs)
    ensures Sound(policy, Run(policy, cs, steps))
    decreases |steps|
  {
    if steps != [] {
      StepKeepsSound(policy, cs, steps[0]);
      RunKeepsSound(policy, Next(policy, cs, steps[0]), steps[1..]);
    }
  }

  lemma {:induction false} WithinAtMostSince(cs: seq<Challenge>, scope: Scope, from: Time, to: Time, since: Time)
    requires since <= from
    ensures CountWithin(cs, scope, from, to) <= CountSince(cs, scope, since)
    decreases |cs|
  {
    if cs != [] {
      WithinAtMostSince(cs[..|cs| - 1], scope, from, to, since);
    }
  }

  // The last challenge inside a window saw all the others when it was created,
  // whichever way the clock has moved.
  lemma {:induction false} AnyWindow(policy: Policy, cs: seq<Challenge>, n: nat, scope: Scope, from: Time)
    requires Sound(policy, cs) && n <= |cs|
    requires policy.window > 0 && Limit(policy, scope) > 0 && (scope.SameAddress? ==> scope.addressHash != "")
    ensures CountWithin(cs[..n], scope, from, from + policy.window) <= Limit(policy, scope)
    decreases n
  {
    if n > 0 {
      var last := cs[n - 1];
      assert cs[..n][..n - 1] == cs[..n - 1];
      if InScope(last, scope) && from <= last.createdAt <= from + policy.window {
        assert WithinLimit(policy, cs, n - 1, scope);
        WithinAtMostSince(cs[..n], scope, from, from + policy.window, last.createdAt - policy.window);
      } else {
        AnyWindow(policy, cs, n - 1, scope, from);
      }
    }
  }

  // Main result: over any run, with replays, failed deliveries and any clock, every
  // window of the policy's length holds at most the limit, wherever it starts.
  lemma WindowLimit(policy: Policy, steps: seq<Step>, scope: Scope, from: Time)
    requires policy.window > 0 && Limit(policy, scope) > 0 && (scope.SameAddress? ==> scope.addressHash != "")
    ensures CountWithin(Run(policy, [], steps), scope, from, from + policy.window) <= Limit(policy, scope)
  {
    var cs := Run(policy, [], steps);
    RunKeepsSound(policy, [], steps);
    assert cs[..|cs|] == cs;
    AnyWindow(policy, cs, |cs|, scope, from);
  }

  // ---------------------------------------------------------------- using a challenge

  function AttemptsAt(cs: seq<Challenge>, id: ChallengeId): nat {
    if id < |cs| then cs[id].attempts else 0
  }

  function ConsumedAt(cs: seq<Challenge>, id: ChallengeId): nat {
    if id < |cs| && cs[id].status == Consumed then 1 else 0
  }

  function Hit(cs: seq<Challenge>, step: Step, id: ChallengeId, verdict: Verdict): nat {
    if step.DoVerify? && step.attempt.id == id && VerifyStep(cs, step.attempt, step.now).1 == verdict then 1 else 0
  }

  lemma StepCounted(policy: Policy, cs: seq<Challenge>, step: Step, id: ChallengeId)
    requires Sound(policy, cs)
    ensures var r := Next(policy, cs, step);
            && Hit(cs, step, id, Accepted) == ConsumedAt(r, id) - ConsumedAt(cs, id)
            && Hit(cs, step, id, Rejected) == AttemptsAt(r, id) - AttemptsAt(cs, id)
  {
    if id < |cs| {
      assert ChallengeSound(policy, cs[id]);
    }
  }

  lemma {:induction false} VerdictsCounted(policy: Policy, cs: seq<Challenge>, steps: seq<Step>, id: ChallengeId)
    requires Sound(policy, cs)
    ensures var r := Run(policy, cs, steps);
            && Sound(policy, r)
            && Verdicts(policy, cs, steps, id, Accepted) == ConsumedAt(r, id) - ConsumedAt(cs, id)
            && Verdicts(policy, cs, steps, id, Rejected) == AttemptsAt(r, id) - AttemptsAt(cs, id)
    decreases |steps|
  {
    if steps != [] {
      StepKeepsSound(policy, cs, steps[0]);
      StepCounted(policy, cs, steps[0], id);
      VerdictsCounted(policy, Next(policy, cs, steps[0]), steps[1..], id);
    }
  }

  // Main result: a challenge is accepted at most once, and with a positive attempt
  // limit it is rejected at most that often, and less often if it was accepted.
  lemma ChallengeUse(policy: Policy, steps: seq<Step>, id: ChallengeId)
    ensures Verdicts(policy, [], steps, id, Accepted) <= 1
    ensures policy.maxAttempts > 0 ==> Verdicts(policy, [], steps, id, Rejected) <= policy.maxAttempts
    ensures policy.maxAttempts > 0 && Verdicts(policy, [], steps, id, Accepted) == 1 ==>
              Verdicts(policy, [], steps, id, Rejected) < policy.maxAttempts
  {
    var r := Run(policy, [], steps);
    VerdictsCounted(policy, [], steps, id);
    if id < |r| {
      assert ChallengeSound(policy, r[id]);
    }
  }
}
