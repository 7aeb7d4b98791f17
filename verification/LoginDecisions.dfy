/** Who gets in, and who gets a challenge: when each is granted and refused, stated
    without running the service. */
module LoginDecisions {
  import opened Wrappers
  import opened LoginChallenge

  // ---------------------------------------------------------------- verifying

  // A challenge that can still be answered.
  predicate Open(c: Challenge, now: Time) {
    c.status == Pending && c.consumedAt.None? && now < c.expiresAt
  }

  // An attempt that says all it must, about a challenge that can still be answered.
  predicate Attempts(cs: seq<Challenge>, input: VerifyInput, now: Time) {
    input.tokenHash != "" && input.device != "" && input.id < |cs| && Open(cs[input.id], now)
  }

  predicate Answers(c: Challenge, input: VerifyInput) {
    c.tokenHash == input.tokenHash && c.device == input.device
  }

  // One challenge moved, in its status, its tries and its use.
  predicate Moved(cs: seq<Challenge>, r: seq<Challenge>, id: ChallengeId, status: Status, attempts: nat, consumedAt: Option<Time>) {
    id < |cs| && r == cs[id := cs[id].(status := status, attempts := attempts, consumedAt := consumedAt)]
  }

  // Main result: an attempt is accepted exactly if it names a challenge that can still
  // be answered and brings its token and its device, and counted as a failed try exactly
  // if it is all that but the match.
  lemma VerifyDecided(cs: seq<Challenge>, input: VerifyInput, now: Time)
    ensures var (r, verdict) := VerifyStep(cs, input, now);
            && (verdict == Accepted <==> Attempts(cs, input, now) && Answers(cs[input.id], input))
            && (verdict == Rejected <==> Attempts(cs, input, now) && !Answers(cs[input.id], input))
            && (verdict == Accepted ==> Moved(cs, r, input.id, Consumed, cs[input.id].attempts, Some(now)))
            && (verdict == Rejected ==>
                  var c := cs[input.id];
                  Moved(cs, r, input.id, if 0 < c.maxAttempts <= c.attempts + 1 then Expired else Pending, c.attempts + 1, None))
  {
  }

  // What all others are told, and that nothing moves but the mark of an expired one.
  lemma VerifyRefused(cs: seq<Challenge>, input: VerifyInput, now: Time)
    requires !Attempts(cs, input, now)
    ensures var (r, verdict) := VerifyStep(cs, input, now);
            var late := input.tokenHash != "" && input.device != "" && input.id < |cs|
                        && cs[input.id].status == Pending && cs[input.id].consumedAt.None?;
            && verdict == NoAttempt(if input.tokenHash == "" || input.device == "" then Invalid else if late then ChallengeExpired else Failed)
            && (if late then Moved(cs, r, input.id, Expired, cs[input.id].attempts, None) else r == cs)
  {
  }

  // ---------------------------------------------------------------- from its creation on

  // What of a challenge never changes; and it never becomes pending again.
  predicate SameChallenge(a: Challenge, b: Challenge) {
    && b == a.(status := b.status, attempts := b.attempts, consumedAt := b.consumedAt)
    && (b.status == Pending ==> a.status == Pending)
  }

  ghost predicate Continues(cs: seq<Challenge>, r: seq<Challenge>) {
    |cs| <= |r| && forall i :: 0 <= i < |cs| ==> SameChallenge(cs[i], r[i])
  }

  lemma StepContinues(policy: Policy, cs: seq<Challenge>, step: Step)
    ensures Continues(cs, Next(policy, cs, step)) && |Next(policy, cs, step)| <= |cs| + 1
  {
  }

  lemma {:induction false} RunContinues(policy: Policy, cs: seq<Challenge>, steps: seq<Step>)
    ensures Continues(cs, Run(policy, cs, steps))
    decreases |steps|
  {
    if steps != [] {
      var next := Next(policy, cs, steps[0]);
      StepContinues(policy, cs, steps[0]);
      RunContinues(policy, next, steps[1..]);
      forall i | 0 <= i < |cs|
        ensures SameChallenge(cs[i], Run(policy, cs, steps)[i])
      {
        assert SameChallenge(cs[i], next[i]) && SameChallenge(next[i], Run(policy, next, steps[1..])[i]);
      }
    }
  }

  // A step that creates a challenge, as the stored one says.
  predicate Creates(policy: Policy, step: Step, c: Challenge) {
    && step.DoCreate? && c.email == step.input.email && c.device == step.input.device && c.tokenHash == step.tokenHash
    && c.addressHash == step.input.addressHash && c.createdAt == step.now && c.expiresAt == step.now + policy.ttl
    && c.maxAttempts == policy.maxAttempts
    && (step.input.key != "" ==> c.key == CallerKey(step.input.key))
    && (c.status == Pending ==> step.delivered)
  }

  // Every challenge stems from one creation in the run, and carries what it said.
  lemma {:induction false} CreatedBy(policy: Policy, cs: seq<Challenge>, steps: seq<Step>, id: ChallengeId) returns (j: nat)
    requires |cs| <= id < |Run(policy, cs, steps)|
    ensures j < |steps| && |Run(policy, cs, steps[..j])| == id && Creates(policy, steps[j], Run(policy, cs, steps)[id])
    decreases |steps|
  {
    var next := Next(policy, cs, steps[0]);
    StepContinues(policy, cs, steps[0]);
    if id < |next| {
      j := 0;
      assert steps[..0] == [];
      RunContinues(policy, next, steps[1..]);
      assert SameChallenge(next[id], Run(policy, next, steps[1..])[id]);
    } else {
      var k := CreatedBy(policy, next, steps[1..], id);
      j := k + 1;
      assert steps[..j][0] == steps[0] && steps[..j][1..] == steps[1..][..k];
    }
  }

  // Main result, over runs: whoever is accepted brings the token and the device of the
  // creation that made the challenge and was delivered, before its lifetime is over.
  lemma AcceptedAsCreated(policy: Policy, steps: seq<Step>, input: VerifyInput, now: Time) returns (j: nat)
    requires VerifyStep(Run(policy, [], steps), input, now).1 == Accepted
    ensures j < |steps| && steps[j].DoCreate? && steps[j].delivered && |Run(policy, [], steps[..j])| == input.id
    ensures steps[j].tokenHash == input.tokenHash && steps[j].input.device == input.device
    ensures now < steps[j].now + policy.ttl
    ensures policy.maxAttempts > 0 ==> Verdicts(policy, [], steps, input.id, Rejected) < policy.maxAttempts
  {
    var cs := Run(policy, [], steps);
    VerifyDecided(cs, input, now);
    j := CreatedBy(policy, [], steps, input.id);
    VerdictsCounted(policy, [], steps, input.id);
    assert ChallengeSound(policy, cs[input.id]);
  }

  // ---------------------------------------------------------------- creating

  // The challenges a limit counts.
  function Recent(cs: seq<Challenge>, scope: Scope, since: Time): set<ChallengeId> {
    set i | 0 <= i < |cs| && InScope(cs[i], scope) && since <= cs[i].createdAt
  }

  lemma {:induction false} CountIsSize(cs: seq<Challenge>, scope: Scope, since: Time)
    ensures CountSince(cs, scope, since) == |Recent(cs, scope, since)|
  {
    if cs != [] {
      var front, n := cs[..|cs| - 1], |cs| - 1;
      CountIsSize(front, scope, since);
      if InScope(cs[n], scope) && since <= cs[n].createdAt {
        assert Recent(cs, scope, since) == Recent(front, scope, since) + {n};
      } else {
        assert Recent(cs, scope, since) == Recent(front, scope, since);
      }
    }
  }

  // Room for one more challenge in the window that ends now.
  predicate Room(policy: Policy, cs: seq<Challenge>, scope: Scope, now: Time) {
    Limit(policy, scope) > 0 ==> |Recent(cs, scope, now - policy.window)| < Limit(policy, scope)
  }

  predicate Permitted(policy: Policy, cs: seq<Challenge>, input: CreateInput, now: Time) {
    policy.window > 0 ==>
      Room(policy, cs, SameEmail(input.email), now) && (input.addressHash != "" ==> Room(policy, cs, SameAddress(input.addressHash), now))
  }

  predicate FreshKey(cs: seq<Challenge>, key: string) {
    key == "" || forall i :: 0 <= i < |cs| ==> cs[i].key != CallerKey(key)
  }

  // Main result: under a new key a challenge is stored exactly if e-mail and device are
  // given, the channel can deliver and both limits leave room, and handed out exactly if
  // it was delivered too; it is the one asked for, open for the policy's lifetime.
  lemma CreateDecided(policy: Policy, cs: seq<Challenge>, input: CreateInput, tokenHash: string, available: bool, delivered: bool, now: Time)
    requires FreshKey(cs, input.key)
    ensures var (r, outcome) := CreateStep(policy, cs, input, tokenHash, available, delivered, now);
            var fit := input.email != "" && input.device != "" && available && Permitted(policy, cs, input, now);
            && (outcome.Success? <==> fit && delivered) && (outcome.Success? ==> outcome.value == |cs|)
            && (if fit then |r| == |cs| + 1 && r[..|cs|] == cs && Stored(policy, r[|cs|], input, tokenHash, delivered, now) else r == cs)
            && (outcome == Failure(Invalid) <==> input.email == "" || input.device == "")
            && (outcome == Failure(Unavailable) <==> input.email != "" && input.device != "" && !available)
            && (outcome == Failure(RateLimited) <==>
                  input.email != "" && input.device != "" && available && !Permitted(policy, cs, input, now))
            && (outcome == Failure(DeliveryFailed) <==> fit && !delivered)
  {
    CountIsSize(cs, SameEmail(input.email), now - policy.window);
    CountIsSize(cs, SameAddress(input.addressHash), now - policy.window);
  }

  predicate Stored(policy: Policy, c: Challenge, input: CreateInput, tokenHash: string, delivered: bool, now: Time) {
    && c.email == input.email && c.device == input.device && c.tokenHash == tokenHash && c.addressHash == input.addressHash
    && (c.status == if delivered then Pending else Expired) && c.attempts == 0 && c.maxAttempts == policy.maxAttempts
    && c.consumedAt.None? && c.createdAt == now && c.expiresAt == now + policy.ttl
    && (input.key != "" ==> c.key == CallerKey(input.key))
  }

  ghost predicate KeysUnique(cs: seq<Challenge>) {
    && (forall i, j :: 0 <= i < j < |cs| ==> cs[i].key != cs[j].key)
    && (forall i :: 0 <= i < |cs| && cs[i].key.DerivedKey? ==> cs[i].key.id == i)
  }

  lemma StepKeepsUnique(policy: Policy, cs: seq<Challenge>, step: Step)
    requires KeysUnique(cs)
    ensures KeysUnique(Next(policy, cs, step))
  {
    StepContinues(policy, cs, step);
    var r := Next(policy, cs, step);
    assert forall i :: 0 <= i < |cs| ==> r[i].key == cs[i].key;
  }

  lemma {:induction false} RunKeepsUnique(policy: Policy, cs: seq<Challenge>, steps: seq<Step>)
    requires KeysUnique(cs)
    ensures KeysUnique(Run(policy, cs, steps))
    decreases |steps|
  {
    if steps != [] {
      StepKeepsUnique(policy, cs, steps[0]);
      RunKeepsUnique(policy, Next(policy, cs, steps[0]), steps[1..]);
    }
  }

  // Asked again under a key, after any run, the service stores nothing and hands out
  // the challenge made under it, as long as it can still be answered.
  lemma CreatedAgain(policy: Policy, steps: seq<Step>, id: ChallengeId, input: CreateInput, tokenHash: string, delivered: bool, now: Time)
    requires var cs := Run(policy, [], steps); id < |cs| && input.key != "" && cs[id].key == CallerKey(input.key)
    requires input.email != "" && input.device != ""
    ensures var cs := Run(policy, [], steps);
            CreateStep(policy, cs, input, tokenHash, true, delivered, now) ==
              (cs, if Open(cs[id], now) then Success(id)
                   else if cs[id].status == Expired || cs[id].expiresAt <= now then Failure(ChallengeExpired) else Failure(Failed))
  {
    RunKeepsUnique(policy, [], steps);
    assert FindKey(Run(policy, [], steps), CallerKey(input.key)) == Some(id);
  }
}
