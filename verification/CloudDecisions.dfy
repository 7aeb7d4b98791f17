/** When a sync is authorized and when a manifest is committed, stated without running
    either, and that a manifest is what its session was authorized for. */
module CloudDecisions {
  import opened Wrappers
  import opened Totals
  import opened CloudResources
  import opened CloudSpec
  import opened CloudIndex

  // An active user entitled to some storage.
  predicate Admitted(user: UserId, quota: Quota) {
    user != "" && quota.known && quota.entitled && quota.bytes > 0
  }

  // The bytes a project's active objects take up.
  ghost function ProjectBytes(c: Cloud, project: ProjectId): int {
    Total(ActiveOf(c.objects, project))
  }

  // With the list in place of what the project has now, the user stays within the quota.
  ghost predicate Fits(c: Cloud, user: UserId, present: int, resources: seq<Resource>, bytes: int) {
    Bytes(resources) <= bytes && UsedBytes(c, user) - present + Bytes(resources) <= bytes
  }

  // ---------------------------------------------------------------- authorizing

  predicate IsSession(s: Session, cfg: Config, q: Request, project: ProjectId, resources: seq<Resource>, now: Time) {
    && s.owner == q.user && s.client == q.client && s.project == project && s.provider == cfg.provider
    && s.fingerprint == resources && s.requestedBytes == Bytes(resources)
    && s.status == Authorized && s.manifest.None? && s.expiresAt == now + 15 * 60
  }

  // The asker's project: the one there is, under its new name if one is given, or a new
  // one at the end.
  ghost predicate HasProject(before: seq<Project>, after: seq<Project>, q: Request, project: ProjectId) {
    && project < |after| && after[project].owner == q.user && after[project].client == q.client
    && if project < |before| then
         && after == before[project := after[project]] && after[project].lastManifest == before[project].lastManifest
         && after[project].name == if q.name == "" then before[project].name else q.name
       else after == before + [Project(q.user, q.client, q.name, None)]
  }

  lemma NewProjectEmpty(c: Cloud, project: ProjectId)
    requires OwnersGood(c) && project >= |c.projects|
    ensures ProjectBytes(c, project) == 0
  {
    assert ActiveOf(c.objects, project) == map[];
  }

  ghost function OwnProject(c: Cloud, q: Request): ProjectId {
    if exists p :: 0 <= p < |c.projects| && c.projects[p].owner == q.user && c.projects[p].client == q.client then
      var p: nat :| p < |c.projects| && c.projects[p].owner == q.user && c.projects[p].client == q.client;
      p
    else |c.projects|
  }

  lemma OwnProjectFound(c: Cloud, q: Request)
    requires ProjectsDistinct(c.projects)
    ensures EnsureProject(c, q.user, q.client, q.name).1 == OwnProject(c, q)
    ensures HasProject(c.projects, EnsureProject(c, q.user, q.client, q.name).0.projects, q, OwnProject(c, q))
    ensures EnsureProject(c, q.user, q.client, q.name).0 == c.(projects := EnsureProject(c, q.user, q.client, q.name).0.projects)
  {
    var found := FindProject(c.projects, q.user, q.client);
    if found.Some? {
      var p := OwnProject(c, q);
      assert p < |c.projects| && c.projects[p].owner == q.user && c.projects[p].client == q.client;
    }
  }

  // Main result: a sync is authorized exactly if the list is acceptable, the user
  // admitted, a project named and the list fits; its session is for that list and that
  // project, for a quarter of an hour.
  lemma AuthorizeDecided(c: Cloud, cfg: Config, q: Request, quota: Quota, now: Time)
    requires Sound(c)
    ensures var (r, outcome) := Authorize(c, cfg, q, quota, now);
            var normal, project := Normalize(cfg.read, q.resources), OwnProject(c, q);
            && (outcome.Success? <==> normal.Some? && Admitted(q.user, quota) && q.client != ""
                                      && Fits(c, q.user, ProjectBytes(c, project), normal.value, quota.bytes))
            && (outcome.Success? ==>
                  && outcome.value == |c.sessions| && |r.sessions| == |c.sessions| + 1 && r.sessions[..|c.sessions|] == c.sessions
                  && IsSession(r.sessions[|c.sessions|], cfg, q, project, normal.value, now)
                  && HasProject(c.projects, r.projects, q, project) && r.manifests == c.manifests && r.objects == c.objects)
            && (outcome.Failure? ==> r.sessions == c.sessions && r.manifests == c.manifests && r.objects == c.objects)
  {
    OwnProjectFound(c, q);
    if OwnProject(c, q) >= |c.projects| {
      NewProjectEmpty(c, OwnProject(c, q));
    }
  }

  lemma AuthorizeRefused(c: Cloud, cfg: Config, q: Request, quota: Quota, now: Time)
    ensures var outcome, acceptable := Authorize(c, cfg, q, quota, now).1, Normalize(cfg.read, q.resources).Some?;
            && (outcome == Failure(InvalidRequest) <==> !acceptable || q.user == "" || (Admitted(q.user, quota) && q.client == ""))
            && (outcome == Failure(UserNotFound) <==> acceptable && q.user != "" && !quota.known)
            && (outcome == Failure(AccessDenied) <==> acceptable && q.user != "" && quota.known && !(quota.entitled && quota.bytes > 0))
            && (outcome.Failure? && acceptable && Admitted(q.user, quota) && q.client != "" ==> outcome == Failure(OverQuota))
  {
  }

  // ---------------------------------------------------------------- committing

  // The session is the asker's own, open, and for this list.
  predicate OpenFor(s: Session, cfg: Config, q: Request, resources: seq<Resource>, now: Time) {
    && s.owner == q.user && s.client == q.client && s.provider == cfg.provider && s.status == Authorized && s.manifest.None?
    && now <= s.expiresAt && s.fingerprint == resources && s.requestedBytes == Bytes(resources)
  }

  predicate ProjectOf(c: Cloud, s: Session, q: Request) {
    s.project < |c.projects| && c.projects[s.project].owner == q.user && c.projects[s.project].client == q.client
  }

  predicate Named(q: Request) {
    q.key != "" && q.hash != ""
  }

  // Main result: under a new key a commit goes through exactly if the list is acceptable,
  // the user admitted, the session the asker's, open and authorized for this very list,
  // its project the asker's, and the list fits.
  lemma CommitDecided(c: Cloud, cfg: Config, q: Request, quota: Quota, now: Time)
    requires FindManifest(c.manifests, q.key).None?
    ensures var normal := Normalize(cfg.read, q.resources);
            Commit(c, cfg, q, quota, now).Success? <==>
              && normal.Some? && Named(q) && Admitted(q.user, quota)
              && q.session < |c.sessions| && OpenFor(c.sessions[q.session], cfg, q, normal.value, now)
              && ProjectOf(c, c.sessions[q.session], q)
              && Fits(c, q.user, ProjectBytes(c, c.sessions[q.session].project), normal.value, quota.bytes)
  {
  }

  ghost predicate IsManifest(m: Manifest, cfg: Config, q: Request, project: ProjectId, resources: seq<Resource>) {
    && m.owner == q.user && m.project == project && m.session == q.session && m.key == q.key
    && m.count == |resources| && m.totalBytes == Bytes(resources)
    && forall k :: k in m.keys <==> exists i :: 0 <= i < |resources| && k == cfg.keyFor(q.user, q.client, resources[i])
  }

  // Only the session's mark, its project's name and last manifest, and one manifest.
  ghost predicate RecordsAfter(c: Cloud, r: Cloud, cfg: Config, q: Request, resources: seq<Resource>)
    requires q.session < |c.sessions| && c.sessions[q.session].project < |c.projects|
  {
    var s, m := c.sessions[q.session], |c.manifests|;
    && |r.manifests| == m + 1 && r.manifests[..m] == c.manifests && IsManifest(r.manifests[m], cfg, q, s.project, resources)
    && r.sessions == c.sessions[q.session := s.(status := Committed, manifest := Some(m))]
    && |r.projects| == |c.projects| && (forall p :: 0 <= p < |c.projects| && p != s.project ==> r.projects[p] == c.projects[p])
    && r.projects[s.project] ==
         c.projects[s.project].(name := if q.name == "" then c.projects[s.project].name else q.name, lastManifest := Some(m))
  }

  // The manifest's keys are active, each with the last resource given for it; what else
  // of the project was active is replaced, and nothing more has moved.
  ghost predicate ObjectsAfter(c: Cloud, r: Cloud, cfg: Config, q: Request, resources: seq<Resource>, project: ProjectId) {
    var keys := KeysOf(cfg, q.user, q.client, resources);
    && (forall k :: k in r.objects <==> k in c.objects || k in keys)
    && (forall k :: k in keys ==> r.objects[k].status == Active && r.objects[k].manifest == |c.manifests|)
    && (forall i: nat :: LastUnder(cfg, q.user, q.client, resources, i) ==> HoldsResource(r, cfg, q, resources[i]))
    && (forall k :: k in c.objects && k !in keys ==>
          r.objects[k] == if c.objects[k].status == Active && c.objects[k].project == project then c.objects[k].(status := Replaced)
                          else c.objects[k])
  }

  ghost predicate HoldsResource(r: Cloud, cfg: Config, q: Request, n: Resource) {
    var key := cfg.keyFor(q.user, q.client, n);
    key in r.objects && r.objects[key].resource == n
  }

  lemma KeysAreOf(cfg: Config, user: UserId, client: string, resources: seq<Resource>)
    ensures forall k :: k in KeysOf(cfg, user, client, resources) <==> exists i :: 0 <= i < |resources| && k == cfg.keyFor(user, client, resources[i])
  {
  }

  lemma CommittingRecords(c: Cloud, cfg: Config, q: Request, resources: seq<Resource>)
    requires q.session < |c.sessions| && c.sessions[q.session].project < |c.projects|
    ensures RecordsAfter(c, Committing(c, cfg, q, resources), cfg, q, resources)
  {
    KeysAreOf(cfg, q.user, q.client, resources);
  }

  lemma CommittingObjects(c: Cloud, cfg: Config, q: Request, resources: seq<Resource>)
    requires q.session < |c.sessions| && c.sessions[q.session].project < |c.projects|
    ensures ObjectsAfter(c, Committing(c, cfg, q, resources), cfg, q, resources, c.sessions[q.session].project)
  {
    var project, m := c.sessions[q.session].project, |c.manifests|;
    var r := Committing(c, cfg, q, resources);
    UpsertsApply(c.objects, cfg, q.user, q.client, project, m, resources);
    forall i: nat | LastUnder(cfg, q.user, q.client, resources, i)
      ensures HoldsResource(r, cfg, q, resources[i])
    {
      LastWins(c.objects, cfg, q.user, q.client, project, m, resources, i);
    }
  }

  // What a commit that goes through leaves.
  lemma CommitLeaves(c: Cloud, cfg: Config, q: Request, quota: Quota, now: Time)
    requires FindManifest(c.manifests, q.key).None? && Commit(c, cfg, q, quota, now).Success?
    ensures var (r, id) := Commit(c, cfg, q, quota, now).value;
            var resources := Normalize(cfg.read, q.resources).value;
            && id == |c.manifests| && q.session < |c.sessions| && c.sessions[q.session].project < |c.projects|
            && RecordsAfter(c, r, cfg, q, resources) && ObjectsAfter(c, r, cfg, q, resources, c.sessions[q.session].project)
  {
    var resources := Normalize(cfg.read, q.resources).value;
    CommitDecided(c, cfg, q, quota, now);
    CommittingRecords(c, cfg, q, resources);
    CommittingObjects(c, cfg, q, resources);
  }

  // Why a commit is refused, in this order.
  lemma CommitRefused(c: Cloud, cfg: Config, q: Request, quota: Quota, now: Time)
    requires Sound(c) && FindManifest(c.manifests, q.key).None?
    requires Normalize(cfg.read, q.resources).Some? && Named(q) && Admitted(q.user, quota)
    ensures var outcome, resources := Commit(c, cfg, q, quota, now), Normalize(cfg.read, q.resources).value;
            if q.session >= |c.sessions| then outcome == Failure(SessionNotFound)
            else
              var s := c.sessions[q.session];
              var own := s.owner == q.user && s.client == q.client && s.provider == cfg.provider;
              && (!own ==> outcome == Failure(InvalidRequest))
              && (own && s.status == Committed ==> outcome == Failure(AlreadyCommitted))
              && (own && s.status == Authorized && now > s.expiresAt ==> outcome == Failure(SessionExpired))
              && (own && s.status == Authorized && now <= s.expiresAt && s.fingerprint != resources ==> outcome == Failure(InvalidRequest))
              && (OpenFor(s, cfg, q, resources, now) && ProjectOf(c, s, q) && outcome.Failure? ==> outcome == Failure(OverQuota))
  {
    if q.session < |c.sessions| {
      assert SessionSound(c, q.session);
    }
  }

  // Under a used key: the manifest made under it, for the same user and session, and
  // nothing else moves.
  lemma CommitReplayed(c: Cloud, cfg: Config, q: Request, quota: Quota, now: Time, id: ManifestId)
    requires Sound(c) && id < |c.manifests| && c.manifests[id].key == q.key
    requires Normalize(cfg.read, q.resources).Some? && Named(q) && Admitted(q.user, quota)
    ensures Commit(c, cfg, q, quota, now) ==
              if c.manifests[id].owner == q.user && c.manifests[id].session == q.session then Success((c, id)) else Failure(InvalidRequest)
  {
    assert FindManifest(c.manifests, q.key) == Some(id);
    assert ManifestSound(c, id);
  }

  // ---------------------------------------------------------------- over runs

  // A session's list and its bytes, and what of it never changes.
  predicate SameSession(a: Session, b: Session) {
    b == a.(status := b.status, manifest := b.manifest) && (a.manifest.Some? ==> b.manifest == a.manifest)
  }

  ghost predicate Extends(c: Cloud, r: Cloud) {
    && |c.sessions| <= |r.sessions| && (forall i :: 0 <= i < |c.sessions| ==> SameSession(c.sessions[i], r.sessions[i]))
    && |c.manifests| <= |r.manifests| && r.manifests[..|c.manifests|] == c.manifests
  }

  lemma StepExtends(c: Cloud, cfg: Config, step: Step)
    requires Sound(c)
    ensures var r := Act(c, cfg, step);
            Extends(c, r) && |r.sessions| <= |c.sessions| + 1 && |r.manifests| <= |c.manifests| + 1
  {
    match step
    case AuthorizeSync(q, quota, now) => AuthorizeDecided(c, cfg, q, quota, now);
    case CommitManifest(q, quota, now) =>
      if Commit(c, cfg, q, quota, now).Success? && FindManifest(c.manifests, q.key).None? {
        CommitDecided(c, cfg, q, quota, now);
        CommitLeaves(c, cfg, q, quota, now);
      }
  }

  lemma {:induction false} RunExtends(c: Cloud, cfg: Config, steps: seq<Step>)
    requires Sound(c)
    ensures Extends(c, Run(c, cfg, steps))
    decreases |steps|
  {
    if steps != [] {
      var next, r := Act(c, cfg, steps[0]), Run(c, cfg, steps);
      StepExtends(c, cfg, steps[0]);
      ActKeeps(c, cfg, steps[0]);
      RunExtends(next, cfg, steps[1..]);
      assert r.manifests[..|c.manifests|] == r.manifests[..|next.manifests|][..|c.manifests|];
      forall i | 0 <= i < |c.sessions|
        ensures SameSession(c.sessions[i], r.sessions[i])
      {
        assert SameSession(c.sessions[i], next.sessions[i]) && SameSession(next.sessions[i], r.sessions[i]);
      }
    }
  }

  // The step that opened a session, and what it was asked for.
  ghost predicate Opened(c: Cloud, cfg: Config, step: Step, s: Session) {
    && step.AuthorizeSync? && Admitted(step.request.user, step.quota)
    && s.owner == step.request.user && s.client == step.request.client && s.provider == cfg.provider
    && Normalize(cfg.read, step.request.resources) == Some(s.fingerprint) && s.requestedBytes == Bytes(s.fingerprint)
    && Fits(c, s.owner, ProjectBytes(c, s.project), s.fingerprint, step.quota.bytes)
    && s.expiresAt == step.now + 15 * 60
  }

  lemma {:induction false} OpenedBy(c: Cloud, cfg: Config, steps: seq<Step>, id: SessionId) returns (j: nat)
    requires Sound(c) && |c.sessions| <= id < |Run(c, cfg, steps).sessions|
    ensures j < |steps| && |Run(c, cfg, steps[..j]).sessions| == id
    ensures Opened(Run(c, cfg, steps[..j]), cfg, steps[j], Run(c, cfg, steps).sessions[id])
    decreases |steps|
  {
    var next := Act(c, cfg, steps[0]);
    StepExtends(c, cfg, steps[0]);
    ActKeeps(c, cfg, steps[0]);
    if id < |next.sessions| {
      j := 0;
      assert steps[..0] == [];
      RunExtends(next, cfg, steps[1..]);
      assert SameSession(next.sessions[id], Run(next, cfg, steps[1..]).sessions[id]);
      StepOpens(c, cfg, steps[0], id);
    } else {
      var k := OpenedBy(next, cfg, steps[1..], id);
      j := k + 1;
      assert steps[..j][0] == steps[0] && steps[..j][1..] == steps[1..][..k];
    }
  }

  lemma StepOpens(c: Cloud, cfg: Config, step: Step, id: SessionId)
    requires Sound(c) && id == |c.sessions| && id < |Act(c, cfg, step).sessions|
    ensures Opened(c, cfg, step, Act(c, cfg, step).sessions[id])
  {
    match step
    case AuthorizeSync(q, quota, now) => AuthorizeDecided(c, cfg, q, quota, now);
    case CommitManifest(q, quota, now) =>
      if Commit(c, cfg, q, quota, now).Success? && FindManifest(c.manifests, q.key).None? {
        CommitLeaves(c, cfg, q, quota, now);
      }
  }

  // The step that made a manifest under a session.
  ghost predicate CommittedIn(c: Cloud, cfg: Config, step: Step, m: Manifest) {
    && step.CommitManifest? && m.session < |c.sessions| && m.session == step.request.session && m.key == step.request.key
    && m.owner == step.request.user
    && var s := c.sessions[m.session];
       OpenFor(s, cfg, step.request, s.fingerprint, step.now) && IsManifest(m, cfg, step.request, s.project, s.fingerprint)
  }

  lemma StepCommits(c: Cloud, cfg: Config, step: Step, id: ManifestId)
    requires Sound(c) && id == |c.manifests| && id < |Act(c, cfg, step).manifests|
    ensures CommittedIn(c, cfg, step, Act(c, cfg, step).manifests[id])
  {
    match step
    case AuthorizeSync(q, quota, now) => AuthorizeDecided(c, cfg, q, quota, now);
    case CommitManifest(q, quota, now) =>
      if Commit(c, cfg, q, quota, now).Success? && FindManifest(c.manifests, q.key).None? {
        CommitDecided(c, cfg, q, quota, now);
        CommitLeaves(c, cfg, q, quota, now);
      }
  }

  lemma {:induction false} CommittedBy(c: Cloud, cfg: Config, steps: seq<Step>, id: ManifestId) returns (j: nat)
    requires Sound(c) && |c.manifests| <= id < |Run(c, cfg, steps).manifests|
    ensures j < |steps| && |Run(c, cfg, steps[..j]).manifests| == id
    ensures CommittedIn(Run(c, cfg, steps[..j]), cfg, steps[j], Run(c, cfg, steps).manifests[id])
    decreases |steps|
  {
    var next := Act(c, cfg, steps[0]);
    StepExtends(c, cfg, steps[0]);
    ActKeeps(c, cfg, steps[0]);
    if id < |next.manifests| {
      j := 0;
      assert steps[..0] == [];
      RunExtends(next, cfg, steps[1..]);
      assert Run(next, cfg, steps[1..]).manifests[..|next.manifests|][id] == next.manifests[id];
      StepCommits(c, cfg, steps[0], id);
    } else {
      var k := CommittedBy(next, cfg, steps[1..], id);
      j := k + 1;
      assert steps[..j][0] == steps[0] && steps[..j][1..] == steps[1..][..k];
    }
  }

  lemma {:induction false} RunSplit(c: Cloud, cfg: Config, steps: seq<Step>, j: nat)
    requires j <= |steps|
    ensures Run(c, cfg, steps) == Run(Run(c, cfg, steps[..j]), cfg, steps[j..])
    decreases j
  {
    if j == 0 {
      assert steps[..0] == [] && steps[0..] == steps;
    } else {
      assert steps[..j][0] == steps[0] && steps[..j][1..] == steps[1..][..j - 1] && steps[1..][j - 1..] == steps[j..];
      RunSplit(Act(c, cfg, steps[0]), cfg, steps[1..], j - 1);
    }
  }

  // Main result, over runs: every manifest was committed by the user who was authorized
  // for it, within a quarter of an hour, and lists exactly the keys of the list that the
  // authorization was for.
  lemma EveryManifestAuthorized(cfg: Config, steps: seq<Step>, id: ManifestId) returns (j: nat, k: nat)
    requires id < |Run(EMPTY, cfg, steps).manifests|
    ensures j < k < |steps| && steps[j].AuthorizeSync? && steps[k].CommitManifest?
    ensures var m, asked, given := Run(EMPTY, cfg, steps).manifests[id], steps[j].request, steps[k].request;
            && m.owner == asked.user == given.user && asked.client == given.client && m.key == given.key && m.session == given.session
            && Admitted(asked.user, steps[j].quota) && steps[k].now <= steps[j].now + 15 * 60
            && Normalize(cfg.read, asked.resources).Some?
            && IsManifest(m, cfg, given, m.project, Normalize(cfg.read, asked.resources).value)
  {
    var c := Run(EMPTY, cfg, steps);
    var m := c.manifests[id];
    k := CommittedBy(EMPTY, cfg, steps, id);
    var before := Run(EMPTY, cfg, steps[..k]);
    j := OpenedBy(EMPTY, cfg, steps[..k], m.session);
    assert steps[..k][j] == steps[j];
  }
}
