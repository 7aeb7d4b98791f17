/** A committed manifest and the object index agree, the user stays within quota,
    and a session is committed at most once. */
module CloudIndex {
  import opened Wrappers
  import opened Totals
  import opened CloudResources
  import opened CloudSpec

  // ---------------------------------------------------------------- upserts

  // The last of the resources that go under a key.
  ghost predicate LastUnder(cfg: Config, user: UserId, client: string, resources: seq<Resource>, i: nat) {
    && i < |resources|
    && forall j :: i < j < |resources| ==> cfg.keyFor(user, client, resources[j]) != cfg.keyFor(user, client, resources[i])
  }

  // The rows after the upserts: the manifest's keys are active under whoever had
  // them before, all else is as it was.
  ghost predicate Upserted(before: map<ObjectKey, Object>, after: map<ObjectKey, Object>, keys: set<ObjectKey>, user: UserId,
                           project: ProjectId, manifest: ManifestId)
  {
    && after.Keys == before.Keys + keys
    && (forall k :: k in before && k !in keys ==> after[k] == before[k])
    && (forall k :: k in keys ==>
          && after[k].status == Active && after[k].manifest == manifest
          && after[k].project == (if k in before then before[k].project else project)
          && after[k].owner == (if k in before then before[k].owner else user))
  }

  lemma KeysOfFront(cfg: Config, user: UserId, client: string, resources: seq<Resource>)
    requires resources != []
    ensures KeysOf(cfg, user, client, resources)
         == KeysOf(cfg, user, client, resources[..|resources| - 1]) + {cfg.keyFor(user, client, resources[|resources| - 1])}
  {
    var front := resources[..|resources| - 1];
    forall i | 0 <= i < |resources|
      ensures cfg.keyFor(user, client, resources[i]) in KeysOf(cfg, user, client, front) + {cfg.keyFor(user, client, resources[|resources| - 1])}
    {
      assert i < |front| ==> front[i] == resources[i];
    }
    forall i | 0 <= i < |front|
      ensures cfg.keyFor(user, client, front[i]) in KeysOf(cfg, user, client, resources)
    {
      assert front[i] == resources[i];
    }
  }

  lemma UpsertsOneMore(before: map<ObjectKey, Object>, m: map<ObjectKey, Object>, keys: set<ObjectKey>, user: UserId,
                       project: ProjectId, manifest: ManifestId, key: ObjectKey, r: Resource)
    requires Upserted(before, m, keys, user, project, manifest)
    ensures Upserted(before, Upsert(m, key, Object(user, project, manifest, r, Active)), keys + {key}, user, project, manifest)
  {
  }

  lemma {:induction false} UpsertsApply(objects: map<ObjectKey, Object>, cfg: Config, user: UserId, client: string, project: ProjectId,
                                        manifest: ManifestId, resources: seq<Resource>)
    ensures Upserted(objects, UpsertAll(objects, cfg, user, client, project, manifest, resources), KeysOf(cfg, user, client, resources),
                     user, project, manifest)
  {
    if resources != [] {
      var front, r := resources[..|resources| - 1], resources[|resources| - 1];
      UpsertsApply(objects, cfg, user, client, project, manifest, front);
      KeysOfFront(cfg, user, client, resources);
      UpsertsOneMore(objects, UpsertAll(objects, cfg, user, client, project, manifest, front), KeysOf(cfg, user, client, front),
                     user, project, manifest, cfg.keyFor(user, client, r), r);
    }
  }

  // A key holds the last resource given for it.
  lemma {:induction false} LastWins(objects: map<ObjectKey, Object>, cfg: Config, user: UserId, client: string, project: ProjectId,
                                    manifest: ManifestId, resources: seq<Resource>, i: nat)
    requires LastUnder(cfg, user, client, resources, i)
    ensures var after := UpsertAll(objects, cfg, user, client, project, manifest, resources);
            var key := cfg.keyFor(user, client, resources[i]);
            key in after && after[key].resource == resources[i]
    decreases |resources|
  {
    var front := resources[..|resources| - 1];
    if i < |front| {
      assert forall j :: 0 <= j < |front| ==> front[j] == resources[j];
      LastWins(objects, cfg, user, client, project, manifest, front, i);
    }
  }

  // ---------------------------------------------------------------- the index of one project

  ghost predicate Unshared(objects: map<ObjectKey, Object>, project: ProjectId, keys: set<ObjectKey>) {
    forall k :: k in keys && k in objects ==> objects[k].project == project
  }

  // After a commit the project's active keys are exactly the manifest's - if and
  // only if none of those keys already belongs to another project.
  lemma IndexIsManifest(c: Cloud, cfg: Config, q: Request, resources: seq<Resource>)
    requires q.session < |c.sessions|
    ensures var project, keys := c.sessions[q.session].project, KeysOf(cfg, q.user, q.client, resources);
            var index := IndexAfter(c, cfg, q, resources);
            && ActiveOf(index, project).Keys <= keys
            && (ActiveOf(index, project).Keys == keys <==> Unshared(c.objects, project, keys))
  {
    var project, keys := c.sessions[q.session].project, KeysOf(cfg, q.user, q.client, resources);
    var upserted := UpsertAll(c.objects, cfg, q.user, q.client, project, |c.manifests|, resources);
    var index := IndexAfter(c, cfg, q, resources);
    UpsertsApply(c.objects, cfg, q.user, q.client, project, |c.manifests|, resources);
    forall k
      ensures k in ActiveOf(index, project) <==> k in keys && (k in c.objects ==> c.objects[k].project == project)
    {
      if k in keys {
        assert index[k] == upserted[k];
      } else if k in c.objects {
        assert upserted[k] == c.objects[k];
      }
    }
    if !Unshared(c.objects, project, keys) {
      var k :| k in keys && k in c.objects && c.objects[k].project != project;
      assert k !in ActiveOf(index, project).Keys;
    }
  }

  // ---------------------------------------------------------------- bytes

  ghost predicate SizesGood(objects: map<ObjectKey, Object>) {
    forall k :: k in objects ==> objects[k].resource.size >= 0
  }

  // Every row belongs to its project's owner.
  ghost predicate OwnersGood(c: Cloud) {
    forall k :: k in c.objects ==> c.objects[k].project < |c.projects| && c.objects[k].owner == c.projects[c.objects[k].project].owner
  }

  // The bytes under the manifest's keys, each key once.
  ghost function KeptBytes(after: map<ObjectKey, Object>, keys: set<ObjectKey>): map<ObjectKey, int>
    requires keys <= after.Keys
  {
    map k | k in keys :: after[k].resource.size
  }

  predicate AllSized(resources: seq<Resource>) {
    forall i :: 0 <= i < |resources| ==> resources[i].size >= 0
  }

  predicate DistinctKeys(cfg: Config, user: UserId, client: string, resources: seq<Resource>) {
    forall i, j :: 0 <= i < j < |resources| ==> cfg.keyFor(user, client, resources[i]) != cfg.keyFor(user, client, resources[j])
  }

  lemma KeptStep(before: map<ObjectKey, Object>, after: map<ObjectKey, Object>, keys: set<ObjectKey>, key: ObjectKey, r: Resource)
    requires keys <= before.Keys && after.Keys == before.Keys + {key} && SizesGood(before)
    requires forall k :: k in before && k != key ==> after[k] == before[k]
    requires after[key].resource == r
    ensures Total(KeptBytes(after, keys + {key})) == Total(KeptBytes(before, keys)) + r.size - (if key in keys then before[key].resource.size else 0)
  {
    var kept := KeptBytes(before, keys);
    TotalSet(kept, key, r.size);
    assert KeptBytes(after, keys + {key}) == kept[key := r.size];
  }

  lemma FrontDistinct(cfg: Config, user: UserId, client: string, resources: seq<Resource>)
    requires resources != []
    ensures var front, key := resources[..|resources| - 1], cfg.keyFor(user, client, resources[|resources| - 1]);
            DistinctKeys(cfg, user, client, resources) ==>
              DistinctKeys(cfg, user, client, front) && key !in KeysOf(cfg, user, client, front)
  {
    var front := resources[..|resources| - 1];
    assert forall i :: 0 <= i < |front| ==> front[i] == resources[i];
  }

  ghost predicate KeptWithin(after: map<ObjectKey, Object>, keys: set<ObjectKey>, bytes: int, exact: bool) {
    && keys <= after.Keys && SizesGood(after)
    && Total(KeptBytes(after, keys)) <= bytes
    && (exact ==> Total(KeptBytes(after, keys)) == bytes)
  }

  lemma KeptOneMore(before: map<ObjectKey, Object>, keys: set<ObjectKey>, bytes: int, exact: bool, key: ObjectKey, o: Object, distinct: bool)
    requires KeptWithin(before, keys, bytes, exact) && o.resource.size >= 0
    requires distinct ==> exact && key !in keys
    ensures KeptWithin(Upsert(before, key, o), keys + {key}, bytes + o.resource.size, distinct)
  {
    KeptStep(before, Upsert(before, key, o), keys, key, o.resource);
  }

  // Colliding keys can only save bytes.
  lemma {:induction false} KeptAtMost(objects: map<ObjectKey, Object>, cfg: Config, user: UserId, client: string, project: ProjectId,
                                      manifest: ManifestId, resources: seq<Resource>)
    requires AllSized(resources) && SizesGood(objects)
    ensures KeptWithin(UpsertAll(objects, cfg, user, client, project, manifest, resources), KeysOf(cfg, user, client, resources),
                       Bytes(resources), DistinctKeys(cfg, user, client, resources))
  {
    if resources == [] {
      assert KeptBytes(objects, {}) == map[];
      assert KeysOf(cfg, user, client, resources) == {};
    } else {
      var front, r := resources[..|resources| - 1], resources[|resources| - 1];
      KeptAtMost(objects, cfg, user, client, project, manifest, front);
      KeysOfFront(cfg, user, client, resources);
      FrontDistinct(cfg, user, client, resources);
      KeptOneMore(UpsertAll(objects, cfg, user, client, project, manifest, front), KeysOf(cfg, user, client, front), Bytes(front),
                  DistinctKeys(cfg, user, client, front), cfg.keyFor(user, client, r), Object(user, project, manifest, r, Active),
                  DistinctKeys(cfg, user, client, resources));
    }
  }

  // What the user has active before, outside the project; and what is kept of it.
  lemma BytesSplit(c: Cloud, project: ProjectId, user: UserId)
    requires OwnersGood(c) && SizesGood(c.objects) && project < |c.projects| && c.projects[project].owner == user
    ensures var all, inside := ActiveFor(c.objects, user), ActiveOf(c.objects, project);
            Total(all) == Total(inside) + Total(all - inside.Keys) && 0 <= Total(inside) <= Total(all)
  {
    var all, inside := ActiveFor(c.objects, user), ActiveOf(c.objects, project);
    assert inside + (all - inside.Keys) == all;
    TotalUnion(inside, all - inside.Keys);
    TotalPart(inside, all);
  }

  lemma {:induction false} BytesAfter(c: Cloud, cfg: Config, q: Request, resources: seq<Resource>)
    requires q.session < |c.sessions| && c.sessions[q.session].project < |c.projects|
    requires OwnersGood(c) && SizesGood(c.objects) && AllSized(resources)
    requires c.projects[c.sessions[q.session].project].owner == q.user
    ensures var project := c.sessions[q.session].project;
            var index, keys := IndexAfter(c, cfg, q, resources), KeysOf(cfg, q.user, q.client, resources);
            && Total(ActiveFor(index, q.user)) <= UsedBytes(c, q.user) - Total(ActiveOf(c.objects, project)) + Bytes(resources)
            && (DistinctKeys(cfg, q.user, q.client, resources) && Unshared(c.objects, project, keys) ==>
                  Total(ActiveFor(index, q.user)) == UsedBytes(c, q.user) - Total(ActiveOf(c.objects, project)) + Bytes(resources))
  {
    var project, m := c.sessions[q.session].project, |c.manifests|;
    var keys := KeysOf(cfg, q.user, q.client, resources);
    var upserted := UpsertAll(c.objects, cfg, q.user, q.client, project, m, resources);
    var index := IndexAfter(c, cfg, q, resources);
    UpsertsApply(c.objects, cfg, q.user, q.client, project, m, resources);
    KeptAtMost(c.objects, cfg, q.user, q.client, project, m, resources);
    BytesSplit(c, project, q.user);
    AfterSplit(c, index, upserted, project, q.user, keys, m);
  }

  function Without(m: map<ObjectKey, int>, keys: set<ObjectKey>): map<ObjectKey, int> {
    map k | k in m && k !in keys :: m[k]
  }

  function Within(m: map<ObjectKey, int>, keys: set<ObjectKey>): map<ObjectKey, int> {
    map k | k in m && k in keys :: m[k]
  }

  lemma SplitTotal(m: map<ObjectKey, int>, keys: set<ObjectKey>)
    ensures Total(m) == Total(Without(m, keys)) + Total(Within(m, keys))
  {
    TotalUnion(Without(m, keys), Within(m, keys));
    assert m == Without(m, keys) + Within(m, keys);
  }

  // The active rows afterwards: those of other projects that were not touched, and
  // the manifest's own.
  lemma AfterSplit(c: Cloud, index: map<ObjectKey, Object>, upserted: map<ObjectKey, Object>, project: ProjectId, user: UserId,
                   keys: set<ObjectKey>, manifest: ManifestId)
    requires OwnersGood(c) && SizesGood(c.objects) && SizesGood(upserted)
    requires project < |c.projects| && c.projects[project].owner == user
    requires Upserted(c.objects, upserted, keys, user, project, manifest)
    requires index == ReplaceAll(upserted, ActiveOf(c.objects, project).Keys - keys)
    ensures var outside := ActiveFor(c.objects, user) - ActiveOf(c.objects, project).Keys;
            && Total(ActiveFor(index, user)) <= Total(outside) + Total(KeptBytes(upserted, keys))
            && (Unshared(c.objects, project, keys) ==> Total(ActiveFor(index, user)) == Total(outside) + Total(KeptBytes(upserted, keys)))
  {
    SplitTotal(ActiveFor(index, user), keys);
    UnlistedRows(c, index, upserted, project, user, keys, manifest);
    OthersWithin(c, index, project, user, keys);
    ListedRows(c, index, upserted, project, user, keys, manifest);
    MineWithin(index, upserted, user, keys);
  }

  // The rows the commit did not list, as they stand in the new index.
  ghost predicate Unlisted(before: map<ObjectKey, Object>, index: map<ObjectKey, Object>, project: ProjectId, keys: set<ObjectKey>) {
    forall k :: k !in keys ==>
      && (k in index <==> k in before)
      && (k in index ==> index[k] == if before[k].status == Active && before[k].project == project then before[k].(status := Replaced) else before[k])
  }

  lemma UnlistedRows(c: Cloud, index: map<ObjectKey, Object>, upserted: map<ObjectKey, Object>, project: ProjectId, user: UserId,
                     keys: set<ObjectKey>, manifest: ManifestId)
    requires Upserted(c.objects, upserted, keys, user, project, manifest)
    requires index == ReplaceAll(upserted, ActiveOf(c.objects, project).Keys - keys)
    ensures Unlisted(c.objects, index, project, keys)
  {
  }

  lemma OthersAre(c: Cloud, index: map<ObjectKey, Object>, project: ProjectId, user: UserId, keys: set<ObjectKey>)
    requires OwnersGood(c) && project < |c.projects| && c.projects[project].owner == user
    requires Unlisted(c.objects, index, project, keys)
    ensures Without(ActiveFor(index, user), keys) == Without(ActiveFor(c.objects, user) - ActiveOf(c.objects, project).Keys, keys)
  {
  }

  lemma OthersWithin(c: Cloud, index: map<ObjectKey, Object>, project: ProjectId, user: UserId, keys: set<ObjectKey>)
    requires OwnersGood(c) && SizesGood(c.objects) && project < |c.projects| && c.projects[project].owner == user
    requires Unlisted(c.objects, index, project, keys)
    ensures var outside := ActiveFor(c.objects, user) - ActiveOf(c.objects, project).Keys;
            && Total(Without(ActiveFor(index, user), keys)) <= Total(outside)
            && (Unshared(c.objects, project, keys) ==> Total(Without(ActiveFor(index, user), keys)) == Total(outside))
  {
    var outside := ActiveFor(c.objects, user) - ActiveOf(c.objects, project).Keys;
    OthersAre(c, index, project, user, keys);
    TotalPart(Without(outside, keys), outside);
    if Unshared(c.objects, project, keys) {
      assert Without(outside, keys) == outside;
    }
  }

  ghost predicate ListedActive(index: map<ObjectKey, Object>, upserted: map<ObjectKey, Object>, keys: set<ObjectKey>) {
    forall k :: k in keys ==> k in index && k in upserted && index[k] == upserted[k] && index[k].status == Active
  }

  lemma ListedRows(c: Cloud, index: map<ObjectKey, Object>, upserted: map<ObjectKey, Object>, project: ProjectId, user: UserId,
                   keys: set<ObjectKey>, manifest: ManifestId)
    requires OwnersGood(c) && project < |c.projects| && c.projects[project].owner == user
    requires Upserted(c.objects, upserted, keys, user, project, manifest)
    requires index == ReplaceAll(upserted, ActiveOf(c.objects, project).Keys - keys)
    ensures ListedActive(index, upserted, keys)
    ensures Unshared(c.objects, project, keys) ==> forall k :: k in keys ==> index[k].owner == user
  {
  }

  lemma MineWithin(index: map<ObjectKey, Object>, upserted: map<ObjectKey, Object>, user: UserId, keys: set<ObjectKey>)
    requires ListedActive(index, upserted, keys) && SizesGood(upserted)
    ensures keys <= upserted.Keys
    ensures Total(Within(ActiveFor(index, user), keys)) <= Total(KeptBytes(upserted, keys))
    ensures (forall k :: k in keys ==> index[k].owner == user) ==>
              Total(Within(ActiveFor(index, user), keys)) == Total(KeptBytes(upserted, keys))
  {
    var kept, mine := KeptBytes(upserted, keys), Within(ActiveFor(index, user), keys);
    TotalPart(mine, kept);
    if forall k :: k in keys ==> index[k].owner == user {
      assert mine == kept;
    }
  }

  // ---------------------------------------------------------------- invariant

  // What every run keeps: rows belong to projects of their owner, sizes are counts,
  // sessions and projects name each other's owners, and exactly the committed
  // sessions have a manifest, one each.
  ghost predicate SessionSound(c: Cloud, id: SessionId)
    requires id < |c.sessions|
  {
    var s := c.sessions[id];
    && s.project < |c.projects| && AllSized(s.fingerprint)
    && (s.status == Committed <==> s.manifest.Some?)
    && (s.manifest.Some? ==> s.manifest.value < |c.manifests| && c.manifests[s.manifest.value].session == id)
  }

  ghost predicate ManifestSound(c: Cloud, id: ManifestId)
    requires id < |c.manifests|
  {
    var m := c.manifests[id];
    && m.session < |c.sessions| && c.sessions[m.session].manifest == Some(id)
    && m.project < |c.projects| && m.owner == c.projects[m.project].owner
  }

  ghost predicate SessionsSound(c: Cloud) {
    forall i :: 0 <= i < |c.sessions| ==> SessionSound(c, i)
  }

  ghost predicate ManifestsSound(c: Cloud) {
    && (forall i :: 0 <= i < |c.manifests| ==> ManifestSound(c, i))
    && (forall i, j :: 0 <= i < j < |c.manifests| ==> c.manifests[i].key != c.manifests[j].key)
  }

  ghost predicate ProjectsDistinct(projects: seq<Project>) {
    forall i, j :: 0 <= i < j < |projects| ==> projects[i].owner != projects[j].owner || projects[i].client != projects[j].client
  }

  ghost predicate Sound(c: Cloud) {
    OwnersGood(c) && SizesGood(c.objects) && SessionsSound(c) && ManifestsSound(c) && ProjectsDistinct(c.projects)
  }

  lemma {:induction false} NormalSized(read: Resource -> Resource, resources: seq<Resource>)
    requires Normalize(read, resources).Some?
    ensures AllSized(Normalize(read, resources).value)
  {
    CollectEnters(ReadAll(read, resources));
    LastGivenFrom(ReadAll(read, resources));
  }

  lemma {:induction false} LastGivenFrom(resources: seq<Resource>)
    ensures forall id :: id in LastGiven(resources) ==> LastGiven(resources)[id] in resources
  {
    if resources != [] {
      LastGivenFrom(resources[..|resources| - 1]);
    }
  }

  lemma EnsureKeeps(c: Cloud, user: UserId, client: string, name: string)
    requires Sound(c)
    ensures var r := EnsureProject(c, user, client, name);
            && Sound(r.0) && r.1 < |r.0.projects| && r.0.projects[r.1].owner == user && r.0.projects[r.1].client == client
            && r.0.objects == c.objects && r.0.sessions == c.sessions
  {
    var r := EnsureProject(c, user, client, name).0;
    assert forall i :: 0 <= i < |c.projects| ==> r.projects[i].owner == c.projects[i].owner && r.projects[i].client == c.projects[i].client;
    forall i | 0 <= i < |r.sessions|
      ensures SessionSound(r, i)
    {
      assert SessionSound(c, i);
    }
    forall i | 0 <= i < |r.manifests|
      ensures ManifestSound(r, i)
    {
      assert ManifestSound(c, i);
    }
  }

  lemma AuthorizeKeeps(c: Cloud, cfg: Config, q: Request, quota: Quota, now: Time)
    requires Sound(c)
    ensures Sound(Authorize(c, cfg, q, quota, now).0) && Authorize(c, cfg, q, quota, now).0.objects == c.objects
  {
    var r := Authorize(c, cfg, q, quota, now).0;
    if r != c {
      EnsureKeeps(c, q.user, q.client, q.name);
      NormalSized(cfg.read, q.resources);
      var c1 := EnsureProject(c, q.user, q.client, q.name).0;
      forall i | 0 <= i < |r.sessions|
        ensures SessionSound(r, i)
      {
        if i < |c1.sessions| {
          assert SessionSound(c1, i);
        }
      }
      forall i | 0 <= i < |r.manifests|
        ensures ManifestSound(r, i)
      {
        assert ManifestSound(c1, i);
      }
    }
  }

  lemma CommitOwners(c: Cloud, cfg: Config, q: Request, resources: seq<Resource>)
    requires OwnersGood(c) && SizesGood(c.objects) && AllSized(resources)
    requires q.session < |c.sessions| && c.sessions[q.session].project < |c.projects|
    requires c.projects[c.sessions[q.session].project].owner == q.user
    ensures OwnersGood(Committing(c, cfg, q, resources)) && SizesGood(IndexAfter(c, cfg, q, resources))
  {
    var project, m := c.sessions[q.session].project, |c.manifests|;
    UpsertsApply(c.objects, cfg, q.user, q.client, project, m, resources);
    KeptAtMost(c.objects, cfg, q.user, q.client, project, m, resources);
    var r := Committing(c, cfg, q, resources);
    assert forall i :: 0 <= i < |c.projects| ==> r.projects[i].owner == c.projects[i].owner;
  }

  lemma CommitRecords(c: Cloud, cfg: Config, q: Request, resources: seq<Resource>)
    requires SessionsSound(c) && ManifestsSound(c) && ProjectsDistinct(c.projects)
    requires q.session < |c.sessions| && c.sessions[q.session].project < |c.projects|
    requires c.projects[c.sessions[q.session].project].owner == q.user
    requires c.sessions[q.session].status == Authorized && FindManifest(c.manifests, q.key).None?
    ensures var r := Committing(c, cfg, q, resources); SessionsSound(r) && ManifestsSound(r) && ProjectsDistinct(r.projects)
  {
    var r := Committing(c, cfg, q, resources);
    assert forall i :: 0 <= i < |c.projects| ==> r.projects[i].owner == c.projects[i].owner && r.projects[i].client == c.projects[i].client;
    forall i | 0 <= i < |r.sessions|
      ensures SessionSound(r, i)
    {
      assert SessionSound(c, i);
    }
    forall i | 0 <= i < |r.manifests|
      ensures ManifestSound(r, i)
    {
      if i < |c.manifests| {
        assert ManifestSound(c, i);
        assert SessionSound(c, q.session);
      }
    }
  }

  // ---------------------------------------------------------------- one commit

  // A commit that goes through: the user ends within the quota, by the amount
  // foretold if the manifest's keys are distinct and its project's own.
  lemma CommitWithinQuota(c: Cloud, cfg: Config, q: Request, quota: Quota, now: Time)
    requires Sound(c) && Commit(c, cfg, q, quota, now).Success? && Commit(c, cfg, q, quota, now).value.0 != c
    ensures var r, resources := Commit(c, cfg, q, quota, now).value.0, Normalize(cfg.read, q.resources).value;
            var project := c.sessions[q.session].project;
            && Sound(r) && r == Committing(c, cfg, q, resources)
            && UsedBytes(r, q.user) <= Projected(c, project, UsedBytes(c, q.user), resources) <= quota.bytes
            && (DistinctKeys(cfg, q.user, q.client, resources) && Unshared(c.objects, project, KeysOf(cfg, q.user, q.client, resources)) ==>
                  UsedBytes(r, q.user) == Projected(c, project, UsedBytes(c, q.user), resources))
  {
    var resources, project := Normalize(cfg.read, q.resources).value, c.sessions[q.session].project;
    NormalSized(cfg.read, q.resources);
    BytesAfter(c, cfg, q, resources);
    BytesSplit(c, project, q.user);
    CommitOwners(c, cfg, q, resources);
    CommitRecords(c, cfg, q, resources);
  }

  lemma ActKeeps(c: Cloud, cfg: Config, step: Step)
    requires Sound(c)
    ensures Sound(Act(c, cfg, step))
  {
    match step
    case AuthorizeSync(q, quota, now) => AuthorizeKeeps(c, cfg, q, quota, now);
    case CommitManifest(q, quota, now) =>
      if Act(c, cfg, step) != c {
        CommitWithinQuota(c, cfg, q, quota, now);
      }
  }

  lemma {:induction false} RunKeeps(c: Cloud, cfg: Config, steps: seq<Step>)
    requires Sound(c)
    ensures Sound(Run(c, cfg, steps))
    decreases |steps|
  {
    if steps != [] {
      ActKeeps(c, cfg, steps[0]);
      RunKeeps(Act(c, cfg, steps[0]), cfg, steps[1..]);
    }
  }

  // ---------------------------------------------------------------- every run

  function ManifestsOf(manifests: seq<Manifest>, session: SessionId): nat {
    if manifests == [] then 0
    else ManifestsOf(manifests[..|manifests| - 1], session) + if manifests[|manifests| - 1].session == session then 1 else 0
  }

  lemma {:induction false} ManifestsCounted(manifests: seq<Manifest>, session: SessionId, only: Option<ManifestId>)
    requires forall i :: 0 <= i < |manifests| && manifests[i].session == session ==> Some(i) == only
    ensures ManifestsOf(manifests, session) == if only.Some? && only.value < |manifests| && manifests[only.value].session == session then 1 else 0
  {
    if manifests != [] {
      ManifestsCounted(manifests[..|manifests| - 1], session, only);
    }
  }

  // Over every run each session is committed at most once: it has one manifest if
  // it is marked committed and none otherwise.
  lemma CommittedAtMostOnce(cfg: Config, steps: seq<Step>, session: SessionId)
    ensures var c := Run(EMPTY, cfg, steps);
            session < |c.sessions| ==> ManifestsOf(c.manifests, session) == if c.sessions[session].status == Committed then 1 else 0
  {
    RunKeeps(EMPTY, cfg, steps);
    var c := Run(EMPTY, cfg, steps);
    if session < |c.sessions| {
      assert SessionSound(c, session);
      forall i | 0 <= i < |c.manifests| && c.manifests[i].session == session
        ensures Some(i) == c.sessions[session].manifest
      {
        assert ManifestSound(c, i);
      }
      ManifestsCounted(c.manifests, session, c.sessions[session].manifest);
    }
  }

  // No two of the projects can build the same object key.
  ghost predicate KeysApart(cfg: Config, projects: seq<Project>) {
    forall i, j, r, s :: 0 <= i < j < |projects| ==>
      cfg.keyFor(projects[i].owner, projects[i].client, r) != cfg.keyFor(projects[j].owner, projects[j].client, s)
  }

  // The index of every project is what its last manifest lists.
  ghost predicate Indexed(c: Cloud) {
    forall p :: 0 <= p < |c.projects| ==> ActiveOf(c.objects, p).Keys == LastKeys(c, p)
  }

  function LastKeys(c: Cloud, p: ProjectId): set<ObjectKey>
    requires p < |c.projects|
  {
    var last := c.projects[p].lastManifest;
    if last.Some? && last.value < |c.manifests| then c.manifests[last.value].keys else {}
  }

  // Every row sits under the key its own project builds for its resource.
  ghost predicate KeysOwned(c: Cloud, cfg: Config) {
    forall k :: k in c.objects ==>
      c.objects[k].project < |c.projects|
      && var p := c.projects[c.objects[k].project]; k == cfg.keyFor(p.owner, p.client, c.objects[k].resource)
  }

  ghost predicate LastManifestsKnown(c: Cloud) {
    forall p :: 0 <= p < |c.projects| && c.projects[p].lastManifest.Some? ==> c.projects[p].lastManifest.value < |c.manifests|
  }

  ghost predicate InIndex(c: Cloud, cfg: Config) {
    Indexed(c) && LastManifestsKnown(c) && KeysOwned(c, cfg)
  }

  ghost predicate CommitReady(c: Cloud, q: Request, resources: seq<Resource>) {
    && q.session < |c.sessions| && c.sessions[q.session].project < |c.projects|
    && c.projects[c.sessions[q.session].project].owner == q.user && c.projects[c.sessions[q.session].project].client == q.client
  }

  lemma OwnKeysUnshared(c: Cloud, cfg: Config, q: Request, resources: seq<Resource>)
    requires KeysApart(cfg, c.projects) && KeysOwned(c, cfg) && CommitReady(c, q, resources)
    ensures Unshared(c.objects, c.sessions[q.session].project, KeysOf(cfg, q.user, q.client, resources))
  {
    var project, keys := c.sessions[q.session].project, KeysOf(cfg, q.user, q.client, resources);
    forall k | k in keys && k in c.objects
      ensures c.objects[k].project == project
    {
      var i :| 0 <= i < |resources| && k == cfg.keyFor(q.user, q.client, resources[i]);
      var p := c.projects[c.objects[k].project];
      assert cfg.keyFor(p.owner, p.client, c.objects[k].resource) == cfg.keyFor(q.user, q.client, resources[i]);
    }
  }

  lemma {:induction false} UpsertsOwned(c: Cloud, cfg: Config, user: UserId, client: string, project: ProjectId, manifest: ManifestId,
                                        resources: seq<Resource>)
    requires KeysOwned(c, cfg) && project < |c.projects| && c.projects[project].owner == user && c.projects[project].client == client
    requires Unshared(c.objects, project, KeysOf(cfg, user, client, resources))
    ensures KeysOwned(c.(objects := UpsertAll(c.objects, cfg, user, client, project, manifest, resources)), cfg)
    decreases |resources|
  {
    if resources != [] {
      var front, r := resources[..|resources| - 1], resources[|resources| - 1];
      KeysOfFront(cfg, user, client, resources);
      UpsertsOwned(c, cfg, user, client, project, manifest, front);
      UpsertsApply(c.objects, cfg, user, client, project, manifest, front);
    }
  }

  lemma CommitOwned(c: Cloud, cfg: Config, q: Request, resources: seq<Resource>)
    requires KeysApart(cfg, c.projects) && KeysOwned(c, cfg) && CommitReady(c, q, resources)
    ensures KeysOwned(Committing(c, cfg, q, resources), cfg)
  {
    var project := c.sessions[q.session].project;
    OwnKeysUnshared(c, cfg, q, resources);
    UpsertsOwned(c, cfg, q.user, q.client, project, |c.manifests|, resources);
    var upserted := c.(objects := UpsertAll(c.objects, cfg, q.user, q.client, project, |c.manifests|, resources));
    var r := Committing(c, cfg, q, resources);
    forall k | k in r.objects
      ensures r.objects[k].project < |r.projects|
      ensures var p := r.projects[r.objects[k].project]; k == cfg.keyFor(p.owner, p.client, r.objects[k].resource)
    {
      var p := c.projects[upserted.objects[k].project];
      assert k == cfg.keyFor(p.owner, p.client, upserted.objects[k].resource);
    }
  }

  // Other projects' indexes are untouched.
  lemma OthersIndexed(c: Cloud, cfg: Config, q: Request, resources: seq<Resource>, p: ProjectId)
    requires CommitReady(c, q, resources) && p != c.sessions[q.session].project
    requires Unshared(c.objects, c.sessions[q.session].project, KeysOf(cfg, q.user, q.client, resources))
    ensures ActiveOf(IndexAfter(c, cfg, q, resources), p).Keys == ActiveOf(c.objects, p).Keys
  {
    var project, keys := c.sessions[q.session].project, KeysOf(cfg, q.user, q.client, resources);
    var upserted := UpsertAll(c.objects, cfg, q.user, q.client, project, |c.manifests|, resources);
    UpsertsApply(c.objects, cfg, q.user, q.client, project, |c.manifests|, resources);
    var index := IndexAfter(c, cfg, q, resources);
    forall k
      ensures k in ActiveOf(index, p) <==> k in ActiveOf(c.objects, p)
    {
      if k !in keys && k in c.objects {
        assert upserted[k] == c.objects[k];
      }
    }
  }

  lemma CommitIndexed(c: Cloud, cfg: Config, q: Request, resources: seq<Resource>)
    requires KeysApart(cfg, c.projects) && InIndex(c, cfg) && CommitReady(c, q, resources)
    ensures Indexed(Committing(c, cfg, q, resources)) && LastManifestsKnown(Committing(c, cfg, q, resources))
  {
    var r, project := Committing(c, cfg, q, resources), c.sessions[q.session].project;
    OwnKeysUnshared(c, cfg, q, resources);
    IndexIsManifest(c, cfg, q, resources);
    forall p | 0 <= p < |r.projects|
      ensures ActiveOf(r.objects, p).Keys == LastKeys(r, p)
    {
      if p != project {
        OthersIndexed(c, cfg, q, resources, p);
        assert ActiveOf(c.objects, p).Keys == LastKeys(c, p);
      }
    }
  }

  lemma EnsureIndexed(c: Cloud, cfg: Config, user: UserId, client: string, name: string)
    requires Indexed(c) && LastManifestsKnown(c) && KeysOwned(c, cfg)
    ensures var r := EnsureProject(c, user, client, name).0; Indexed(r) && LastManifestsKnown(r) && KeysOwned(r, cfg)
  {
    var r := EnsureProject(c, user, client, name).0;
    forall p | 0 <= p < |r.projects|
      ensures ActiveOf(r.objects, p).Keys == LastKeys(r, p)
    {
      if p < |c.projects| {
        assert ActiveOf(c.objects, p).Keys == LastKeys(c, p);
      } else {
        assert forall k :: k in c.objects ==> c.objects[k].project < |c.projects|;
        assert ActiveOf(r.objects, p).Keys == {};
      }
    }
    forall k | k in r.objects
      ensures r.objects[k].project < |r.projects|
      ensures var p := r.projects[r.objects[k].project]; k == cfg.keyFor(p.owner, p.client, r.objects[k].resource)
    {
      var p := c.projects[c.objects[k].project];
      assert k == cfg.keyFor(p.owner, p.client, c.objects[k].resource);
    }
  }

  lemma AuthorizeIndexed(c: Cloud, cfg: Config, q: Request, quota: Quota, now: Time)
    requires InIndex(c, cfg)
    ensures InIndex(Authorize(c, cfg, q, quota, now).0, cfg)
  {
    EnsureIndexed(c, cfg, q.user, q.client, q.name);
    var c1 := EnsureProject(c, q.user, q.client, q.name).0;
    var r := Authorize(c, cfg, q, quota, now).0;
    assert r == c || r == c1 || r == c1.(sessions := r.sessions);
    if r != c {
      assert forall p :: 0 <= p < |r.projects| ==> LastKeys(r, p) == LastKeys(c1, p);
    }
  }

  // A commit that writes: its session's project is the user's own.
  lemma CommitIsReady(c: Cloud, cfg: Config, q: Request, quota: Quota, now: Time)
    requires Commit(c, cfg, q, quota, now).Success? && Commit(c, cfg, q, quota, now).value.0 != c
    ensures Normalize(cfg.read, q.resources).Some? && CommitReady(c, q, Normalize(cfg.read, q.resources).value)
    ensures Commit(c, cfg, q, quota, now).value.0 == Committing(c, cfg, q, Normalize(cfg.read, q.resources).value)
  {
  }

  lemma CommitStepIndexed(c: Cloud, cfg: Config, q: Request, quota: Quota, now: Time)
    requires KeysApart(cfg, c.projects) && InIndex(c, cfg)
    requires Commit(c, cfg, q, quota, now).Success? && Commit(c, cfg, q, quota, now).value.0 != c
    ensures InIndex(Commit(c, cfg, q, quota, now).value.0, cfg)
  {
    CommitIsReady(c, cfg, q, quota, now);
    CommitKeepsIndex(c, cfg, q, Normalize(cfg.read, q.resources).value);
  }

  lemma CommitKeepsIndex(c: Cloud, cfg: Config, q: Request, resources: seq<Resource>)
    requires KeysApart(cfg, c.projects) && InIndex(c, cfg) && CommitReady(c, q, resources)
    ensures InIndex(Committing(c, cfg, q, resources), cfg)
  {
    CommitIndexed(c, cfg, q, resources);
    CommitOwned(c, cfg, q, resources);
  }

  lemma ActIndexed(c: Cloud, cfg: Config, step: Step)
    requires KeysApart(cfg, c.projects) && InIndex(c, cfg)
    ensures InIndex(Act(c, cfg, step), cfg)
  {
    match step
    case AuthorizeSync(q, quota, now) => AuthorizeIndexed(c, cfg, q, quota, now);
    case CommitManifest(q, quota, now) =>
      if Act(c, cfg, step) != c {
        CommitStepIndexed(c, cfg, q, quota, now);
      }
  }

  // Projects are added at the end; owner and client id of one never change.
  ghost predicate Grown(before: seq<Project>, after: seq<Project>) {
    |before| <= |after| && forall i :: 0 <= i < |before| ==> after[i].owner == before[i].owner && after[i].client == before[i].client
  }

  lemma AuthorizeGrows(c: Cloud, cfg: Config, q: Request, quota: Quota, now: Time)
    ensures Grown(c.projects, Authorize(c, cfg, q, quota, now).0.projects)
  {
    var c1 := EnsureProject(c, q.user, q.client, q.name).0;
    var r := Authorize(c, cfg, q, quota, now).0;
    assert r.projects == c.projects || r.projects == c1.projects;
  }

  lemma ActGrows(c: Cloud, cfg: Config, step: Step)
    ensures Grown(c.projects, Act(c, cfg, step).projects)
  {
    match step
    case AuthorizeSync(q, quota, now) => AuthorizeGrows(c, cfg, q, quota, now);
    case CommitManifest(q, quota, now) =>
      if Act(c, cfg, step) != c {
        CommitIsReady(c, cfg, q, quota, now);
      }
  }

  lemma {:induction false} RunGrows(c: Cloud, cfg: Config, steps: seq<Step>)
    ensures Grown(c.projects, Run(c, cfg, steps).projects)
    decreases |steps|
  {
    if steps != [] {
      ActGrows(c, cfg, steps[0]);
      RunGrows(Act(c, cfg, steps[0]), cfg, steps[1..]);
    }
  }

  // Over every run that ends with its projects' keys apart: the active keys of each
  // project are exactly those its last committed manifest lists.
  lemma {:induction false} EveryRunIndexed(c: Cloud, cfg: Config, steps: seq<Step>)
    requires InIndex(c, cfg) && KeysApart(cfg, Run(c, cfg, steps).projects)
    ensures InIndex(Run(c, cfg, steps), cfg)
    decreases |steps|
  {
    if steps != [] {
      RunGrows(c, cfg, steps);
      ActIndexed(c, cfg, steps[0]);
      EveryRunIndexed(Act(c, cfg, steps[0]), cfg, steps[1..]);
    }
  }
}
