/** The cloud storage service over its stores: a commit upserts the manifest's
    objects one by one, retires the rest, and rolls back if anything fails. */
module CloudStorage {
  import opened Wrappers
  import opened Totals
  import opened CloudResources
  import opened CloudSpec
  import opened CloudIndex

  class CloudStorageService {
    const cfg: Config
    var projects: seq<Project>
    var sessions: seq<Session>
    var manifests: seq<Manifest>
    var objects: map<ObjectKey, Object>

    function Now(): Cloud
      reads this
    {
      Cloud(projects, sessions, manifests, objects)
    }

    ghost predicate Valid()
      reads this
    {
      cfg == Service(cfg.provider) && Sound(Now())
    }

    constructor (provider: string)
      ensures cfg == Service(provider) && Valid() && Now() == EMPTY
    {
      cfg := Service(provider);
      projects, sessions, manifests, objects := [], [], [], map[];
    }

    // ------------------------------------------------------------ sums

    method SumSizes(sizes: map<ObjectKey, int>) returns (total: int)
      ensures total == Total(sizes)
    {
      total := 0;
      var left := sizes;
      while left != map[]
        invariant total + Total(left) == Total(sizes)
        decreases |left|
      {
        var k :| k in left;
        TotalRemove(left, k);
        total, left := total + left[k], left - {k};
      }
    }

    // sumResourceBytes
    method SumResources(resources: seq<Resource>) returns (total: int)
      ensures total == Bytes(resources)
    {
      total := 0;
      for i := 0 to |resources|
        invariant total == Bytes(resources[..i])
      {
        assert resources[..i + 1][..i] == resources[..i];
        total := total + resources[i].size;
      }
      assert resources[..|resources|] == resources;
    }

    method ProjectedUsage(project: ProjectId, used: int, resources: seq<Resource>) returns (projected: int)
      ensures projected == Projected(Now(), project, used, resources)
    {
      var existing := SumSizes(ActiveOf(objects, project));
      var bytes := SumResources(resources);
      projected := used - existing + bytes;
      if projected < bytes {
        projected := bytes;
      }
    }

    // ------------------------------------------------------------ authorizing

    method EnsureOwnProject(user: UserId, client: string, name: string) returns (project: ProjectId)
      modifies this`projects
      ensures EnsureProject(old(Now()), user, client, name) == (Now(), project)
    {
      var found := FindProject(projects, user, client);
      if found.Some? {
        if name != "" && projects[found.value].name != name {
          projects := projects[found.value := projects[found.value].(name := name)];
        }
        assert projects == old(projects)[found.value := Renamed(old(projects)[found.value], name)];
        return found.value;
      }
      project := |projects|;
      projects := projects + [Project(user, client, name, None)];
    }

    // authorizeCloudAccess
    method CheckAccess(user: UserId, quota: Quota) returns (refused: Option<Error>)
      ensures refused == AccessRefusal(user, quota)
      ensures refused.None? <==> user != "" && quota.known && quota.entitled && quota.bytes > 0
    {
      if user == "" {
        return Some(InvalidRequest);
      }
      if !quota.known {
        return Some(UserNotFound);
      }
      if !quota.entitled || quota.bytes <= 0 {
        return Some(AccessDenied);
      }
      return None;
    }

    method AuthorizeSync(q: Request, quota: Quota, now: Time) returns (r: Outcome<SessionId>)
      requires Valid()
      modifies this
      ensures Valid()
      ensures Authorize(old(Now()), cfg, q, quota, now) == (Now(), r)
    {
      AuthorizeKeeps(Now(), cfg, q, quota, now);
      r := AuthorizeOnce(q, quota, now);
    }

    method AuthorizeOnce(q: Request, quota: Quota, now: Time) returns (r: Outcome<SessionId>)
      modifies this
      ensures Authorize(old(Now()), cfg, q, quota, now) == (Now(), r)
    {
      var normal := NormalizeResources(cfg.read, q.resources);
      if normal.None? {
        return Failure(InvalidRequest);
      }
      var refused := CheckAccess(q.user, quota);
      if refused.Some? {
        return Failure(refused.value);
      }
      if q.client == "" {
        return Failure(InvalidRequest);
      }
      var used := SumSizes(ActiveFor(objects, q.user));
      var project := EnsureOwnProject(q.user, q.client, q.name);
      var projected := ProjectedUsage(project, used, normal.value);
      if projected > quota.bytes {
        return Failure(OverQuota);
      }
      var requested := SumResources(normal.value);
      r := Success(|sessions|);
      sessions := sessions + [Session(q.user, project, q.client, cfg.provider, normal.value, requested, Authorized, None, now + SESSION_LIFETIME)];
    }

    // ------------------------------------------------------------ committing

    method UpsertObject(key: ObjectKey, o: Object)
      modifies this`objects
      ensures objects == Upsert(old(objects), key, o)
    {
      var row := o;
      if key in objects {
        row := objects[key].(manifest := o.manifest, resource := o.resource, status := o.status);
      }
      objects := objects[key := row];
    }

    // The loop over the manifest's resources, noting the keys to keep.
    method StoreResources(q: Request, project: ProjectId, manifest: ManifestId, resources: seq<Resource>) returns (keep: set<ObjectKey>)
      modifies this`objects
      ensures objects == UpsertAll(old(objects), cfg, q.user, q.client, project, manifest, resources)
      ensures keep == KeysOf(cfg, q.user, q.client, resources)
    {
      keep := {};
      for i := 0 to |resources|
        invariant objects == UpsertAll(old(objects), cfg, q.user, q.client, project, manifest, resources[..i])
        invariant keep == KeysOf(cfg, q.user, q.client, resources[..i])
      {
        assert resources[..i + 1][..i] == resources[..i];
        KeysOfFront(cfg, q.user, q.client, resources[..i + 1]);
        var key := cfg.keyFor(q.user, q.client, resources[i]);
        keep := keep + {key};
        UpsertObject(key, Object(q.user, project, manifest, resources[i], Active));
      }
      assert resources[..|resources|] == resources;
    }

    // The loop over the rows that were active before.
    method RetireObjects(existing: set<ObjectKey>, keep: set<ObjectKey>)
      requires existing <= objects.Keys
      modifies this`objects
      ensures objects == ReplaceAll(old(objects), existing - keep)
    {
      var left := existing;
      while left != {}
        invariant left <= existing <= objects.Keys
        invariant objects == ReplaceAll(old(objects), (existing - left) - keep)
        decreases left
      {
        var k :| k in left;
        left := left - {k};
        if k in keep {
          assert (existing - left) - keep == (existing - (left + {k})) - keep;
          continue;
        }
        objects := objects[k := objects[k].(status := Replaced)];
      }
    }

    // commitWithRepos: what it writes before it fails is left for the caller to undo.
    method CommitInTransaction(q: Request, quota: Quota, used: int, resources: seq<Resource>, now: Time) returns (r: Outcome<ManifestId>)
      modifies this
      ensures CommitInside(old(Now()), cfg, q, quota, used, resources, now) == if r.Success? then Success(Now()) else Failure(r.error)
      ensures r.Success? ==> r.value == old(|manifests|)
      ensures r.Success? ==> q.session < |old(sessions)| && old(sessions)[q.session].fingerprint == resources
    {
      var refusal := Refusal(Now(), cfg, q, resources, now);
      if refusal.Some? {
        return Failure(refusal.value);
      }
      var session := sessions[q.session];
      var project := session.project;
      if q.name != "" && projects[project].name != q.name {
        projects := projects[project := projects[project].(name := q.name)];
      }
      assert projects == old(projects)[project := Renamed(old(projects)[project], q.name)];
      var existing := ActiveOf(objects, project).Keys;
      var projected := ProjectedUsage(project, used, resources);
      if projected > quota.bytes {
        return Failure(OverQuota);
      }
      if FindManifest(manifests, q.key).Some? {
        return Failure(DuplicateKey);
      }
      var m := |manifests|;
      var bytes := SumResources(resources);
      UpsertsApply(objects, cfg, q.user, q.client, project, m, resources);
      var keep := StoreResources(q, project, m, resources);
      manifests := manifests + [Manifest(q.user, project, q.session, q.key, |resources|, bytes, keep)];
      RetireObjects(existing, keep);
      projects := projects[project := projects[project].(lastManifest := Some(m))];
      assert projects == old(projects)[project := projects[project]];
      sessions := sessions[q.session := session.(status := Committed, manifest := Some(m))];
      assert Now() == Committing(old(Now()), cfg, q, resources);
      r := Success(m);
    }

    method Rollback(c: Cloud)
      modifies this
      ensures Now() == c
    {
      projects, sessions, manifests, objects := c.projects, c.sessions, c.manifests, c.objects;
    }

    method CommitManifest(q: Request, quota: Quota, now: Time) returns (r: Outcome<ManifestId>)
      requires Valid()
      modifies this
      ensures Valid()
      ensures Commit(old(Now()), cfg, q, quota, now) == if r.Success? then Success((Now(), r.value)) else Failure(r.error)
      ensures r.Success? && |manifests| > |old(manifests)| ==>
                q.session < |old(sessions)| && Normalize(cfg.read, q.resources) == Some(old(sessions)[q.session].fingerprint)
      ensures r.Failure? ==> Now() == old(Now())
    {
      ActKeeps(Now(), cfg, CloudSpec.CommitManifest(q, quota, now));
      var normal := NormalizeResources(cfg.read, q.resources);
      if normal.None? || q.key == "" || q.hash == "" {
        return Failure(InvalidRequest);
      }
      var refused := CheckAccess(q.user, quota);
      if refused.Some? {
        return Failure(refused.value);
      }
      var used := SumSizes(ActiveFor(objects, q.user));
      var existing := FindManifest(manifests, q.key);
      if existing.Some? {
        var m := manifests[existing.value];
        if m.owner != q.user || m.session != q.session {
          return Failure(InvalidRequest);
        }
        if m.project >= |projects| {
          return Failure(ProjectNotFound);
        }
        return Success(existing.value);
      }
      var saved := Now();
      r := CommitInTransaction(q, quota, used, normal.value, now);
      if r.Failure? {
        Rollback(saved);
      }
    }
  }
}
