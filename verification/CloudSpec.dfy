/** Cloud projects, sync sessions, manifests and the object index, and what
    authorizing a sync and committing its manifest do to them. */
module CloudSpec {
  import opened Wrappers
  import opened Totals
  import opened CloudKeys
  import opened CloudResources

  type UserId = string
  type ObjectKey = string
  type ProjectId = nat
  type SessionId = nat
  type ManifestId = nat
  type Time = int

  datatype Error =
    | InvalidRequest
    | UserNotFound
    | AccessDenied
    | OverQuota
    | SessionNotFound
    | AlreadyCommitted
    | SessionExpired
    | ProjectNotFound
    | DuplicateKey

  datatype ObjectStatus = Active | Replaced

  datatype Object = Object(
    owner: UserId,
    project: ProjectId,
    manifest: ManifestId,
    resource: Resource,
    status: ObjectStatus)

  datatype Project = Project(owner: UserId, client: string, name: string, lastManifest: Option<ManifestId>)

  datatype SessionStatus = Authorized | Committed

  // The fingerprint hash is kept as the list it is a hash of.
  datatype Session = Session(
    owner: UserId,
    project: ProjectId,
    client: string,
    provider: string,
    fingerprint: seq<Resource>,
    requestedBytes: int,
    status: SessionStatus,
    manifest: Option<ManifestId>,
    expiresAt: Time)

  // `keys` is what the manifest lists; the stored record has only its count.
  datatype Manifest = Manifest(
    owner: UserId,
    project: ProjectId,
    session: SessionId,
    key: string,
    count: nat,
    totalBytes: int,
    keys: set<ObjectKey>)

  datatype Cloud = Cloud(
    projects: seq<Project>,
    sessions: seq<Session>,
    manifests: seq<Manifest>,
    objects: map<ObjectKey, Object>)

  // How a request's resources are read and keyed, and which provider is configured.
  // The service's own way is `Service`; what does not depend on it is proved for any.
  datatype Config = Config(keyFor: (UserId, string, Resource) -> ObjectKey, read: Resource -> Resource, provider: string)

  function KeyOf(user: UserId, client: string, r: Resource): ObjectKey {
    KeyFor(user, client, r.kind, r.hash, r.filename)
  }

  function Service(provider: string): Config {
    Config(KeyOf, Read, provider)
  }

  // What is known of the asking user: whether there is such a user, whether the user is
  // active and entitled to cloud storage, and to how much.
  datatype Quota = Quota(known: bool, entitled: bool, bytes: int)

  datatype Request = Request(
    user: UserId,
    client: string,
    name: string,
    session: SessionId,
    hash: string,
    key: string,
    resources: seq<Resource>)

  type Outcome<+T> = Result<T, Error>

  const SESSION_LIFETIME := 900

  // ---------------------------------------------------------------- queries

  function ActiveOf(objects: map<ObjectKey, Object>, project: ProjectId): map<ObjectKey, int> {
    map k | k in objects && objects[k].status == Active && objects[k].project == project :: objects[k].resource.size
  }

  function ActiveFor(objects: map<ObjectKey, Object>, user: UserId): map<ObjectKey, int> {
    map k | k in objects && objects[k].status == Active && objects[k].owner == user :: objects[k].resource.size
  }

  ghost function UsedBytes(c: Cloud, user: UserId): int {
    Total(ActiveFor(c.objects, user))
  }

  function Bytes(resources: seq<Resource>): int {
    if resources == [] then 0 else Bytes(resources[..|resources| - 1]) + resources[|resources| - 1].size
  }

  // projectedUsageForResources
  ghost function Projected(c: Cloud, project: ProjectId, used: int, resources: seq<Resource>): int {
    var projected := used - Total(ActiveOf(c.objects, project)) + Bytes(resources);
    if projected < Bytes(resources) then Bytes(resources) else projected
  }

  function FindProject(projects: seq<Project>, user: UserId, client: string): (r: Option<ProjectId>)
    ensures r.Some? ==> r.value < |projects| && projects[r.value].owner == user && projects[r.value].client == client
    ensures r.None? ==> forall i :: 0 <= i < |projects| ==> projects[i].owner != user || projects[i].client != client
  {
    if projects == [] then None
    else
      var last := projects[|projects| - 1];
      if last.owner == user && last.client == client then Some(|projects| - 1) else FindProject(projects[..|projects| - 1], user, client)
  }

  function FindManifest(manifests: seq<Manifest>, key: string): (r: Option<ManifestId>)
    ensures r.Some? ==> r.value < |manifests| && manifests[r.value].key == key
    ensures r.None? ==> forall i :: 0 <= i < |manifests| ==> manifests[i].key != key
  {
    if manifests == [] then None
    else if manifests[|manifests| - 1].key == key then Some(|manifests| - 1)
    else FindManifest(manifests[..|manifests| - 1], key)
  }

  // ---------------------------------------------------------------- authorizing

  // authorizeCloudAccess
  function AccessRefusal(user: UserId, quota: Quota): Option<Error> {
    if user == "" then Some(InvalidRequest)
    else if !quota.known then Some(UserNotFound)
    else if !quota.entitled || quota.bytes <= 0 then Some(AccessDenied)
    else None
  }

  function Renamed(p: Project, name: string): Project {
    if name != "" then p.(name := name) else p
  }

  // ensureProject: found by owner and client id, or created.
  function EnsureProject(c: Cloud, user: UserId, client: string, name: string): (Cloud, ProjectId) {
    var found := FindProject(c.projects, user, client);
    if found.Some? then (c.(projects := c.projects[found.value := Renamed(c.projects[found.value], name)]), found.value)
    else (c.(projects := c.projects + [Project(user, client, name, None)]), |c.projects|)
  }

  // The project stays even when the quota then refuses the sync: there is no unit
  // of work around an authorization.
  ghost function Authorize(c: Cloud, cfg: Config, q: Request, quota: Quota, now: Time): (Cloud, Outcome<SessionId>) {
    var normal := Normalize(cfg.read, q.resources);
    if normal.None? then (c, Failure(InvalidRequest))
    else if AccessRefusal(q.user, quota).Some? then (c, Failure(AccessRefusal(q.user, quota).value))
    else if q.client == "" then (c, Failure(InvalidRequest))
    else
      var used := UsedBytes(c, q.user);
      var (c1, project) := EnsureProject(c, q.user, q.client, q.name);
      if Projected(c1, project, used, normal.value) > quota.bytes then (c1, Failure(OverQuota))
      else
        var session := Session(q.user, project, q.client, cfg.provider, normal.value, Bytes(normal.value), Authorized, None, now + SESSION_LIFETIME);
        (c1.(sessions := c1.sessions + [session]), Success(|c1.sessions|))
  }

  // ---------------------------------------------------------------- committing

  // validateCloudSyncSession and authorizedCommitSession
  function Refusal(c: Cloud, cfg: Config, q: Request, resources: seq<Resource>, now: Time): Option<Error> {
    if q.session >= |c.sessions| then Some(SessionNotFound)
    else
      var s := c.sessions[q.session];
      if s.owner != q.user || s.client != q.client || s.provider != cfg.provider then Some(InvalidRequest)
      else if s.status == Committed || s.manifest.Some? then Some(AlreadyCommitted)
      else if now > s.expiresAt then Some(SessionExpired)
      else if s.fingerprint != resources || s.requestedBytes != Bytes(resources) then Some(InvalidRequest)
      else if s.project >= |c.projects| then Some(ProjectNotFound)
      else if c.projects[s.project].owner != q.user || c.projects[s.project].client != q.client then Some(InvalidRequest)
      else None
  }

  // An upsert by object key: owner and project of a row already there stay.
  function Upsert(objects: map<ObjectKey, Object>, key: ObjectKey, o: Object): map<ObjectKey, Object> {
    if key in objects then objects[key := objects[key].(manifest := o.manifest, resource := o.resource, status := o.status)]
    else objects[key := o]
  }

  function KeysOf(cfg: Config, user: UserId, client: string, resources: seq<Resource>): set<ObjectKey> {
    set i | 0 <= i < |resources| :: cfg.keyFor(user, client, resources[i])
  }

  function UpsertAll(objects: map<ObjectKey, Object>, cfg: Config, user: UserId, client: string, project: ProjectId,
                     manifest: ManifestId, resources: seq<Resource>): map<ObjectKey, Object>
  {
    if resources == [] then objects
    else
      var r := resources[|resources| - 1];
      Upsert(UpsertAll(objects, cfg, user, client, project, manifest, resources[..|resources| - 1]),
             cfg.keyFor(user, client, r), Object(user, project, manifest, r, Active))
  }

  function ReplaceAll(objects: map<ObjectKey, Object>, gone: set<ObjectKey>): map<ObjectKey, Object> {
    map k | k in objects :: if k in gone then objects[k].(status := Replaced) else objects[k]
  }

  function IndexAfter(c: Cloud, cfg: Config, q: Request, resources: seq<Resource>): map<ObjectKey, Object>
    requires q.session < |c.sessions|
  {
    var project := c.sessions[q.session].project;
    ReplaceAll(UpsertAll(c.objects, cfg, q.user, q.client, project, |c.manifests|, resources),
               ActiveOf(c.objects, project).Keys - KeysOf(cfg, q.user, q.client, resources))
  }

  function Committing(c: Cloud, cfg: Config, q: Request, resources: seq<Resource>): Cloud
    requires q.session < |c.sessions| && c.sessions[q.session].project < |c.projects|
  {
    var s := c.sessions[q.session];
    var m := |c.manifests|;
    Cloud(
      c.projects[s.project := Renamed(c.projects[s.project], q.name).(lastManifest := Some(m))],
      c.sessions[q.session := s.(status := Committed, manifest := Some(m))],
      c.manifests + [Manifest(q.user, s.project, q.session, q.key, |resources|, Bytes(resources), KeysOf(cfg, q.user, q.client, resources))],
      IndexAfter(c, cfg, q, resources))
  }

  // commitWithRepos, with the usage that was read before the unit of work began.
  ghost function CommitInside(c: Cloud, cfg: Config, q: Request, quota: Quota, used: int, resources: seq<Resource>, now: Time): Outcome<Cloud> {
    var refusal := Refusal(c, cfg, q, resources, now);
    if refusal.Some? then Failure(refusal.value)
    else if Projected(c, c.sessions[q.session].project, used, resources) > quota.bytes then Failure(OverQuota)
    else if FindManifest(c.manifests, q.key).Some? then Failure(DuplicateKey)
    else Success(Committing(c, cfg, q, resources))
  }

  // CommitManifest: the manifest the request names by its key, new or already there.
  ghost function Commit(c: Cloud, cfg: Config, q: Request, quota: Quota, now: Time): Outcome<(Cloud, ManifestId)> {
    var normal := Normalize(cfg.read, q.resources);
    if normal.None? || q.key == "" || q.hash == "" then Failure(InvalidRequest)
    else if AccessRefusal(q.user, quota).Some? then Failure(AccessRefusal(q.user, quota).value)
    else
      var existing := FindManifest(c.manifests, q.key);
      if existing.Some? then
        var m := c.manifests[existing.value];
        if m.owner != q.user || m.session != q.session then Failure(InvalidRequest)
        else if m.project >= |c.projects| then Failure(ProjectNotFound)
        else Success((c, existing.value))
      else
        var done :- CommitInside(c, cfg, q, quota, UsedBytes(c, q.user), normal.value, now);
        Success((done, |c.manifests|))
  }

  datatype Step = AuthorizeSync(request: Request, quota: Quota, now: Time) | CommitManifest(request: Request, quota: Quota, now: Time)

  ghost function Act(c: Cloud, cfg: Config, step: Step): Cloud {
    match step
    case AuthorizeSync(q, quota, now) => Authorize(c, cfg, q, quota, now).0
    case CommitManifest(q, quota, now) =>
      var r := Commit(c, cfg, q, quota, now);
      if r.Success? then r.value.0 else c
  }

  ghost function Run(c: Cloud, cfg: Config, steps: seq<Step>): Cloud
    decreases |steps|
  {
    if steps == [] then c else Run(Act(c, cfg, steps[0]), cfg, steps[1..])
  }

  const EMPTY := Cloud([], [], [], map[])
}
