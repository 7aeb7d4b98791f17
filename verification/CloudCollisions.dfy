/** When different projects' objects get in each other's way: keys are built from
    cleaned texts, projects are told apart by the texts themselves. */
module CloudCollisions {
  import opened Wrappers
  import opened Totals
  import opened CloudKeys
  import opened CloudResources
  import opened CloudSpec
  import opened CloudIndex

  // ---------------------------------------------------------------- shared keys

  // An owner and a client's project id.
  type Name = (UserId, string)

  predicate NamesAlike(a: Name, b: Name) {
    CleanAlike(a.0, b.0) && CleanAlike(a.1, b.1)
  }

  function NameOf(p: Project): Name {
    (p.owner, p.client)
  }

  // Two projects' resources share a key exactly if owner, project id, kind, hash
  // and file name all clean alike.
  lemma SharedKey(a: Name, r: Resource, b: Name, s: Resource)
    ensures KeyOf(a.0, a.1, r) == KeyOf(b.0, b.1, s) <==>
              && NamesAlike(a, b) && CleanAlike(r.kind, s.kind) && CleanAlike(r.hash, s.hash)
              && SanitizeFilename(r.filename) == SanitizeFilename(s.filename)
  {
    KeysDecided(a.0, a.1, r.kind, r.hash, r.filename, b.0, b.1, s.kind, s.hash, s.filename);
  }

  ghost predicate ProjectsApart(projects: seq<Project>) {
    forall i, j :: 0 <= i < j < |projects| ==> !NamesAlike(NameOf(projects[i]), NameOf(projects[j]))
  }

  lemma ApartKeys(provider: string, projects: seq<Project>)
    requires ProjectsApart(projects)
    ensures KeysApart(Service(provider), projects)
  {
    forall i, j, r, s | 0 <= i < j < |projects|
      ensures Service(provider).keyFor(projects[i].owner, projects[i].client, r)
           != Service(provider).keyFor(projects[j].owner, projects[j].client, s)
    {
      SharedKey(NameOf(projects[i]), r, NameOf(projects[j]), s);
    }
  }

  // ---------------------------------------------------------------- which projects a run has

  // A request without a user or a project is refused.
  predicate Askable(name: Name) {
    name.0 != "" && name.1 != ""
  }

  // The projects a run asks for.
  ghost predicate Within(steps: seq<Step>, names: set<Name>) {
    forall i :: 0 <= i < |steps| && steps[i].AuthorizeSync? ==> (steps[i].request.user, steps[i].request.client) in names
  }

  ghost predicate NamedIn(projects: seq<Project>, names: set<Name>) {
    forall i :: 0 <= i < |projects| ==> NameOf(projects[i]) in names && Askable(NameOf(projects[i]))
  }

  lemma AuthorizeNamed(c: Cloud, cfg: Config, q: Request, quota: Quota, now: Time, names: set<Name>)
    requires NamedIn(c.projects, names) && (q.user, q.client) in names
    ensures NamedIn(Authorize(c, cfg, q, quota, now).0.projects, names)
  {
    var c1 := EnsureProject(c, q.user, q.client, q.name).0;
    var r := Authorize(c, cfg, q, quota, now).0;
    if Askable((q.user, q.client)) {
      assert NamedIn(c1.projects, names);
      assert r.projects == c.projects || r.projects == c1.projects;
    }
  }

  lemma CommitNamed(c: Cloud, cfg: Config, q: Request, quota: Quota, now: Time, names: set<Name>)
    requires NamedIn(c.projects, names)
    ensures NamedIn(Act(c, cfg, CommitManifest(q, quota, now)).projects, names)
  {
    if Act(c, cfg, CommitManifest(q, quota, now)) != c {
      CommitIsReady(c, cfg, q, quota, now);
    }
  }

  lemma {:induction false} RunNamed(c: Cloud, cfg: Config, steps: seq<Step>, names: set<Name>)
    requires NamedIn(c.projects, names) && Within(steps, names)
    ensures NamedIn(Run(c, cfg, steps).projects, names)
    decreases |steps|
  {
    if steps != [] {
      match steps[0] {
        case AuthorizeSync(q, quota, now) => AuthorizeNamed(c, cfg, q, quota, now, names);
        case CommitManifest(q, quota, now) => CommitNamed(c, cfg, q, quota, now, names);
      }
      RunNamed(Act(c, cfg, steps[0]), cfg, steps[1..], names);
    }
  }

  // No two of the names, as far as they are not refused as empty, clean alike.
  ghost predicate NamesApart(names: set<Name>) {
    forall a, b :: a in names && b in names && Askable(a) && Askable(b) && NamesAlike(a, b) ==> a == b
  }

  // A run over projects whose names are apart ends with every index as its last
  // manifest lists it.
  lemma IndexedFromStart(provider: string, steps: seq<Step>, names: set<Name>)
    requires Within(steps, names) && NamesApart(names)
    ensures Indexed(Run(EMPTY, Service(provider), steps)) && Sound(Run(EMPTY, Service(provider), steps))
  {
    var cfg := Service(provider);
    var c := Run(EMPTY, cfg, steps);
    RunKeeps(EMPTY, cfg, steps);
    RunNamed(EMPTY, cfg, steps, names);
    assert ProjectsDistinct(c.projects);
    ApartKeys(provider, c.projects);
    EveryRunIndexed(EMPTY, cfg, steps);
  }

  // ---------------------------------------------------------------- a collision

  const PLENTY := Quota(true, true, 1)

  function Asking(name: Name, file: Resource, session: SessionId, key: string): Request {
    Request(name.0, name.1, "", session, "h", key, [file])
  }

  // The same file synced to one project and then to the other.
  ghost predicate SyncsBoth(a: Name, b: Name, file: Resource, steps: seq<Step>) {
    && |steps| == 4
    && steps[0] == AuthorizeSync(Asking(a, file, 0, ""), PLENTY, 0) && steps[1] == CommitManifest(Asking(a, file, 0, "1"), PLENTY, 0)
    && steps[2] == AuthorizeSync(Asking(b, file, 0, ""), PLENTY, 0) && steps[3] == CommitManifest(Asking(b, file, 1, "2"), PLENTY, 0)
  }

  lemma SyncBoth(a: Name, b: Name, file: Resource) returns (steps: seq<Step>)
    ensures SyncsBoth(a, b, file, steps) && Within(steps, {a, b})
  {
    steps := [AuthorizeSync(Asking(a, file, 0, ""), PLENTY, 0), CommitManifest(Asking(a, file, 0, "1"), PLENTY, 0),
              AuthorizeSync(Asking(b, file, 0, ""), PLENTY, 0), CommitManifest(Asking(b, file, 1, "2"), PLENTY, 0)];
  }

  ghost predicate Weightless(c: Cloud) {
    forall k :: k in c.objects ==> c.objects[k].resource.size == 0
  }

  lemma {:induction false} ZeroTotal(m: map<ObjectKey, int>)
    requires forall k :: k in m ==> m[k] == 0
    ensures Total(m) == 0
    decreases |m|
  {
    if m != map[] {
      var k :| k in m;
      TotalRemove(m, k);
      ZeroTotal(m - {k});
    }
  }

  // A file that is read as the resource n and weighs nothing.
  ghost predicate Plain(cfg: Config, file: Resource, n: Resource) {
    cfg.read(file) == n && Acceptable(n) && n.size == 0
  }

  lemma BytesOne(n: Resource)
    ensures Bytes([n]) == n.size
  {
    assert [n][..0] == [] && Bytes([n]) == Bytes([n][..0]) + [n][0].size;
  }

  lemma OneResource(cfg: Config, file: Resource, n: Resource)
    requires Plain(cfg, file, n)
    ensures Normalize(cfg.read, [file]) == Some([n]) && Bytes([n]) == 0
  {
    BytesOne(n);
    var all := ReadAll(cfg.read, [file]);
    assert all == [n];
    assert all[..0] == [] && Collect([]) == [];
  }

  lemma NothingUsed(c: Cloud, user: UserId, project: ProjectId, n: Resource)
    requires Weightless(c) && n.size == 0
    ensures UsedBytes(c, user) == 0 && Projected(c, project, 0, [n]) == 0
  {
    ZeroTotal(ActiveFor(c.objects, user));
    ZeroTotal(ActiveOf(c.objects, project));
    BytesOne(n);
  }

  lemma AuthorizeOne(c: Cloud, cfg: Config, file: Resource, n: Resource, name: Name) returns (next: Cloud)
    requires Plain(cfg, file, n) && Weightless(c) && Askable(name) && FindProject(c.projects, name.0, name.1).None?
    ensures next == Act(c, cfg, AuthorizeSync(Asking(name, file, 0, ""), PLENTY, 0))
    ensures next == Cloud(c.projects + [Project(name.0, name.1, "", None)],
                          c.sessions + [Session(name.0, |c.projects|, name.1, cfg.provider, [n], 0, Authorized, None, SESSION_LIFETIME)],
                          c.manifests, c.objects)
  {
    var q := Asking(name, file, 0, "");
    var c1 := EnsureProject(c, name.0, name.1, "").0;
    next := Act(c, cfg, AuthorizeSync(q, PLENTY, 0));
    OneResource(cfg, file, n);
    NothingUsed(c, name.0, 0, n);
    NothingUsed(c1, name.0, |c.projects|, n);
  }

  lemma CommitOne(c: Cloud, cfg: Config, file: Resource, n: Resource, name: Name, session: SessionId, key: string) returns (next: Cloud)
    requires Plain(cfg, file, n) && Weightless(c) && Askable(name) && key != "" && FindManifest(c.manifests, key).None?
    requires session < |c.sessions| && c.sessions[session].project < |c.projects|
    requires c.sessions[session] == Session(name.0, c.sessions[session].project, name.1, cfg.provider, [n], 0, Authorized, None, SESSION_LIFETIME)
    requires NameOf(c.projects[c.sessions[session].project]) == name
    ensures next == Act(c, cfg, CommitManifest(Asking(name, file, session, key), PLENTY, 0))
    ensures next == Committing(c, cfg, Asking(name, file, session, key), [n])
  {
    OneResource(cfg, file, n);
    NothingUsed(c, name.0, c.sessions[session].project, n);
    next := Act(c, cfg, CommitManifest(Asking(name, file, session, key), PLENTY, 0));
  }

  // What the index holds once one project has synced one file under an unused key.
  lemma CommitFresh(c: Cloud, cfg: Config, file: Resource, n: Resource, name: Name, session: SessionId, key: string)
    requires session < |c.sessions| && c.sessions[session].project < |c.projects| && |c.projects| > 0
    requires c.objects == map[]
    ensures Committing(c, cfg, Asking(name, file, session, key), [n]).objects ==
              map[cfg.keyFor(name.0, name.1, n) := Object(name.0, c.sessions[session].project, |c.manifests|, n, Active)]
  {
    var project := c.sessions[session].project;
    assert [n][..0] == [];
    assert ActiveOf(c.objects, project).Keys == {};
    var upserted := UpsertAll(c.objects, cfg, name.0, name.1, project, |c.manifests|, [n]);
    assert UpsertAll(c.objects, cfg, name.0, name.1, project, |c.manifests|, []) == map[];
    assert ReplaceAll(upserted, {} - KeysOf(cfg, name.0, name.1, [n])) == upserted;
  }

  lemma SyncFirst(cfg: Config, file: Resource, n: Resource, a: Name, steps: seq<Step>) returns (c1: Cloud, c2: Cloud)
    requires Plain(cfg, file, n) && Askable(a)
    requires |steps| == 4
    requires steps[0] == AuthorizeSync(Asking(a, file, 0, ""), PLENTY, 0) && steps[1] == CommitManifest(Asking(a, file, 0, "1"), PLENTY, 0)
    ensures c1 == Act(EMPTY, cfg, steps[0]) && c2 == Act(c1, cfg, steps[1])
    ensures |c2.projects| == |c2.sessions| == |c2.manifests| == 1
    ensures NameOf(c2.projects[0]) == a && c2.manifests[0].key == "1"
    ensures c2.objects == map[cfg.keyFor(a.0, a.1, n) := Object(a.0, 0, 0, n, Active)]
  {
    c1 := AuthorizeOne(EMPTY, cfg, file, n, a);
    c2 := CommitOne(c1, cfg, file, n, a, 0, "1");
    CommitFresh(c1, cfg, file, n, a, 0, "1");
  }

  lemma AuthorizeSecond(cfg: Config, file: Resource, n: Resource, a: Name, b: Name, c2: Cloud, steps: seq<Step>) returns (c3: Cloud)
    requires Plain(cfg, file, n) && a != b && Askable(b)
    requires |steps| == 4 && steps[2] == AuthorizeSync(Asking(b, file, 0, ""), PLENTY, 0)
    requires |c2.projects| == |c2.sessions| == |c2.manifests| == 1 && Weightless(c2)
    requires NameOf(c2.projects[0]) == a
    ensures c3 == Act(c2, cfg, steps[2])
    ensures |c3.projects| == |c3.sessions| == 2 && NameOf(c3.projects[1]) == b
    ensures c3.sessions[1] == Session(b.0, 1, b.1, cfg.provider, [n], 0, Authorized, None, SESSION_LIFETIME)
    ensures c3.manifests == c2.manifests && c3.objects == c2.objects
  {
    c3 := AuthorizeOne(c2, cfg, file, n, b);
  }

  lemma SecondUnlisted(c: Cloud, cfg: Config, file: Resource, n: Resource, b: Name)
    requires |c.projects| == |c.sessions| == 2 && c.sessions[1].project == 1
    requires var key := cfg.keyFor(b.0, b.1, n); key in c.objects && c.objects[key].project == 0
    ensures !Indexed(Committing(c, cfg, Asking(b, file, 1, "2"), [n]))
  {
    var q := Asking(b, file, 1, "2");
    var keys, c4 := KeysOf(cfg, b.0, b.1, [n]), Committing(c, cfg, q, [n]);
    IndexIsManifest(c, cfg, q, [n]);
    assert cfg.keyFor(b.0, b.1, [n][0]) in keys;
    assert !Unshared(c.objects, 1, keys);
    assert LastKeys(c4, 1) == keys && ActiveOf(c4.objects, 1).Keys != keys;
  }

  lemma CommitSecond(cfg: Config, file: Resource, n: Resource, b: Name, c3: Cloud, steps: seq<Step>) returns (c4: Cloud)
    requires Plain(cfg, file, n) && Weightless(c3) && Askable(b)
    requires |steps| == 4 && steps[3] == CommitManifest(Asking(b, file, 1, "2"), PLENTY, 0)
    requires |c3.projects| == |c3.sessions| == 2 && NameOf(c3.projects[1]) == b
    requires c3.sessions[1] == Session(b.0, 1, b.1, cfg.provider, [n], 0, Authorized, None, SESSION_LIFETIME)
    requires |c3.manifests| == 1 && c3.manifests[0].key == "1"
    requires var key := cfg.keyFor(b.0, b.1, n); key in c3.objects && c3.objects[key].project == 0
    ensures c4 == Act(c3, cfg, steps[3]) && !Indexed(c4)
  {
    c4 := CommitOne(c3, cfg, file, n, b, 1, "2");
    SecondUnlisted(c3, cfg, file, n, b);
  }

  // The second project ends with its manifest's key indexed under the first.
  lemma SyncedBoth(cfg: Config, file: Resource, n: Resource, a: Name, b: Name) returns (steps: seq<Step>)
    requires Plain(cfg, file, n) && a != b && Askable(a) && Askable(b) && cfg.keyFor(a.0, a.1, n) == cfg.keyFor(b.0, b.1, n)
    ensures Within(steps, {a, b}) && !Indexed(Run(EMPTY, cfg, steps))
  {
    steps := SyncBoth(a, b, file);
    var c1, c2 := SyncFirst(cfg, file, n, a, steps);
    var c3 := AuthorizeSecond(cfg, file, n, a, b, c2, steps);
    var c4 := CommitSecond(cfg, file, n, b, c3, steps);
    RunIsFour(EMPTY, cfg, steps, c1, c2, c3, c4);
  }

  lemma RunIsFour(c: Cloud, cfg: Config, steps: seq<Step>, c1: Cloud, c2: Cloud, c3: Cloud, c4: Cloud)
    requires |steps| == 4
    requires c1 == Act(c, cfg, steps[0]) && c2 == Act(c1, cfg, steps[1]) && c3 == Act(c2, cfg, steps[2]) && c4 == Act(c3, cfg, steps[3])
    ensures Run(c, cfg, steps) == c4
  {
    assert Run(c, cfg, steps) == Run(c1, cfg, steps[1..]);
    assert steps[1..][1..] == steps[2..] && Run(c1, cfg, steps[1..]) == Run(c2, cfg, steps[2..]);
    assert steps[2..][1..] == steps[3..] && Run(c2, cfg, steps[2..]) == Run(c3, cfg, steps[3..]);
    assert steps[3..][1..] == [] && Run(c3, cfg, steps[3..]) == Run(c4, cfg, []);
  }

  lemma ReadKeeps(r: Resource)
    ensures Read(r).id == TrimSpace(r.id) && Read(r).hash == TrimSpace(r.hash) && Read(r).size == r.size
  {
  }

  lemma ReadPlain(provider: string, file: Resource)
    requires file.id == file.hash == "x" && file.size == 0
    ensures Plain(Service(provider), file, Read(file))
  {
    ReadKeeps(file);
    TrimStays(file.id, IsSpace);
  }

  lemma SampleFile(provider: string) returns (file: Resource)
    ensures Plain(Service(provider), file, Read(file))
  {
    file := Resource("x", "x", "x", "x", "x", 0);
    ReadPlain(provider, file);
  }

  lemma AlikeShare(provider: string, a: Name, b: Name) returns (file: Resource, n: Resource)
    requires NamesAlike(a, b)
    ensures Plain(Service(provider), file, n) && Service(provider).keyFor(a.0, a.1, n) == Service(provider).keyFor(b.0, b.1, n)
  {
    file := SampleFile(provider);
    n := Read(file);
    SharedKey(a, n, b, n);
  }

  // Any two projects that clean alike get in each other's way.
  lemma AlikeCollide(provider: string, a: Name, b: Name) returns (steps: seq<Step>)
    requires NamesAlike(a, b) && a != b && Askable(a) && Askable(b)
    ensures Within(steps, {a, b}) && !Indexed(Run(EMPTY, Service(provider), steps))
  {
    var file, n := AlikeShare(provider, a, b);
    steps := SyncedBoth(Service(provider), file, n, a, b);
  }

  // ---------------------------------------------------------------- the exact condition

  ghost predicate AlwaysIndexed(provider: string, names: set<Name>) {
    forall steps :: Within(steps, names) ==> Indexed(Run(EMPTY, Service(provider), steps))
  }

  // Two projects that would get in each other's way.
  ghost predicate Clash(names: set<Name>, a: Name, b: Name) {
    a in names && b in names && Askable(a) && Askable(b) && NamesAlike(a, b) && a != b
  }

  lemma TwoClash(names: set<Name>) returns (a: Name, b: Name)
    requires !NamesApart(names)
    ensures Clash(names, a, b)
  {
    a, b :| a in names && b in names && Askable(a) && Askable(b) && NamesAlike(a, b) && a != b;
  }

  lemma OneBreaks(provider: string, few: set<Name>, names: set<Name>, steps: seq<Step>)
    requires Within(steps, few) && few <= names && !Indexed(Run(EMPTY, Service(provider), steps))
    ensures !AlwaysIndexed(provider, names)
  {
    assert Within(steps, names);
  }

  lemma ClashBreaks(provider: string, names: set<Name>, a: Name, b: Name)
    requires Clash(names, a, b)
    ensures !AlwaysIndexed(provider, names)
  {
    var steps := AlikeCollide(provider, a, b);
    OneBreaks(provider, {a, b}, names, steps);
  }

  lemma NotApartBreaks(provider: string, names: set<Name>)
    requires !NamesApart(names)
    ensures !AlwaysIndexed(provider, names)
  {
    var a, b := TwoClash(names);
    ClashBreaks(provider, names, a, b);
  }

  // Whatever is synced to a set of projects, in any run, every index ends as the
  // last manifest lists it - exactly if no two of the projects clean alike.
  lemma IndexDecided(provider: string, names: set<Name>)
    ensures AlwaysIndexed(provider, names) <==> NamesApart(names)
  {
    if NamesApart(names) {
      forall steps | Within(steps, names)
        ensures Indexed(Run(EMPTY, Service(provider), steps))
      {
        IndexedFromStart(provider, steps, names);
      }
    } else {
      NotApartBreaks(provider, names);
    }
  }

  // A caller that uses path segments for ids is safe.
  lemma SegmentsIndexed(provider: string, names: set<Name>)
    requires forall a :: a in names ==> IsSegment(a.0) && IsSegment(a.1)
    ensures AlwaysIndexed(provider, names)
  {
    forall a, b | a in names && b in names && Askable(a) && Askable(b) && NamesAlike(a, b)
      ensures a == b
    {
      SegmentsApart(a.0, b.0);
      SegmentsApart(a.1, b.1);
    }
    IndexDecided(provider, names);
  }

  // One user's projects "a b" and "a-b".
  lemma SpaceAndHyphen(provider: string) returns (steps: seq<Step>)
    ensures Within(steps, {("u", "a b"), ("u", "a-b")}) && !Indexed(Run(EMPTY, Service(provider), steps))
  {
    SpacedClean();
    steps := AlikeCollide(provider, ("u", "a b"), ("u", "a-b"));
  }

  lemma SpacedClean()
    ensures SanitizePathSegment("a b") == SanitizePathSegment("a-b") == "a-b"
  {
    SegmentsStay("a-b");
    TrimStays("a b", IsSpace);
    HyphenatedSpaced();
    TrimStays("a-b", IsEdge);
  }

  lemma HyphenatedSpaced()
    ensures Hyphenated("a b") == "a-b"
  {
    var s := "a b";
    assert s[1..] == " b" && s[1..][1..] == "b" && TrimLeft("b", IsUnsafe) == "b";
    assert TrimLeft(" b", IsUnsafe) == TrimLeft(" b"[1..], IsUnsafe) == "b";
    HyphenatedSafe("b");
    assert Hyphenated(" b") == "-" + "b";
    assert Hyphenated(s) == "a" + Hyphenated(" b");
  }
}
