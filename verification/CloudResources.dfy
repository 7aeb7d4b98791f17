/** The resource list of a manifest: one entry per resource, the last one given,
    in an order that does not depend on how a map is walked. */
module CloudResources {
  import opened Wrappers
  import opened CloudKeys

  datatype Resource = Resource(kind: string, id: string, hash: string, filename: string, contentType: string, size: int)

  type Ident = (string, string)

  function OrElse(text: string, fallback: string): string {
    if text == "" then fallback else text
  }

  // A resource as the service reads it: trimmed, kind and file name sanitized.
  function Read(r: Resource): Resource {
    var id := TrimSpace(r.id);
    Resource(SanitizePathSegment(OrElse(r.kind, "resource")), id, TrimSpace(r.hash), SanitizeFilename(OrElse(r.filename, Base(id))),
             OrElse(TrimSpace(r.contentType), "application/octet-stream"), r.size)
  }

  function ReadAll(read: Resource -> Resource, resources: seq<Resource>): (r: seq<Resource>)
    ensures |r| == |resources| && forall i :: 0 <= i < |r| ==> r[i] == read(resources[i])
  {
    if resources == [] then [] else ReadAll(read, resources[..|resources| - 1]) + [read(resources[|resources| - 1])]
  }

  function IdentOf(r: Resource): Ident {
    (r.kind, r.id)
  }

  predicate Acceptable(r: Resource) {
    r.id != "" && r.hash != "" && r.size >= 0
  }

  // ---------------------------------------------------------------- order

  predicate Less(a: string, b: string) {
    if b == "" then false
    else if a == "" then true
    else if a[0] != b[0] then a[0] < b[0]
    else Less(a[1..], b[1..])
  }

  predicate Before(a: Resource, b: Resource) {
    if a.kind == b.kind then Less(a.id, b.id) else Less(a.kind, b.kind)
  }

  lemma {:induction false} LessTotal(a: string, b: string)
    ensures a != b ==> Less(a, b) || Less(b, a)
  {
    if a != "" && b != "" && a[0] == b[0] {
      assert a == [a[0]] + a[1..] && b == [b[0]] + b[1..];
      LessTotal(a[1..], b[1..]);
    }
  }

  lemma {:induction false} LessTransitive(a: string, b: string, c: string)
    requires Less(a, b) && Less(b, c)
    ensures Less(a, c)
  {
    if a != "" && a[0] == b[0] == c[0] {
      LessTransitive(a[1..], b[1..], c[1..]);
    }
  }

  lemma {:induction false} LessIrreflexive(a: string)
    ensures !Less(a, a)
  {
    if a != "" {
      LessIrreflexive(a[1..]);
    }
  }

  lemma BeforeIsOrder(a: Resource, b: Resource, c: Resource)
    ensures !Before(a, a)
    ensures IdentOf(a) != IdentOf(b) ==> Before(a, b) || Before(b, a)
    ensures Before(a, b) && Before(b, c) ==> Before(a, c)
    ensures Before(a, b) ==> !Before(b, a) && IdentOf(a) != IdentOf(b)
  {
    LessIrreflexive(a.id);
    LessIrreflexive(a.kind);
    LessIrreflexive(b.kind);
    LessTotal(a.kind, b.kind);
    LessTotal(a.id, b.id);
    if Less(a.kind, b.kind) && Less(b.kind, c.kind) {
      LessTransitive(a.kind, b.kind, c.kind);
    }
    if Less(a.id, b.id) && Less(b.id, c.id) {
      LessTransitive(a.id, b.id, c.id);
    }
    if Less(a.kind, b.kind) && Less(b.kind, a.kind) {
      LessTransitive(a.kind, b.kind, a.kind);
    }
    if Less(a.id, b.id) && Less(b.id, a.id) {
      LessTransitive(a.id, b.id, a.id);
      LessIrreflexive(a.id);
    }
  }

  ghost predicate Ordered(list: seq<Resource>) {
    forall i, j :: 0 <= i < j < |list| ==> Before(list[i], list[j])
  }

  // ---------------------------------------------------------------- normal form

  function LastGiven(resources: seq<Resource>): map<Ident, Resource> {
    if resources == [] then map[]
    else
      var r := resources[|resources| - 1];
      LastGiven(resources[..|resources| - 1])[IdentOf(r) := r]
  }

  function Place(list: seq<Resource>, r: Resource): seq<Resource> {
    if list == [] then [r]
    else if IdentOf(list[0]) == IdentOf(r) then [r] + list[1..]
    else if Before(r, list[0]) then [r] + list
    else [list[0]] + Place(list[1..], r)
  }

  function Collect(resources: seq<Resource>): seq<Resource> {
    if resources == [] then [] else Place(Collect(resources[..|resources| - 1]), resources[|resources| - 1])
  }

  function Normalize(read: Resource -> Resource, resources: seq<Resource>): Option<seq<Resource>> {
    var all := ReadAll(read, resources);
    if resources == [] || exists i :: 0 <= i < |all| && !Acceptable(all[i]) then None else Some(Collect(all))
  }

  ghost predicate Enters(list: seq<Resource>, m: map<Ident, Resource>) {
    && Ordered(list)
    && (forall i :: 0 <= i < |list| ==> IdentOf(list[i]) in m && m[IdentOf(list[i])] == list[i])
    && (forall id :: id in m ==> m[id] in list && IdentOf(m[id]) == id)
  }

  lemma {:induction false} PlaceMembers(list: seq<Resource>, r: Resource)
    requires Ordered(list)
    ensures forall x :: x in Place(list, r) <==> x == r || (x in list && IdentOf(x) != IdentOf(r))
  {
    if list != [] {
      assert list == [list[0]] + list[1..];
      if IdentOf(list[0]) == IdentOf(r) {
        forall x | x in list[1..]
          ensures IdentOf(x) != IdentOf(r)
        {
          var i :| 0 <= i < |list[1..]| && list[1..][i] == x;
          BeforeIsOrder(list[0], list[i + 1], r);
        }
      } else if Before(r, list[0]) {
        forall x | x in list
          ensures IdentOf(x) != IdentOf(r)
        {
          var i :| 0 <= i < |list| && list[i] == x;
          BeforeIsOrder(r, list[0], list[i]);
          BeforeIsOrder(r, list[i], r);
        }
      } else {
        PlaceMembers(list[1..], r);
      }
    }
  }

  lemma {:induction false} PlaceOrdered(list: seq<Resource>, r: Resource)
    requires Ordered(list)
    ensures Ordered(Place(list, r))
  {
    if list != [] {
      var placed := Place(list, r);
      if IdentOf(list[0]) == IdentOf(r) {
        assert forall j :: 0 < j < |placed| ==> Before(list[0], list[j]) && placed[j] == list[j];
      } else if Before(r, list[0]) {
        forall j | 0 < j < |placed|
          ensures Before(r, placed[j])
        {
          BeforeIsOrder(r, list[0], list[j - 1]);
        }
      } else {
        var rest := Place(list[1..], r);
        PlaceOrdered(list[1..], r);
        PlaceMembers(list[1..], r);
        BeforeIsOrder(r, list[0], r);
        BeforeIsOrder(list[0], r, r);
        forall j | 0 <= j < |rest|
          ensures Before(list[0], rest[j])
        {
          assert rest[j] in rest;
          if rest[j] != r {
            assert rest[j] in list[1..];
            var i :| 0 <= i < |list[1..]| && list[1..][i] == rest[j];
            assert Before(list[0], list[i + 1]);
          }
        }
      }
    }
  }

  lemma PlaceEnters(list: seq<Resource>, m: map<Ident, Resource>, r: Resource)
    requires Enters(list, m)
    ensures Enters(Place(list, r), m[IdentOf(r) := r])
  {
    PlaceOrdered(list, r);
    PlaceMembers(list, r);
    var placed, grown := Place(list, r), m[IdentOf(r) := r];
    forall i | 0 <= i < |placed|
      ensures IdentOf(placed[i]) in grown && grown[IdentOf(placed[i])] == placed[i]
    {
      assert placed[i] in placed;
    }
    forall id | id in grown
      ensures grown[id] in placed && IdentOf(grown[id]) == id
    {
      if id != IdentOf(r) {
        var i :| 0 <= i < |list| && list[i] == m[id];
      }
    }
  }

  // Each resource once, as last given, in order.
  lemma {:induction false} CollectEnters(resources: seq<Resource>)
    ensures Enters(Collect(resources), LastGiven(resources))
  {
    if resources != [] {
      CollectEnters(resources[..|resources| - 1]);
      PlaceEnters(Collect(resources[..|resources| - 1]), LastGiven(resources[..|resources| - 1]), resources[|resources| - 1]);
    }
  }

  // There is only one way to list a map in order.
  lemma {:induction false} OneOrder(a: seq<Resource>, b: seq<Resource>)
    requires Ordered(a) && Ordered(b) && forall x :: x in a <==> x in b
    ensures a == b
  {
    assert a != [] ==> a[0] in a;
    assert b != [] ==> b[0] in b;
    if a != [] && b != [] {
      SameFirst(a, b);
      assert a == [a[0]] + a[1..] && b == [b[0]] + b[1..];
      forall x
        ensures x in a[1..] <==> x in b[1..]
      {
        FirstOnlyOnce(a);
        FirstOnlyOnce(b);
        assert x in a <==> x in b;
      }
      OneOrder(a[1..], b[1..]);
    }
  }

  lemma FirstOnlyOnce(a: seq<Resource>)
    requires a != [] && Ordered(a)
    ensures a[0] !in a[1..]
  {
    BeforeIsOrder(a[0], a[0], a[0]);
    assert forall i :: 0 <= i < |a[1..]| ==> a[1..][i] == a[i + 1];
  }

  lemma SameFirst(a: seq<Resource>, b: seq<Resource>)
    requires a != [] && b != [] && Ordered(a) && Ordered(b) && forall x :: x in a <==> x in b
    ensures a[0] == b[0]
  {
    assert a[0] in b && b[0] in a;
    var i :| 0 <= i < |b| && b[i] == a[0];
    var j :| 0 <= j < |a| && a[j] == b[0];
    BeforeIsOrder(a[0], b[0], a[0]);
  }

  lemma EntersOnce(a: seq<Resource>, b: seq<Resource>, m: map<Ident, Resource>)
    requires Enters(a, m) && Enters(b, m)
    ensures a == b
  {
    forall x
      ensures x in a <==> x in b
    {
      if x in a {
        var i :| 0 <= i < |a| && a[i] == x;
      }
      if x in b {
        var i :| 0 <= i < |b| && b[i] == x;
      }
    }
    OneOrder(a, b);
  }

  // The loop over the request: the last resource given under each kind and id.
  method GatherLatest(read: Resource -> Resource, resources: seq<Resource>) returns (r: Option<map<Ident, Resource>>)
    ensures r.Some? <==> forall i :: 0 <= i < |resources| ==> Acceptable(ReadAll(read, resources)[i])
    ensures r.Some? ==> r.value == LastGiven(ReadAll(read, resources))
  {
    var seen: map<Ident, Resource> := map[];
    for i := 0 to |resources|
      invariant seen == LastGiven(ReadAll(read, resources)[..i])
      invariant forall k :: 0 <= k < i ==> Acceptable(ReadAll(read, resources)[k])
    {
      var resource := read(resources[i]);
      ghost var all := ReadAll(read, resources);
      assert all[i] == resource && all[..i + 1][..i] == all[..i];
      if resource.id == "" || resource.hash == "" || resource.size < 0 {
        return None;
      }
      seen := seen[IdentOf(resource) := resource];
    }
    assert ReadAll(read, resources)[..|resources|] == ReadAll(read, resources);
    r := Some(seen);
  }

  // The walk over a map's values, in whatever order, each put in its place.
  method InOrder(seen: map<Ident, Resource>) returns (result: seq<Resource>)
    requires forall id :: id in seen ==> IdentOf(seen[id]) == id
    ensures Enters(result, seen)
  {
    result := [];
    var left, done := seen.Keys, map[];
    while left != {}
      invariant left <= seen.Keys && done.Keys == seen.Keys - left
      invariant forall id :: id in done ==> done[id] == seen[id]
      invariant Enters(result, done)
      decreases left
    {
      var id :| id in left;
      PlaceEnters(result, done, seen[id]);
      result, done, left := Place(result, seen[id]), done[id := seen[id]], left - {id};
    }
    assert done == seen;
  }

  // normalizeCloudResources: a map by kind and id, then its values in order. The
  // outcome is the same however the map is walked.
  method NormalizeResources(read: Resource -> Resource, resources: seq<Resource>) returns (r: Option<seq<Resource>>)
    ensures r == Normalize(read, resources)
    ensures r.Some? ==> Enters(r.value, LastGiven(ReadAll(read, resources)))
  {
    if |resources| == 0 {
      return None;
    }
    var gathered := GatherLatest(read, resources);
    if gathered.None? {
      return None;
    }
    ghost var all := ReadAll(read, resources);
    CollectEnters(all);
    var result := InOrder(gathered.value);
    EntersOnce(result, Collect(all), gathered.value);
    r := Some(result);
  }
}
