/** How a resource is read: what is trimmed, what is defaulted, and which lists are
    accepted at all. */
module CloudReading {
  import opened Wrappers
  import opened CloudKeys
  import opened CloudResources

  // ---------------------------------------------------------------- trimming

  predicate Blank(s: string) {
    forall i :: 0 <= i < |s| ==> IsSpace(s[i])
  }

  // What is left between the white space at both ends.
  ghost predicate IsTrimmed(s: string, t: string) {
    && (t != "" ==> !IsSpace(t[0]) && !IsSpace(t[|t| - 1]))
    && exists i, j :: Between(s, t, i, j)
  }

  predicate Between(s: string, t: string, i: int, j: int) {
    0 <= i <= j <= |s| && t == s[i..j] && Blank(s[..i]) && Blank(s[j..])
  }

  lemma {:induction false} LeftTrimmed(s: string) returns (i: nat)
    ensures i <= |s| && TrimLeft(s, IsSpace) == s[i..] && Blank(s[..i])
  {
    i := 0;
    if s != "" && IsSpace(s[0]) {
      var k := LeftTrimmed(s[1..]);
      i := k + 1;
      assert forall m :: 0 < m < i ==> s[..i][m] == s[1..][..k][m - 1];
    }
  }

  lemma OneMoreBlank(s: string, c: char)
    requires Blank(s) && IsSpace(c)
    ensures Blank(s + [c])
  {
  }

  lemma {:induction false} RightTrimmed(s: string) returns (j: nat)
    ensures j <= |s| && TrimRight(s, IsSpace) == s[..j] && Blank(s[j..])
  {
    j := |s|;
    if s != "" && IsSpace(s[|s| - 1]) {
      var front := s[..|s| - 1];
      j := RightTrimmed(front);
      assert TrimRight(s, IsSpace) == TrimRight(front, IsSpace);
      assert front[..j] == s[..j];
      OneMoreBlank(front[j..], s[|s| - 1]);
      assert s[j..] == front[j..] + [s[|s| - 1]];
    }
  }

  lemma SpaceTrimmed(s: string)
    ensures IsTrimmed(s, TrimSpace(s))
  {
    var i := LeftTrimmed(s);
    var k := RightTrimmed(s[i..]);
    var t := s[i..][..k];
    assert t == s[i..i + k] && s[i..][k..] == s[i + k..];
    assert Between(s, t, i, i + k);
  }

  lemma TrimmedBlank(s: string, t: string)
    requires IsTrimmed(s, t)
    ensures t == "" <==> Blank(s)
  {
    var i, j :| Between(s, t, i, j);
    if t == "" {
      assert forall k :: 0 <= k < i ==> s[..i][k] == s[k];
      assert forall k :: j <= k < |s| ==> s[j..][k - j] == s[k];
    } else {
      assert t[0] == s[i];
    }
  }

  // ---------------------------------------------------------------- file names

  // The last element of a path.
  predicate EndsIn(path: string, last: string) {
    last != "" && '/' !in last && |last| <= |path| && path[|path| - |last|..] == last
    && (|last| < |path| ==> path[|path| - |last| - 1] == '/')
  }

  lemma {:induction false} AfterSlashIsLast(path: string, last: string)
    requires |last| <= |path| && path[|path| - |last|..] == last && '/' !in last
    requires |last| < |path| ==> path[|path| - |last| - 1] == '/'
    ensures AfterSlash(path) == last
    decreases |last|
  {
    if last != "" {
      var front, less := path[..|path| - 1], last[..|last| - 1];
      assert path[|path| - 1] == last[|last| - 1] && last[|last| - 1] in last;
      assert front[|front| - |less|..] == less;
      AfterSlashIsLast(front, less);
    }
  }

  lemma BaseIsLast(path: string, last: string)
    requires EndsIn(path, last)
    ensures Base(path) == last
  {
    assert path[|path| - 1] == last[|last| - 1] && last[|last| - 1] in last;
    assert TrimRight(path, IsSlash) == path;
    AfterSlashIsLast(path, last);
  }

  lemma SegmentTrimmed(s: string)
    requires IsSegment(s)
    ensures TrimSpace(s) == s && '/' !in s
  {
    TrimStays(s, IsSpace);
  }

  lemma SegmentNameStays(s: string)
    requires IsSegment(s)
    ensures SanitizeFilename(s) == Filename(s)
  {
    SegmentTrimmed(s);
    BaseIsLast(s, s);
    SegmentsStay(s);
  }

  // ---------------------------------------------------------------- one resource

  predicate Named(name: string, segment: string) {
    name == if segment == "resource" then "object.bin" else segment
  }

  lemma KindRead(r: Resource)
    ensures r.kind == "" ==> Read(r).kind == "resource"
    ensures IsSegment(r.kind) ==> Read(r).kind == r.kind
  {
    SegmentsStay("resource");
    SegmentsStay(r.kind);
  }

  lemma TextsRead(r: Resource)
    ensures IsTrimmed(r.id, Read(r).id) && IsTrimmed(r.hash, Read(r).hash) && Read(r).size == r.size
    ensures if Blank(r.contentType) then Read(r).contentType == "application/octet-stream"
            else IsTrimmed(r.contentType, Read(r).contentType)
  {
    SpaceTrimmed(r.id);
    SpaceTrimmed(r.hash);
    SpaceTrimmed(r.contentType);
    TrimmedBlank(r.contentType, TrimSpace(r.contentType));
  }

  // A proper file name stays, and without one the id's last element serves.
  lemma NameRead(r: Resource, last: string)
    ensures IsSegment(r.filename) ==> Named(Read(r).filename, r.filename)
    ensures r.filename == "" && EndsIn(Read(r).id, last) && IsSegment(last) ==> Named(Read(r).filename, last)
  {
    if IsSegment(r.filename) {
      SegmentNameStays(r.filename);
    }
    if r.filename == "" && EndsIn(Read(r).id, last) && IsSegment(last) {
      BaseIsLast(Read(r).id, last);
      SegmentNameStays(last);
    }
  }

  // ---------------------------------------------------------------- a list

  // An id and a hash that are more than white space, and no negative size.
  predicate Fit(r: Resource) {
    !Blank(r.id) && !Blank(r.hash) && r.size >= 0
  }

  lemma OneAccepted(r: Resource)
    ensures Acceptable(Read(r)) <==> Fit(r)
  {
    TextsRead(r);
    TrimmedBlank(r.id, Read(r).id);
    TrimmedBlank(r.hash, Read(r).hash);
  }

  lemma AcceptedAsRead(read: Resource -> Resource, resources: seq<Resource>)
    ensures Normalize(read, resources).Some? <==> resources != [] && forall i :: 0 <= i < |resources| ==> Acceptable(read(resources[i]))
  {
    assert forall i :: 0 <= i < |resources| ==> ReadAll(read, resources)[i] == read(resources[i]);
  }

  lemma AllAccepted(resources: seq<Resource>)
    ensures (forall i :: 0 <= i < |resources| ==> Acceptable(Read(resources[i]))) <==> forall i :: 0 <= i < |resources| ==> Fit(resources[i])
  {
    forall i | 0 <= i < |resources|
      ensures Acceptable(Read(resources[i])) <==> Fit(resources[i])
    {
      OneAccepted(resources[i]);
    }
  }

  // Main result: a list is accepted exactly if it is not empty and every resource is fit.
  lemma AcceptedDecided(resources: seq<Resource>)
    ensures Normalize(Read, resources).Some? <==> resources != [] && forall i :: 0 <= i < |resources| ==> Fit(resources[i])
  {
    AcceptedAsRead(Read, resources);
    AllAccepted(resources);
  }
}
