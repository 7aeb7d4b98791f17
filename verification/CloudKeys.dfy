/** How a cloud object's key is made from what callers send: texts are cleaned to
    path segments, and the segments joined. Cleaning forgets, so different texts can
    give one key; here is exactly when. */
module CloudKeys {
  const SEGMENT_LENGTH := 128

  // ---------------------------------------------------------------- trimming

  predicate IsSpace(c: char) {
    || '\t' <= c <= '\r' || c == ' ' || c == '\U{85}' || c == '\U{A0}' || c == '\U{1680}' || '\U{2000}' <= c <= '\U{200A}'
    || c == '\U{2028}' || c == '\U{2029}' || c == '\U{202F}' || c == '\U{205F}' || c == '\U{3000}'
  }

  predicate IsSafe(c: char) {
    'a' <= c <= 'z' || 'A' <= c <= 'Z' || '0' <= c <= '9' || c == '_' || c == '.' || c == ':' || c == '-'
  }

  predicate IsUnsafe(c: char) {
    !IsSafe(c)
  }

  predicate AllSafe(s: string) {
    forall i :: 0 <= i < |s| ==> IsSafe(s[i])
  }

  predicate IsEdge(c: char) {
    c == '-' || c == '.' || c == '_'
  }

  predicate IsSlash(c: char) {
    c == '/'
  }

  function TrimLeft(s: string, p: char -> bool): (r: string)
    ensures |r| <= |s|
    ensures r != "" ==> !p(r[0])
    ensures s != "" && p(s[0]) ==> |r| < |s|
    ensures AllSafe(s) ==> AllSafe(r)
  {
    if s == "" || !p(s[0]) then s else TrimLeft(s[1..], p)
  }

  function TrimRight(s: string, p: char -> bool): (r: string)
    ensures |r| <= |s|
    ensures r != "" ==> r[0] == s[0] && !p(r[|r| - 1])
    ensures AllSafe(s) ==> AllSafe(r)
  {
    if s == "" || !p(s[|s| - 1]) then s else TrimRight(s[..|s| - 1], p)
  }

  function Trim(s: string, p: char -> bool): (r: string)
    ensures |r| <= |s|
    ensures r != "" ==> !p(r[0]) && !p(r[|r| - 1])
    ensures AllSafe(s) ==> AllSafe(r)
  {
    TrimRight(TrimLeft(s, p), p)
  }

  function TrimSpace(s: string): string {
    Trim(s, IsSpace)
  }

  // ---------------------------------------------------------------- segments

  // Every run of unsafe characters becomes one hyphen.
  function Hyphenated(s: string): (r: string)
    ensures |r| <= |s|
    ensures AllSafe(r)
    decreases |s|
  {
    if s == "" then ""
    else if IsSafe(s[0]) then [s[0]] + Hyphenated(s[1..])
    else "-" + Hyphenated(TrimLeft(s, IsUnsafe))
  }

  function Cleaned(value: string): (r: string)
    ensures |r| <= |value| && AllSafe(r)
    ensures r != "" ==> !IsEdge(r[0]) && !IsEdge(r[|r| - 1])
  {
    Trim(Hyphenated(TrimSpace(value)), IsEdge)
  }

  function CutToLength(cleaned: string): (r: string)
    ensures 0 < |r| <= SEGMENT_LENGTH && (AllSafe(cleaned) ==> AllSafe(r))
    ensures (cleaned != "" ==> !IsEdge(cleaned[0])) ==> !IsEdge(r[0])
    ensures r != cleaned ==> cleaned == "" || |cleaned| > SEGMENT_LENGTH
  {
    if cleaned == "" then "resource"
    else if |cleaned| > SEGMENT_LENGTH then cleaned[..SEGMENT_LENGTH]
    else cleaned
  }

  function SanitizePathSegment(value: string): (r: string)
    ensures 0 < |r| <= SEGMENT_LENGTH && AllSafe(r) && !IsEdge(r[0])
  {
    CutToLength(Cleaned(value))
  }

  function AfterSlash(s: string): string {
    if s == "" || s[|s| - 1] == '/' then "" else AfterSlash(s[..|s| - 1]) + [s[|s| - 1]]
  }

  // The last element of a path, as the standard library defines it.
  function Base(path: string): string {
    var stripped := TrimRight(path, IsSlash);
    if path == "" then "." else if stripped == "" then "/" else AfterSlash(stripped)
  }

  function Filename(segment: string): string {
    if segment == "resource" then "object.bin" else segment
  }

  function SanitizeFilename(value: string): string {
    Filename(SanitizePathSegment(Base(TrimSpace(value))))
  }

  // A text that is a path segment as it is.
  predicate IsSegment(s: string) {
    && 0 < |s| <= SEGMENT_LENGTH
    && AllSafe(s)
    && !IsEdge(s[0]) && !IsEdge(s[|s| - 1])
  }

  lemma {:induction false} HyphenatedSafe(s: string)
    requires AllSafe(s)
    ensures Hyphenated(s) == s
  {
    if s != "" {
      HyphenatedSafe(s[1..]);
    }
  }

  lemma {:induction false} TrimStays(s: string, p: char -> bool)
    ensures Trim(s, p) == s <==> s == "" || (!p(s[0]) && !p(s[|s| - 1]))
  {
  }

  lemma {:induction false} SegmentCleaned(s: string)
    requires IsSegment(s)
    ensures Cleaned(s) == s
  {
    TrimStays(s, IsSpace);
    HyphenatedSafe(s);
    TrimStays(s, IsEdge);
  }

  lemma CutIsSegment(cleaned: string, s: string)
    requires AllSafe(cleaned) && (cleaned != "" ==> !IsEdge(cleaned[0]) && !IsEdge(cleaned[|cleaned| - 1]))
    requires |cleaned| <= |s| && CutToLength(cleaned) == s
    ensures IsSegment(s)
  {
  }

  // Cleaning leaves exactly the path segments alone.
  lemma {:induction false} SegmentsStay(s: string)
    ensures SanitizePathSegment(s) == s <==> IsSegment(s)
  {
    if IsSegment(s) {
      SegmentCleaned(s);
    } else if SanitizePathSegment(s) == s {
      CutIsSegment(Cleaned(s), s);
    }
  }

  // ---------------------------------------------------------------- keys

  function Joined(parts: seq<string>): string
    requires parts != []
  {
    if |parts| == 1 then parts[0] else parts[0] + "/" + Joined(parts[1..])
  }

  ghost predicate NoSlash(s: string) {
    '/' !in s
  }

  ghost predicate NoneSlashed(parts: seq<string>) {
    forall i :: 0 <= i < |parts| ==> NoSlash(parts[i])
  }

  lemma {:induction false} SplitAtSlash(a: string, x: string, b: string, y: string)
    requires NoSlash(a) && NoSlash(b) && a + "/" + x == b + "/" + y
    ensures a == b && x == y
  {
    var joined, same := a + "/" + x, b + "/" + y;
    assert forall j :: 0 <= j < |a| ==> joined[j] == a[j] && a[j] in a;
    assert forall j :: 0 <= j < |b| ==> same[j] == b[j] && b[j] in b;
    assert joined[|a|] == '/' && same[|b|] == '/';
    assert a == joined[..|a|] && b == same[..|b|];
    assert x == joined[|a| + 1..] && y == same[|b| + 1..];
  }

  lemma {:induction false} JoinedApart(a: seq<string>, b: seq<string>)
    requires |a| == |b| > 0 && NoneSlashed(a) && NoneSlashed(b)
    requires Joined(a) == Joined(b)
    ensures a == b
  {
    if |a| > 1 {
      SplitAtSlash(a[0], Joined(a[1..]), b[0], Joined(b[1..]));
      JoinedApart(a[1..], b[1..]);
      assert a == [a[0]] + a[1..] && b == [b[0]] + b[1..];
    }
  }

  function Parts(user: string, client: string, kind: string, hash: string, filename: string): (parts: seq<string>)
    ensures |parts| == 7
  {
    ["accounts", user, "projects", client, kind, hash, filename]
  }

  // objectKeyFor
  function KeyFor(user: string, client: string, kind: string, hash: string, filename: string): string {
    Joined(Parts(SanitizePathSegment(user), SanitizePathSegment(client), SanitizePathSegment(kind), SanitizePathSegment(hash),
                 SanitizeFilename(filename)))
  }

  predicate CleanAlike(a: string, b: string) {
    SanitizePathSegment(a) == SanitizePathSegment(b)
  }

  lemma SafeNoSlash(s: string)
    requires AllSafe(s)
    ensures NoSlash(s) && NoSlash(Filename(s))
  {
  }

  lemma SegmentNoSlash(value: string)
    ensures NoSlash(SanitizePathSegment(value)) && NoSlash(Filename(SanitizePathSegment(value)))
  {
    SafeNoSlash(SanitizePathSegment(value));
  }

  lemma PartsNoSlash(user: string, client: string, kind: string, hash: string, filename: string)
    requires NoSlash(user) && NoSlash(client) && NoSlash(kind) && NoSlash(hash) && NoSlash(filename)
    ensures NoneSlashed(Parts(user, client, kind, hash, filename))
  {
  }

  lemma KeyNoSlash(user: string, client: string, kind: string, hash: string, filename: string)
    ensures NoneSlashed(Parts(SanitizePathSegment(user), SanitizePathSegment(client), SanitizePathSegment(kind), SanitizePathSegment(hash),
                              SanitizeFilename(filename)))
  {
    SegmentNoSlash(user);
    SegmentNoSlash(client);
    SegmentNoSlash(kind);
    SegmentNoSlash(hash);
    SegmentNoSlash(Base(TrimSpace(filename)));
    PartsNoSlash(SanitizePathSegment(user), SanitizePathSegment(client), SanitizePathSegment(kind), SanitizePathSegment(hash),
                 SanitizeFilename(filename));
  }

  // Two keys are one exactly if all five parts are cleaned to the same texts.
  lemma KeysDecided(user: string, client: string, kind: string, hash: string, filename: string,
                    user': string, client': string, kind': string, hash': string, filename': string)
    ensures KeyFor(user, client, kind, hash, filename) == KeyFor(user', client', kind', hash', filename') <==>
              && CleanAlike(user, user') && CleanAlike(client, client') && CleanAlike(kind, kind') && CleanAlike(hash, hash')
              && SanitizeFilename(filename) == SanitizeFilename(filename')
  {
    var a := Parts(SanitizePathSegment(user), SanitizePathSegment(client), SanitizePathSegment(kind), SanitizePathSegment(hash),
                   SanitizeFilename(filename));
    var b := Parts(SanitizePathSegment(user'), SanitizePathSegment(client'), SanitizePathSegment(kind'), SanitizePathSegment(hash'),
                   SanitizeFilename(filename'));
    if Joined(a) == Joined(b) {
      KeyNoSlash(user, client, kind, hash, filename);
      KeyNoSlash(user', client', kind', hash', filename');
      JoinedApart(a, b);
      assert a[1] == b[1] && a[3] == b[3] && a[4] == b[4] && a[5] == b[5] && a[6] == b[6];
    }
  }

  // Texts that are segments as they are never clash.
  lemma {:induction false} SegmentsApart(a: string, b: string)
    requires IsSegment(a) && IsSegment(b)
    ensures CleanAlike(a, b) <==> a == b
  {
    SegmentsStay(a);
    SegmentsStay(b);
  }
}
