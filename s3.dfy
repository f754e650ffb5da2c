/**
 * Object-storage helpers: the key a document is stored under, built from the
 * user id, the document type and a timestamp, and the public URL returned
 * after an upload. The clock and the environment variables are inputs; the
 * storage call itself is reduced to whether it succeeded.
 */
module S3 {
  import opened Wrappers
  import opened Text

  /** The leading run of whitespace dropped. */
  function SkipSpaces(s: string): (r: string)
    ensures |r| <= |s| && r == s[|s| - |r|..]
    ensures r == [] || !IsSpace(r[0])
  {
    if s != [] && IsSpace(s[0]) then SkipSpaces(s[1..]) else s
  }

  /** `s.replace(/\s+/g, '-')`: every maximal run of whitespace becomes one hyphen. */
  function Hyphenate(s: string): (r: string)
    ensures forall i :: 0 <= i < |r| ==> !IsSpace(r[i])
    decreases |s|
  {
    if s == [] then []
    else if IsSpace(s[0]) then "-" + Hyphenate(SkipSpaces(s))
    else [s[0]] + Hyphenate(s[1..])
  }

  predicate SpaceFree(s: string) {
    forall i :: 0 <= i < |s| ==> !IsSpace(s[i])
  }

  /** A string without whitespace comes back unchanged, so hyphenating twice is hyphenating once. */
  lemma {:induction false} HyphenateSpaceFree(s: string)
    requires SpaceFree(s)
    ensures Hyphenate(s) == s
  {
    if s != [] {
      HyphenateSpaceFree(s[1..]);
      assert s == [s[0]] + s[1..];
    }
  }

  lemma HyphenateIdempotent(s: string)
    ensures Hyphenate(Hyphenate(s)) == Hyphenate(s)
  {
    HyphenateSpaceFree(Hyphenate(s));
  }

  /** Whitespace put in front of whitespace changes nothing: a run becomes one hyphen however long it is. */
  lemma {:induction false} RunsCollapse(p: string, d: char, t: string)
    requires IsSpace(d) && t != [] && IsSpace(t[0])
    ensures Hyphenate(p + ([d] + t)) == Hyphenate(p + t)
    decreases |p|
  {
    if p == [] {
      assert p + ([d] + t) == [d] + t && p + t == t;
      DoubledSpaceSkips(d, t);
    } else if IsSpace(p[0]) {
      var rest := SkipSpaces(p);
      if rest != [] {
        RunsCollapse(rest, d, t);
      }
      LeadingRunCollapses(p, d, t);
    } else {
      RunsCollapse(p[1..], d, t);
      NonSpaceHead(p, [d] + t);
      NonSpaceHead(p, t);
    }
  }

  /** A character other than whitespace is copied as it is. */
  lemma NonSpaceHead(p: string, u: string)
    requires p != [] && !IsSpace(p[0])
    ensures Hyphenate(p + u) == [p[0]] + Hyphenate(p[1..] + u)
  {
    assert (p + u)[1..] == p[1..] + u;
  }

  /** The step of `RunsCollapse` for a `p` that starts with whitespace. */
  lemma LeadingRunCollapses(p: string, d: char, t: string)
    requires IsSpace(d) && t != [] && IsSpace(t[0])
    requires p != [] && IsSpace(p[0])
    requires SkipSpaces(p) != [] ==> Hyphenate(SkipSpaces(p) + ([d] + t)) == Hyphenate(SkipSpaces(p) + t)
    ensures Hyphenate(p + ([d] + t)) == Hyphenate(p + t)
  {
    SkipThroughRun(p, [d] + t);
    SkipThroughRun(p, t);
    DoubledSpaceSkips(d, t);
  }

  lemma DoubledSpaceSkips(d: char, t: string)
    requires IsSpace(d) && t != [] && IsSpace(t[0])
    ensures SkipSpaces([d] + t) == SkipSpaces(t)
    ensures Hyphenate([d] + t) == Hyphenate(t)
  {
    assert ([d] + t)[1..] == t;
  }

  /** Skipping the leading whitespace of `p + t`: within `p` when `p` does not consist of whitespace only. */
  lemma {:induction false} SkipThroughRun(p: string, t: string)
    ensures SkipSpaces(p) != [] ==> SkipSpaces(p + t) == SkipSpaces(p) + t
    ensures SkipSpaces(p) == [] ==> SkipSpaces(p + t) == SkipSpaces(t)
  {
    if p != [] && IsSpace(p[0]) {
      assert (p + t)[1..] == p[1..] + t;
      SkipThroughRun(p[1..], t);
    } else if p == [] {
      assert p + t == t;
    }
  }

  /** The document-type segment of a key: lower-cased, with whitespace runs turned into hyphens. */
  function TypeSegment(documentType: string): (r: string)
    ensures SpaceFree(r)
    ensures forall i :: 0 <= i < |r| ==> !('A' <= r[i] <= 'Z')
  {
    HyphenateKeepsLower(ToLower(documentType));
    Hyphenate(ToLower(documentType))
  }

  lemma {:induction false} HyphenateKeepsLower(s: string)
    requires forall i :: 0 <= i < |s| ==> !('A' <= s[i] <= 'Z')
    ensures forall i :: 0 <= i < |Hyphenate(s)| ==> !('A' <= Hyphenate(s)[i] <= 'Z')
    decreases |s|
  {
    if s != [] {
      if IsSpace(s[0]) {
        var t := SkipSpaces(s);
        HyphenateKeepsLower(t);
      } else {
        HyphenateKeepsLower(s[1..]);
      }
    }
  }

  /** `generateS3Key(userId, documentType, fileExtension)` at time `timestamp`. */
  function GenerateS3Key(userId: int, documentType: string, fileExtension: string, timestamp: nat): (r: string)
    ensures StartsWith(r, "documents/")
    ensures |r| > |fileExtension| && r[|r| - |fileExtension| - 1..] == "." + fileExtension
  {
    var p, x := KeyPrefix(userId, documentType), KeySuffix(timestamp, fileExtension);
    assert (p + x)[..10] == p[..10];
    assert (p + x)[|p + x| - |fileExtension| - 1..] == x[|x| - |fileExtension| - 1..];
    p + x
  }

  /** `{ts}.{ext}`, the part of a key after the type segment's hyphen. */
  function KeySuffix(timestamp: nat, fileExtension: string): string {
    NatToString(timestamp) + "." + fileExtension
  }

  /** `documents/{userId}/{type}-`, the part of a key that does not depend on the time or the extension. */
  function KeyPrefix(userId: int, documentType: string): (r: string)
    ensures StartsWith(r, "documents/")
  {
    "documents/" + IntToString(userId) + "/" + TypeSegment(documentType) + "-"
  }

  /** Two uploads of the same type by the same user at different times get different keys. */
  lemma KeysDifferInTime(userId: int, documentType: string, fileExtension: string, t1: nat, t2: nat)
    requires GenerateS3Key(userId, documentType, fileExtension, t1) == GenerateS3Key(userId, documentType, fileExtension, t2)
    ensures t1 == t2
  {
    var p := KeyPrefix(userId, documentType);
    var x, y := KeySuffix(t1, fileExtension), KeySuffix(t2, fileExtension);
    assert x == (p + x)[|p|..] && y == (p + y)[|p|..];
    DigitsThenDot(NatToString(t1), NatToString(t2), fileExtension);
    NatToStringInjective(t1, t2);
  }

  /** Digit strings followed by a dot and the same text are equal when the whole strings are. */
  lemma DigitsThenDot(a: string, b: string, e: string)
    requires forall i :: 0 <= i < |a| ==> IsDigit(a[i])
    requires forall i :: 0 <= i < |b| ==> IsDigit(b[i])
    requires a + "." + e == b + "." + e
    ensures a == b
  {
    var x := a + "." + e;
    assert |a| == |b|;
    assert a == x[..|a|] && b == x[..|b|];
  }

  /** The environment variables an upload reads. */
  datatype Env = Env(cdnOrigin: Option<string>, endpoint: Option<string>, bucket: Option<string>)

  /** `process.env.X || ''`. */
  function OrEmpty(v: Option<string>): string {
    if v.Some? then v.value else ""
  }

  /** An environment variable interpolated into a template: an unset one reads "undefined". */
  function Interpolated(v: Option<string>): string {
    if v.Some? then v.value else "undefined"
  }

  /** The URL `uploadToS3` returns: under the CDN origin when one is set, else endpoint, bucket and key. */
  function FileUrl(env: Env, key: string): (url: string)
    ensures env.cdnOrigin.Some? && env.cdnOrigin.value != "" ==> url == env.cdnOrigin.value + "/" + key
    ensures !(env.cdnOrigin.Some? && env.cdnOrigin.value != "") ==> url == Interpolated(env.endpoint) + "/" + OrEmpty(env.bucket) + "/" + key
  {
    if env.cdnOrigin.Some? && env.cdnOrigin.value != "" then env.cdnOrigin.value + "/" + key
    else Interpolated(env.endpoint) + "/" + OrEmpty(env.bucket) + "/" + key
  }

  /** Every URL ends with `/` and the key. */
  lemma FileUrlEndsWithKey(env: Env, key: string)
    ensures var url := FileUrl(env, key);
      |url| > |key| && url[|url| - |key| - 1..] == "/" + key
  {
  }

  /** `uploadToS3`: the URL when the put succeeded, the fixed error otherwise. */
  function UploadToS3(env: Env, key: string, putSucceeded: bool): (r: Result<string, string>)
    ensures r.Success? <==> putSucceeded
    ensures r.Success? ==> r.value == FileUrl(env, key)
    ensures r.Failure? ==> r.error == "Failed to upload file to S3"
  {
    if putSucceeded then Success(FileUrl(env, key)) else Failure("Failed to upload file to S3")
  }
}
