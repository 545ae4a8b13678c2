/** URI handling and object-store dispatch of the listing library:
    `ObjectStoreHandler::parse_uri`, the bucket URI built by `list_objects`,
    `ObjectStore::new` and the name column of `FileObject::printable`. */
module Interfaces {
  import opened Results

  // ---------------------------------------------------------------------
  // Scheme recognition: the regular expression `^(?P<scheme>[a-z0-9]+)://`.

  predicate IsSchemeChar(ch: char)
  {
    'a' <= ch <= 'z' || '0' <= ch <= '9'
  }

  predicate IsScheme(s: string)
  {
    |s| > 0 && forall i | 0 <= i < |s| :: IsSchemeChar(s[i])
  }

  /** The regular expression matches `uri` with the scheme ending at `k`. */
  ghost predicate SchemeMatchAt(uri: string, k: int)
  {
    1 <= k && k + 3 <= |uri| && IsScheme(uri[..k]) && uri[k..k + 3] == "://"
  }

  /** Length of the longest prefix of scheme characters. */
  function SchemeRun(s: string): (n: nat)
    ensures n <= |s|
    ensures forall i | 0 <= i < n :: IsSchemeChar(s[i])
    ensures n < |s| ==> !IsSchemeChar(s[n])
  {
    if |s| == 0 || !IsSchemeChar(s[0]) then 0 else 1 + SchemeRun(s[1..])
  }

  datatype SchemeMatch = SchemeMatch(scheme: string, rest: string)

  /** The capture of the regular expression and `re.replace(&uri, "")`. */
  function MatchScheme(uri: string): (r: Option<SchemeMatch>)
    ensures r.Some? ==> IsScheme(r.value.scheme) && uri == r.value.scheme + "://" + r.value.rest
  {
    var n := SchemeRun(uri);
    if n > 0 && n + 3 <= |uri| && uri[n..n + 3] == "://" then
      assert uri == uri[..n] + "://" + uri[n + 3..];
      Some(SchemeMatch(uri[..n], uri[n + 3..]))
    else None
  }

  // ---------------------------------------------------------------------
  // `splitn(2, '/')` and the prefix normalisation.

  /** Index of the first `ch` in `s`. */
  function FirstIndex(s: string, ch: char): (r: Option<nat>)
    ensures r.Some? ==> r.value < |s| && s[r.value] == ch
    ensures r.Some? ==> forall j | 0 <= j < r.value :: s[j] != ch
    ensures r.None? ==> forall j | 0 <= j < |s| :: s[j] != ch
  {
    if |s| == 0 then None
    else if s[0] == ch then Some(0)
    else match FirstIndex(s[1..], ch)
      case None => None
      case Some(i) => Some(i + 1)
  }

  /** `s.splitn(2, ch)`: the text before the first `ch`, and the text after
      it when there is one. */
  datatype Split = Split(first: string, second: Option<string>)

  function SplitOnce(s: string, ch: char): (r: Split)
    ensures ch !in r.first
    ensures r.second.None? ==> r.first == s
    ensures r.second.Some? ==> s == r.first + [ch] + r.second.value
  {
    match FirstIndex(s, ch)
    case None => Split(s, None)
    case Some(i) =>
      assert s == s[..i] + [s[i]] + s[i + 1..];
      Split(s[..i], Some(s[i + 1..]))
  }

  /** An empty remainder is no prefix; any other is made to end in `/`. */
  function NormalisePrefix(rest: Option<string>): (r: Option<string>)
    ensures r.Some? <==> rest.Some? && rest.value != ""
    ensures r.Some? ==> |r.value| > 0 && r.value[|r.value| - 1] == '/'
    ensures r.Some? ==> r.value == rest.value || r.value == rest.value + "/"
    ensures r.Some? && rest.value[|rest.value| - 1] == '/' ==> r.value == rest.value
  {
    match rest
    case None => None
    case Some(s) =>
      if s == "" then None
      else if s[|s| - 1] == '/' then Some(s)
      else Some(s + "/")
  }

  // ---------------------------------------------------------------------
  // `ObjectStoreHandler::parse_uri`.

  datatype UriParts = UriParts(scheme: Option<string>, bucket: Option<string>, prefix: Option<string>)

  function ParseUri(uri: string): (r: UriParts)
    ensures uri == "" ==> r == UriParts(None, None, None)
    ensures r.bucket.None? && uri != "" ==> r.scheme.Some? && uri == r.scheme.value + "://"
    ensures r.scheme.Some? ==> IsScheme(r.scheme.value) && r.scheme.value + "://" <= uri
    ensures r.bucket.Some? ==> '/' !in r.bucket.value
    ensures r.prefix.Some? ==> r.bucket.Some?
    ensures r.prefix.Some? ==> |r.prefix.value| > 0 && r.prefix.value[|r.prefix.value| - 1] == '/'
  {
    if uri == "" then UriParts(None, None, None)
    else match MatchScheme(uri)
      case Some(m) =>
        if m.rest == "" then UriParts(Some(m.scheme), None, None)
        else
          var parts := SplitOnce(m.rest, '/');
          UriParts(Some(m.scheme), Some(parts.first), NormalisePrefix(parts.second))
      case None =>
        var parts := SplitOnce(uri, '/');
        UriParts(None, Some(parts.first), NormalisePrefix(parts.second))
  }

  // ---------------------------------------------------------------------
  // `ObjectStore::new` and the planning part of `list_objects`.

  /** `pat` written `k` times in a row. */
  function Repeat(pat: string, k: nat): string
  {
    if k == 0 then [] else pat + Repeat(pat, k - 1)
  }

  /** One more leading copy of `pat` is one more repetition. */
  lemma RepeatPrepend(pat: string, s: string, t: string)
    requires pat <= s
    requires exists k: nat :: s[|pat|..] == Repeat(pat, k) + t
    ensures exists k: nat :: s == Repeat(pat, k) + t
  {
    var k: nat :| s[|pat|..] == Repeat(pat, k) + t;
    var u := Repeat(pat, k);
    calc {
      s;
      pat + s[|pat|..];
      pat + (u + t);
      (pat + u) + t;
      Repeat(pat, k + 1) + t;
    }
  }

  /** `str::trim_start_matches`: remove every leading repetition of `pat`.
      What is removed is a whole number of copies of `pat`, and no further
      copy is left at the front. */
  function TrimStartMatches(s: string, pat: string): (r: string)
    ensures |r| <= |s| && r == s[|s| - |r|..]
    ensures |pat| > 0 ==> !(pat <= r)
    ensures |pat| > 0 ==> exists k: nat :: s == Repeat(pat, k) + r
    decreases |s|
  {
    if |pat| > 0 && pat <= s then
      var t := TrimStartMatches(s[|pat|..], pat);
      RepeatPrepend(pat, s, t);
      t
    else
      assert |pat| > 0 ==> s == Repeat(pat, 0) + s;
      s
  }

  /** The store behind a bucket; the connection `config` is not modelled. */
  datatype ObjectStore = S3Bucket(name: string) | LocalFs(name: string)

  const UnsupportedStore := "Unsupported object store."

  /** `ObjectStore::new`: dispatch on the leading scheme. */
  function NewObjectStore(name: string): (r: Result<ObjectStore, string>)
    ensures r.Success? <==> "s3://" <= name || "localfs://" <= name
    ensures r.Failure? ==> r.error == UnsupportedStore
    ensures r.Success? && r.value.S3Bucket? <==> "s3://" <= name
    ensures r.Success? && r.value.S3Bucket? ==> !("s3://" <= r.value.name)
    ensures r.Success? && r.value.LocalFs? ==> !("localfs://" <= r.value.name)
    ensures r.Success? ==> |r.value.name| <= |name| && r.value.name == name[|name| - |r.value.name|..]
    ensures r.Success? && r.value.S3Bucket? ==> r.value.name == TrimStartMatches(name, "s3://")
    ensures r.Success? && r.value.LocalFs? ==> r.value.name == TrimStartMatches(name, "localfs://")
  {
    if "s3://" <= name then Success(S3Bucket(TrimStartMatches(name, "s3://")))
    else if "localfs://" <= name then Success(LocalFs(TrimStartMatches(name, "localfs://")))
    else Failure(UnsupportedStore)
  }

  /** The URI `list_objects` hands to `ObjectStore::new` for a bucket. */
  function BucketUri(scheme: Option<string>, bucket: string): (u: string)
    ensures scheme.Some? ==> u == scheme.value + "://" + bucket
    ensures scheme.None? ==> u == "localfs://" + bucket
  {
    match scheme
    case Some(s) => s + "://" + bucket
    case None => "localfs://" + bucket
  }

  /** What `list_objects` goes on to do: list a bucket's files, list the
      buckets of a scheme, or panic on an `unwrap` of a failure. */
  datatype ListPlan =
    | ListFiles(store: ObjectStore, prefix: Option<string>)
    | ListBuckets(uri: string)
    | Panic(reason: string)

  const NoScheme := "called `Option::unwrap()` on a `None` value"

  function PlanListObjects(uri: string): (p: ListPlan)
    ensures p.ListFiles? ==> p.prefix == ParseUri(uri).prefix
    ensures p.ListBuckets? ==> ParseUri(uri).bucket.None? && ParseUri(uri).scheme.Some?
  {
    var parts := ParseUri(uri);
    match parts.bucket
    case Some(bucket) =>
      (match NewObjectStore(BucketUri(parts.scheme, bucket))
       case Success(store) => ListFiles(store, parts.prefix)
       case Failure(e) => Panic(e))
    case None =>
      match parts.scheme
      case Some(s) => ListBuckets(s + "://")
      case None => Panic(NoScheme)
  }

  // ---------------------------------------------------------------------
  // `FileObject::printable`.

  datatype FileObject = FileObject(
    name: string,
    size: nat,
    modified: Option<nat>,
    tags: Option<map<string, string>>)

  /** `str::trim_end_matches(ch)`. */
  function TrimEndMatches(s: string, ch: char): (r: string)
    ensures r <= s
    ensures |r| > 0 ==> r[|r| - 1] != ch
    ensures forall i | |r| <= i < |s| :: s[i] == ch
  {
    if |s| > 0 && s[|s| - 1] == ch then TrimEndMatches(s[..|s| - 1], ch) else s
  }

  /** `s.split(ch).last()`: the text after the last `ch`, or all of `s`. */
  function LastSegment(s: string, ch: char): (r: string)
    ensures |r| <= |s| && r == s[|s| - |r|..]
    ensures ch !in r
    ensures |r| < |s| ==> s[|s| - |r| - 1] == ch
  {
    if |s| == 0 then s
    else if s[|s| - 1] == ch then ""
    else LastSegment(s[..|s| - 1], ch) + [s[|s| - 1]]
  }

  function Basename(name: string): (b: string)
    ensures ('/' in b) ==> b[|b| - 1] == '/' && '/' !in b[..|b| - 1]
    ensures |name| > 0 && name[|name| - 1] == '/' <==> |b| > 0 && b[|b| - 1] == '/'
  {
    var core := LastSegment(TrimEndMatches(name, '/'), '/');
    if |name| > 0 && name[|name| - 1] == '/' then
      assert (core + "/")[..|core|] == core;
      core + "/"
    else core
  }

  /** Rust's `{:8}` on a string: left-aligned, padded with spaces. */
  function PadRight(s: string, width: nat): (r: string)
    ensures |r| == if |s| >= width then |s| else width
    ensures r[..|s|] == s
    ensures forall i | |s| <= i < |r| :: r[i] == ' '
  {
    if |s| >= width then s else s + seq(width - |s|, _ => ' ')
  }

  /** `r` is laid out as `head`, a space, `stamp`, a space, `base`: each part
      can be read back at its place. */
  ghost predicate LaidOut(r: string, head: string, stamp: string, base: string)
  {
    && |r| == |head| + |stamp| + |base| + 2
    && r[..|head|] == head && r[|head|] == ' '
    && r[|head| + 1..|r| - |base| - 1] == stamp
    && r[|r| - |base| - 1] == ' '
    && r[|r| - |base|..] == base
  }

  /** A listing line: `head`, a space, `stamp`, a space, `base`. */
  function Line(head: string, stamp: string, base: string): (r: string)
    ensures LaidOut(r, head, stamp, base)
  {
    var r := head + " " + stamp + " " + base;
    assert r == head + ([' '] + stamp + [' '] + base);
    r
  }

  /** One listing line. The human-readable renderings of sizes and times are
      parameters. */
  function Printable(f: FileObject, bytesReadable: nat -> string, timeReadable: nat -> string): (r: string)
    ensures |PadRight(bytesReadable(f.size), 8)| >= 8
    ensures f.modified.None? ==>
      LaidOut(r, PadRight(bytesReadable(f.size), 8), "PRE", Basename(f.name))
    ensures f.modified.Some? ==>
      LaidOut(r, PadRight(bytesReadable(f.size), 8), timeReadable(f.modified.value), Basename(f.name))
  {
    var stamp := if f.modified.Some? then timeReadable(f.modified.value) else "PRE";
    Line(PadRight(bytesReadable(f.size), 8), stamp, Basename(f.name))
  }
}
