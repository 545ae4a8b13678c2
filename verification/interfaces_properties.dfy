/** Properties of URI parsing, store dispatch and the listing basename. */
module InterfacesProperties {
  import opened Results
  import opened Interfaces

  // ---------------------------------------------------------------------
  // Sequence facts used below.

  /** Splitting at the first separator is unique. */
  lemma {:induction false} SplitUnique(a: string, x: string, b: string, y: string, ch: char)
    requires ch !in a && ch !in b
    requires a + [ch] + x == b + [ch] + y
    ensures a == b && x == y
  {
    var s := a + [ch] + x;
    assert s == b + [ch] + y;
    assert s[|a|] == ch && s[|b|] == ch;
    assert forall i | 0 <= i < |a| :: s[i] == a[i];
    assert forall i | 0 <= i < |b| :: s[i] == b[i];
    assert |a| == |b|;
    assert a == s[..|a|] == b;
    assert x == s[|a| + 1..] == y;
  }

  /** The scheme run of `s + "://" + t` is exactly `s`, for a scheme `s`. */
  lemma SchemeRunOfScheme(s: string, t: string)
    requires IsScheme(s)
    ensures SchemeRun(s + "://" + t) == |s|
  {
    var u := s + "://" + t;
    var n := SchemeRun(u);
    assert forall i | 0 <= i < |s| :: u[i] == s[i];
    assert u[|s|] == ':';
  }

  // ---------------------------------------------------------------------
  // parse_uri.

  /** `MatchScheme` agrees with the regular expression `^[a-z0-9]+://`: it
      matches exactly when the expression does, and the scheme it reports
      is the only possible one. */
  lemma MatchSchemeIsRegex(uri: string)
    ensures MatchScheme(uri).Some? <==> exists k :: SchemeMatchAt(uri, k)
    ensures MatchScheme(uri).Some? ==>
      forall k | SchemeMatchAt(uri, k) :: k == |MatchScheme(uri).value.scheme|
  {
    var n := SchemeRun(uri);
    forall k | SchemeMatchAt(uri, k) ensures k == n {
      assert uri[k] == ':' by { assert uri[k..k + 3][0] == uri[k]; }
      assert forall i | 0 <= i < k :: uri[..k][i] == uri[i];
      assert forall i | 0 <= i < k :: IsSchemeChar(uri[i]);
    }
    if MatchScheme(uri).Some? {
      assert SchemeMatchAt(uri, n);
    }
  }

  lemma ParseSchemeOnly(scheme: string)
    requires IsScheme(scheme)
    ensures ParseUri(scheme + "://") == UriParts(Some(scheme), None, None)
  {
    SchemeRunOfScheme(scheme, "");
    assert scheme + "://" + "" == scheme + "://";
    assert (scheme + "://")[..|scheme|] == scheme;
  }

  /** Without a scheme, a bucket free of `:` and `/` cannot be mistaken for
      one. */
  lemma NoSchemeMatch(bucket: string, tail: string)
    requires ':' !in bucket && '/' !in bucket
    requires tail == "" || tail[0] == '/'
    ensures MatchScheme(bucket + tail).None?
  {
    var u := bucket + tail;
    var n := SchemeRun(u);
    assert forall i | 0 <= i < |bucket| :: u[i] == bucket[i];
    assert |bucket| < |u| ==> u[|bucket|] == '/';
    assert n <= |bucket|;
    assert n < |u| ==> u[n] != ':';
    assert n + 3 <= |u| ==> u[n..n + 3][0] == u[n];
  }

  /** The URI written from a scheme, a bucket and a prefix. */
  function FormatUri(scheme: Option<string>, bucket: string, prefix: Option<string>): string
  {
    Head(scheme) + (bucket + Tail(prefix))
  }

  /** The `/prefix` text after the bucket, `""` when there is no prefix. */
  function Tail(prefix: Option<string>): string {
    if prefix.Some? then "/" + prefix.value else ""
  }

  /** The `splitn(2, '/')` of `bucket` followed by an optional `/prefix`. */
  lemma SplitFormatted(bucket: string, prefix: Option<string>)
    requires '/' !in bucket
    ensures SplitOnce(bucket + Tail(prefix), '/') == Split(bucket, prefix)
  {
    var body := bucket + Tail(prefix);
    var parts := SplitOnce(body, '/');
    if prefix.Some? {
      assert body == bucket + ['/'] + prefix.value;
      assert body[|bucket|] == '/';
      SplitUnique(parts.first, parts.second.value, bucket, prefix.value, '/');
    } else {
      assert body == bucket;
    }
  }

  lemma MatchFormatted(s: string, body: string)
    requires IsScheme(s)
    ensures MatchScheme(s + "://" + body) == Some(SchemeMatch(s, body))
  {
    var uri := s + "://" + body;
    SchemeRunOfScheme(s, body);
    assert uri[..|s|] == s;
    assert uri[|s| + 3..] == body;
  }

  /** Writing a URI from well-formed parts and parsing it gives the parts
      back. */
  lemma FormatThenParse(scheme: Option<string>, bucket: string, prefix: Option<string>)
    requires scheme.Some? ==> IsScheme(scheme.value)
    requires '/' !in bucket
    requires scheme.None? ==> ':' !in bucket
    requires prefix.Some? ==> |prefix.value| > 0 && prefix.value[|prefix.value| - 1] == '/'
    requires bucket != "" || prefix.Some?
    ensures ParseUri(FormatUri(scheme, bucket, prefix)) == UriParts(scheme, Some(bucket), prefix)
  {
    var body := bucket + Tail(prefix);
    assert body != "";
    SplitFormatted(bucket, prefix);
    assert NormalisePrefix(prefix) == prefix;
    if scheme.Some? {
      assert FormatUri(scheme, bucket, prefix) == scheme.value + "://" + body;
      ParseWithScheme(scheme.value, body);
    } else {
      assert FormatUri(scheme, bucket, prefix) == body;
      NoSchemeMatch(bucket, Tail(prefix));
      ParseWithoutScheme(body);
    }
  }

  /** `parse_uri` after a scheme: split what follows `://`. */
  lemma ParseWithScheme(s: string, body: string)
    requires IsScheme(s) && body != ""
    ensures var parts := SplitOnce(body, '/');
      ParseUri(s + "://" + body) == UriParts(Some(s), Some(parts.first), NormalisePrefix(parts.second))
  {
    MatchFormatted(s, body);
  }

  /** `parse_uri` without a scheme: split the whole text. */
  lemma ParseWithoutScheme(uri: string)
    requires uri != "" && MatchScheme(uri).None?
    ensures var parts := SplitOnce(uri, '/');
      ParseUri(uri) == UriParts(None, Some(parts.first), NormalisePrefix(parts.second))
  {
  }

  /** `uri` is `head`, then `first`, then `/` and the prefix `p` when there
      is one; the prefix may carry one `/` the raw text lacks, and with no
      prefix the text may end in one bare `/`. */
  predicate Reassembles(uri: string, head: string, first: string, p: Option<string>) {
    && (p.None? ==> uri == head + first || uri == head + first + "/")
    && (p.Some? ==> uri == head + first + "/" + p.value || uri + "/" == head + first + "/" + p.value)
  }

  /** The scheme text in front of the bucket, `""` for a scheme-less URI. */
  function Head(scheme: Option<string>): string {
    if scheme.Some? then scheme.value + "://" else ""
  }

  /** The text split off by `splitn(2, '/')` and its normalised prefix put
      back together. */
  lemma SplitReconstructs(body: string)
    ensures var parts := SplitOnce(body, '/');
      Reassembles(body, "", parts.first, NormalisePrefix(parts.second))
  {
    var parts := SplitOnce(body, '/');
    if parts.second.Some? {
      assert body == parts.first + "/" + parts.second.value;
    }
    assert "" + parts.first == parts.first;
  }

  /** A parsed URI is its scheme, `://`, its bucket and its raw prefix; the
      prefix differs from the raw text at most by one appended `/`. */
  lemma ParseUriReconstructs(uri: string)
    requires ParseUri(uri).bucket.Some?
    ensures var r := ParseUri(uri);
      Reassembles(uri, Head(r.scheme), r.bucket.value, r.prefix)
  {
    if MatchScheme(uri).Some? {
      ReconstructWithScheme(uri);
    } else {
      ParseWithoutScheme(uri);
      SplitReconstructs(uri);
    }
  }

  lemma ReconstructWithScheme(uri: string)
    requires MatchScheme(uri).Some? && MatchScheme(uri).value.rest != ""
    ensures var m := MatchScheme(uri).value;
      var parts := SplitOnce(m.rest, '/');
      var p := NormalisePrefix(parts.second);
      && ParseUri(uri) == UriParts(Some(m.scheme), Some(parts.first), p)
      && Reassembles(uri, m.scheme + "://", parts.first, p)
  {
    var m := MatchScheme(uri).value;
    var parts := SplitOnce(m.rest, '/');
    SplitReconstructs(m.rest);
    PrependHead(m.scheme + "://", m.rest, parts.first, NormalisePrefix(parts.second));
    assert uri == m.scheme + "://" + m.rest;
  }

  /** Putting the same text in front of both sides of `SplitReconstructs`. */
  lemma PrependHead(head: string, body: string, first: string, p: Option<string>)
    requires Reassembles(body, "", first, p)
    ensures Reassembles(head + body, head, first, p)
  {
    assert "" + first == first;
    if p.Some? && body + "/" == first + "/" + p.value {
      assert head + body + "/" == head + (body + "/");
    }
  }

  // ---------------------------------------------------------------------
  // ObjectStore::new and list_objects.

  /** For schemes `s` and `t`, `s + "://" + b` starts with `t + "://"`
      exactly when `s == t`. */
  lemma SchemePrefix(s: string, t: string, b: string)
    requires IsScheme(s) && IsScheme(t)
    ensures (t + "://" <= s + "://" + b) <==> s == t
  {
    var u := s + "://" + b;
    var p := t + "://";
    if s == t {
      assert u == p + b;
    }
    if p <= u {
      assert forall i | 0 <= i < |p| :: u[i] == p[i];
      assert forall i | 0 <= i < |s| :: u[i] == s[i];
      assert forall i | 0 <= i < |t| :: p[i] == t[i];
      assert u[|s|] == ':' && p[|t|] == ':';
      assert |s| == |t|;
      assert s == u[..|s|] == p[..|t|] == t;
    }
  }

  /** A bucket name cannot begin with a scheme separator. */
  lemma TrimSchemeOffBucket(t: string, b: string)
    requires IsScheme(t) && '/' !in b
    ensures TrimStartMatches(t + "://" + b, t + "://") == b
  {
    var p := t + "://";
    assert (p + b)[|p|..] == b;
    assert t + "://" + b == p + b;
    assert p[|t| + 1] == '/';
    assert !(p <= b);
    assert TrimStartMatches(b, p) == b;
    assert p <= p + b;
    assert TrimStartMatches(p + b, p) == TrimStartMatches(b, p);
  }

  /** The bucket URI `list_objects` builds parses back to its scheme (the
      local filesystem when none was given) and its bucket, with no prefix. */
  lemma BucketUriParses(scheme: Option<string>, bucket: string)
    requires scheme.Some? ==> IsScheme(scheme.value)
    requires '/' !in bucket && bucket != ""
    ensures ParseUri(BucketUri(scheme, bucket)) == UriParts(Some(scheme.GetOr("localfs")), Some(bucket), None)
  {
    var s := scheme.GetOr("localfs");
    assert IsScheme("localfs");
    assert BucketUri(scheme, bucket) == FormatUri(Some(s), bucket, None);
    FormatThenParse(Some(s), bucket, None);
  }

  /** `ObjectStore::new` on the bucket URI of `list_objects`: `s3` gives an
      S3 bucket and `localfs`, or no scheme, a local directory, each named
      by exactly the bucket; any other scheme is unsupported. */
  lemma BucketUriDispatch(scheme: Option<string>, bucket: string)
    requires scheme.Some? ==> IsScheme(scheme.value)
    requires '/' !in bucket
    ensures var r := NewObjectStore(BucketUri(scheme, bucket));
      && (scheme == Some("s3") ==> r == Success(S3Bucket(bucket)))
      && (scheme.None? || scheme == Some("localfs") ==> r == Success(LocalFs(bucket)))
      && (scheme.Some? && scheme.value != "s3" && scheme.value != "localfs" ==> r == Failure(UnsupportedStore))
  {
    var s := if scheme.Some? then scheme.value else "localfs";
    assert IsScheme("s3") && IsScheme("localfs");
    assert BucketUri(scheme, bucket) == s + "://" + bucket;
    SchemePrefix(s, "s3", bucket);
    SchemePrefix(s, "localfs", bucket);
    assert "s3" + "://" == "s3://" && "localfs" + "://" == "localfs://";
    if s == "s3" {
      TrimSchemeOffBucket("s3", bucket);
    } else if s == "localfs" {
      TrimSchemeOffBucket("localfs", bucket);
    }
  }

  /** What `list_objects` does with a URI. */
  lemma ListObjectsPlan(uri: string)
    ensures var parts := ParseUri(uri);
      var p := PlanListObjects(uri);
      && (uri == "" ==> p == Panic(NoScheme))
      && (uri != "" && parts.bucket.None? ==> p == ListBuckets(uri))
      && (parts.bucket.Some? && parts.scheme == Some("s3") ==>
            p == ListFiles(S3Bucket(parts.bucket.value), parts.prefix))
      && (parts.bucket.Some? && (parts.scheme.None? || parts.scheme == Some("localfs")) ==>
            p == ListFiles(LocalFs(parts.bucket.value), parts.prefix))
      && (parts.bucket.Some? && parts.scheme.Some? && parts.scheme.value != "s3" && parts.scheme.value != "localfs" ==>
            p == Panic(UnsupportedStore))
  {
    var parts := ParseUri(uri);
    if parts.bucket.Some? {
      BucketUriDispatch(parts.scheme, parts.bucket.value);
    }
  }

  // ---------------------------------------------------------------------
  // FileObject::printable.

  function Slashes(k: nat): (r: string)
    ensures |r| == k && forall i | 0 <= i < k :: r[i] == '/'
  {
    seq(k, _ => '/')
  }

  lemma {:induction false} TrimTrailingSlashes(x: string, k: nat)
    requires |x| > 0 && x[|x| - 1] != '/'
    ensures TrimEndMatches(x + Slashes(k), '/') == x
    decreases k
  {
    if k > 0 {
      assert (x + Slashes(k))[..|x| + k - 1] == x + Slashes(k - 1);
      TrimTrailingSlashes(x, k - 1);
    } else {
      assert x + Slashes(0) == x;
    }
  }

  lemma {:induction false} LastSegmentOfPath(dir: string, core: string)
    requires dir == "" || dir[|dir| - 1] == '/'
    requires '/' !in core
    ensures LastSegment(dir + core, '/') == core
    decreases |core|
  {
    if |core| > 0 {
      var c' := core[..|core| - 1];
      assert (dir + core)[..|dir + core| - 1] == dir + c';
      LastSegmentOfPath(dir, c');
      assert core == c' + [core[|core| - 1]];
    } else {
      assert dir + core == dir;
    }
  }

  /** The basename of `dir/core` followed by `k` slashes is `core`, with one
      `/` kept when the name ended in slashes. */
  lemma BasenameOfPath(dir: string, core: string, k: nat)
    requires dir == "" || dir[|dir| - 1] == '/'
    requires |core| > 0 && '/' !in core
    ensures Basename(dir + core + Slashes(k)) == if k > 0 then core + "/" else core
  {
    var x := dir + core;
    var name := x + Slashes(k);
    assert x[|x| - 1] == core[|core| - 1];
    TrimTrailingSlashes(x, k);
    LastSegmentOfPath(dir, core);
    assert LastSegment(TrimEndMatches(name, '/'), '/') == core;
    assert |name| > 0 && (name[|name| - 1] == '/' <==> k > 0) by {
      if k == 0 {
        assert name == x;
      } else {
        assert name[|name| - 1] == Slashes(k)[k - 1];
      }
    }
  }

  /** A name made only of slashes has the basename `/` (or is empty). */
  lemma {:induction false} BasenameOfSlashes(k: nat)
    ensures Basename(Slashes(k)) == if k > 0 then "/" else ""
  {
    var t := TrimEndMatches(Slashes(k), '/');
    assert LastSegment(t, '/') == "";
  }
}
