/** LinkedIn profile URLs (`linkedin_scraper.py`): normalisation, validation,
  * the name guessed from the profile handle, skills found in free text, and
  * the profile returned for an invalid URL. `urlparse` is written out for the
  * URLs that reach it here, which always start with "http://" or "https://". */
module LinkedIn {
  import opened Wrappers
  import opened Text
  import opened Seqs
  import opened Patterns

  // ------------------------------------------------------------ urlparse

  /** The characters `urlsplit` deletes wherever they occur: tab, CR and LF. */
  const Unsafe: set<char> := {'\t', '\r', '\n'}

  /** Characters that do not end the network location. */
  predicate NetlocChar(c: char) { c != '/' && c != '?' && c != '#' }

  /** Characters that do not end the path (the query and fragment follow). */
  predicate PathChar(c: char) { c != '?' && c != '#' }

  /** What `normalize_linkedin_url` reads from `urlparse`. */
  datatype UrlParts = UrlParts(netloc: string, path: string)

  predicate HasScheme(url: string)
  {
    StartsWith(url, "http://") || StartsWith(url, "https://")
  }

  /** "https://" in front of a URL that starts with neither scheme. */
  function WithScheme(url: string): (u: string)
    ensures HasScheme(u)
    ensures HasScheme(url) ==> u == url
    ensures !HasScheme(url) ==> u == "https://" + url
  {
    if HasScheme(url) then url
    else
      assert ("https://" + url)[..8] == "https://";
      "https://" + url
  }

  /** Where the last path segment starts: just after the last '/', or 0. */
  function SegmentStart(p: string): (i: nat)
    ensures i <= |p|
    ensures '/' !in p[i..]
    ensures 0 < i ==> p[i - 1] == '/'
  {
    if |p| == 0 || p[|p| - 1] == '/' then |p|
    else
      var i := SegmentStart(p[..|p| - 1]);
      assert p[i..] == p[..|p| - 1][i..] + [p[|p| - 1]];
      i
  }

  /** `_splitparams`: the path loses everything from the first ';' of its
    * last segment. */
  function WithoutParams(p: string): (r: string)
    ensures |r| <= |p| && r == p[..|r|]
    ensures ';' !in p[SegmentStart(p)..] ==> r == p
  {
    var i := SegmentStart(p);
    var seg := p[i..];
    if ';' in seg then p[..i + IndexOf(seg, ';')] else p
  }

  /** The network location: after "//", up to the first '/', '?' or '#'. */
  function NetlocEnd(rest: string): (e: nat)
    ensures e <= |rest|
    ensures StartsWith(rest, "//") ==> 2 <= e && forall i :: 2 <= i < e ==> NetlocChar(rest[i])
    ensures !StartsWith(rest, "//") ==> e == 0
  {
    if StartsWith(rest, "//") then RunEnd(rest, 2, NetlocChar) else 0
  }

  /** The path: up to the query or the fragment, without parameters. */
  function PathOf(after: string): (p: string)
    ensures forall i :: 0 <= i < |p| ==> PathChar(p[i])
  {
    WithoutParams(after[..RunEnd(after, 0, PathChar)])
  }

  /** The network location and path `urlparse` reports for a URL with an
    * http(s) scheme, or `None` where it raises `ValueError` because the
    * network location has one square bracket without the other. The scheme
    * holds none of the deleted characters, so they are deleted from the
    * rest only. */
  function ParseUrl(u: string): (r: Option<UrlParts>)
    requires HasScheme(u)
    ensures r.Some? ==> forall i :: 0 <= i < |r.value.netloc| ==> NetlocChar(r.value.netloc[i])
    ensures r.Some? ==> forall i :: 0 <= i < |r.value.path| ==> PathChar(r.value.path[i])
    ensures r.Some? ==> ('[' in r.value.netloc <==> ']' in r.value.netloc)
  {
    var rest := RemoveChars(u[if StartsWith(u, "https://") then 6 else 5..], Unsafe);
    var e := NetlocEnd(rest);
    var netloc := if e == 0 then "" else rest[2..e];
    if ('[' in netloc) != (']' in netloc) then None
    else Some(UrlParts(netloc, PathOf(rest[e..])))
  }

  // ------------------------------------------------------- normalising

  /** The form every LinkedIn profile URL is rewritten to. */
  const CanonicalPrefix := "https://" + CanonicalHostName + "/in/"

  const CanonicalHostName := "www." + "linkedin.com"

  /** `s.lstrip('/')`. */
  function LStripSlash(s: string): (r: string)
    ensures |r| <= |s| && r == s[|s| - |r|..]
    ensures r == "" || r[0] != '/'
    ensures forall i :: 0 <= i < |s| - |r| ==> s[i] == '/'
  {
    if |s| > 0 && s[0] == '/' then LStripSlash(s[1..]) else s
  }

  /** `s.rstrip('/')`. */
  function RStripSlash(s: string): (r: string)
    ensures |r| <= |s| && r == s[..|r|]
    ensures r == "" || r[|r| - 1] != '/'
    ensures forall i :: |r| <= i < |s| ==> s[i] == '/'
  {
    if |s| > 0 && s[|s| - 1] == '/' then RStripSlash(s[..|s| - 1]) else s
  }

  /** `s.strip('/')`. */
  function StripSlashes(s: string): (r: string)
    ensures r == "" || (r[0] != '/' && r[|r| - 1] != '/')
  {
    RStripSlash(LStripSlash(s))
  }

  /** `normalize_linkedin_url`, or `None` where `urlparse` raises. The empty
    * URL stays empty; a URL whose host mentions "linkedin.com" is rewritten
    * by its path; any other URL is returned with its scheme added. */
  function Normalize(url: string): (r: Option<string>)
    ensures url == "" ==> r == Some("")
    ensures url != "" ==> (r.None? <==> ParseUrl(WithScheme(url)).None?)
    ensures url != "" && r.Some? ==> r.value == WithScheme(url) || IsCanonical(r.value)
    ensures url != "" && ParseUrl(WithScheme(url)).Some? && !Contains(Lower(ParseUrl(WithScheme(url)).value.netloc), "linkedin.com") ==>
              r == Some(WithScheme(url))
  {
    if url == "" then Some("")
    else
      var u := WithScheme(url);
      match ParseUrl(u)
      case None => None
      case Some(parts) =>
        if !Contains(Lower(parts.netloc), "linkedin.com") then Some(u) else Some(Rewrite(u, parts.path))
  }

  /** The rewriting of a LinkedIn URL `u` by its path: a path `in/<handle>/...`
    * (slashes at the ends ignored) gives the canonical URL of the handle,
    * stripped of every character outside `[A-Za-z0-9_-]`; any other path
    * leaves `u` as it is. */
  function Rewrite(u: string, path: string): (r: string)
    ensures r == u || IsCanonical(r)
  {
    var segs := Split(StripSlashes(path), '/');
    if |segs| >= 2 && segs[0] == "in" then
      var h := KeepChars(segs[1], IsHandleChar);
      CanonicalOf(h);
      CanonicalPrefix + h
    else u
  }

  lemma CanonicalOf(h: string)
    requires forall i :: 0 <= i < |h| ==> IsHandleChar(h[i])
    ensures IsCanonical(CanonicalPrefix + h)
  {
    var s := CanonicalPrefix + h;
    assert s[..|CanonicalPrefix|] == CanonicalPrefix;
    forall i | |CanonicalPrefix| <= i < |s|
      ensures IsHandleChar(s[i])
    {
      assert s[i] == h[i - |CanonicalPrefix|];
    }
  }

  /** The canonical prefix followed by a handle of `[A-Za-z0-9_-]` characters
    * (possibly none). */
  predicate IsCanonical(s: string)
  {
    StartsWith(s, CanonicalPrefix) && forall i :: |CanonicalPrefix| <= i < |s| ==> IsHandleChar(s[i])
  }

  // ------------------------------------------- properties of Normalize

  /** A URL without a scheme is normalised as if "https://" had been typed. */
  lemma NormalizeAddsScheme(url: string)
    requires url != "" && !HasScheme(url)
    ensures Normalize(url) == Normalize("https://" + url)
  {
    assert WithScheme("https://" + url) == "https://" + url;
  }

  /** Normalising twice is normalising once. */
  lemma NormalizeIdempotent(url: string)
    requires Normalize(url).Some?
    ensures Normalize(Normalize(url).value) == Normalize(url)
  {
    var v := Normalize(url).value;
    if url != "" {
      var u := WithScheme(url);
      if v == u {
        assert WithScheme(v) == v;
      } else {
        var h := v[|CanonicalPrefix|..];
        assert v == CanonicalPrefix + h;
        CanonicalFixed(h);
      }
    }
  }

  /** Canonical URLs are fixed points, whether or not the handle is empty. */
  lemma CanonicalFixed(h: string)
    requires forall i :: 0 <= i < |h| ==> IsHandleChar(h[i])
    ensures Normalize(CanonicalPrefix + h) == Some(CanonicalPrefix + h)
  {
    var host := CanonicalHostName;
    CanonicalHost();
    if h == "" {
      NormalizeBareIn(host);
      assert CanonicalPrefix + h == "https://" + host + "/in/";
    } else {
      assert CanonicalPrefix + h == "https://" + host + "/in/" + h + "";
      NormalizeProfileUrl(host, h, "");
    }
  }

  /** The profile URL with an empty handle is left as it is. */
  lemma NormalizeBareIn(host: string)
    requires HostOk(host) && Contains(Lower(host), "linkedin.com")
    ensures Normalize("https://" + host + "/in/") == Some("https://" + host + "/in/")
  {
    ParseOf(host, "/in/");
    BareInPath();
  }

  lemma BareInPath()
    ensures PathOf("/in/") == "/in/"
    ensures Split(StripSlashes("/in/"), '/') == ["in"]
  {
    assert RunEnd("/in/", 0, PathChar) == 4;
    assert SegmentStart("/in/") == 4;
    assert LStripSlash("/in/") == "in/";
    assert RStripSlash("in/") == "in";
    SplitNoSep("in", '/');
  }

  /** The facts about "www.linkedin.com" that the parse needs. */
  lemma CanonicalHost()
    ensures HostOk(CanonicalHostName) && Contains(Lower(CanonicalHostName), "linkedin.com")
  {
    HostChars();
    HostMentions();
    LowerDotsHost(CanonicalHostName, 4);
  }

  lemma HostChars()
    ensures forall i :: 0 <= i < |CanonicalHostName| ==> IsLower(CanonicalHostName[i]) || CanonicalHostName[i] == '.'
  {
  }

  lemma HostMentions()
    ensures OccursAt(CanonicalHostName, "linkedin.com", 4)
    ensures CanonicalHostName[..4] == "www."
  {
  }

  /** A host of lower-case letters and dots is taken whole and mentions
    * what occurs in it. */
  lemma LowerDotsHost(host: string, k: nat)
    requires forall i :: 0 <= i < |host| ==> IsLower(host[i]) || host[i] == '.'
    requires OccursAt(host, "linkedin.com", k)
    ensures HostOk(host) && Contains(Lower(host), "linkedin.com")
  {
    LowerDotsOk(host);
    assert Lower(host) == host by {
      LowerDotsUncased(host);
      LowerUnchanged(host);
    }
    assert Contains(host, "linkedin.com") by {
      ContainsAt(host, "linkedin.com", k);
    }
  }

  lemma LowerDotsUncased(host: string)
    requires forall i :: 0 <= i < |host| ==> IsLower(host[i]) || host[i] == '.'
    ensures forall i :: 0 <= i < |host| ==> !IsUpper(host[i])
  {
  }

  lemma LowerDotsOk(host: string)
    requires forall i :: 0 <= i < |host| ==> IsLower(host[i]) || host[i] == '.'
    ensures HostOk(host)
  {
    forall i | 0 <= i < |host|
      ensures NetlocChar(host[i]) && host[i] !in Unsafe && host[i] != '[' && host[i] != ']'
    {
      LowerDotChar(host[i]);
    }
  }

  lemma LowerDotChar(c: char)
    requires IsLower(c) || c == '.'
    ensures NetlocChar(c) && c !in Unsafe && c != '[' && c != ']'
  {
  }

  lemma LowerUnchanged(s: string)
    requires forall i :: 0 <= i < |s| ==> !IsUpper(s[i])
    ensures Lower(s) == s
  {
  }

  /** A host name `urlparse` takes whole: no delimiter, no deleted
    * character, no square bracket. */
  predicate HostOk(host: string)
  {
    forall i :: 0 <= i < |host| ==> NetlocChar(host[i]) && host[i] !in Unsafe && host[i] != '[' && host[i] != ']'
  }

  lemma {:induction false} RemoveNone(s: string, drop: set<char>)
    requires forall i :: 0 <= i < |s| ==> s[i] !in drop
    ensures RemoveChars(s, drop) == s
  {
    if |s| > 0 {
      RemoveNone(s[1..], drop);
      assert [s[0]] + s[1..] == s;
    }
  }

  /** A URL "https://" + host + a path-and-rest starting with '/' parses
    * into that host and the path of the rest. */
  lemma ParseOf(host: string, after: string)
    requires HostOk(host)
    requires after == "" || after[0] == '/'
    requires forall i :: 0 <= i < |after| ==> after[i] !in Unsafe
    ensures HasScheme("https://" + host + after)
    ensures ParseUrl("https://" + host + after) == Some(UrlParts(host, PathOf(after)))
  {
    var u := "https://" + host + after;
    SchemeSlashes();
    AfterScheme(u, "https://", "//", host + after);
    assert "//" + (host + after) == "//" + host + after;
    ParseRest(u[6..], host, after);
    assert '[' !in host && ']' !in host;
  }

  lemma SchemeSlashes()
    ensures |"https://"| == 8 && "https://"[6..] == "//"
  {
  }

  lemma AfterScheme(u: string, scheme: string, slashes: string, rest: string)
    requires u == scheme + rest && |scheme| == 8 && scheme[6..] == slashes
    ensures u[..8] == scheme && u[6..] == slashes + rest
  {
  }

  /** "//" + host + a rest that starts with '/' splits into that host and rest. */
  lemma ParseRest(tail: string, host: string, after: string)
    requires tail == "//" + host + after
    requires HostOk(host)
    requires after == "" || after[0] == '/'
    requires forall i :: 0 <= i < |after| ==> after[i] !in Unsafe
    ensures RemoveChars(tail, Unsafe) == tail
    ensures NetlocEnd(tail) == 2 + |host|
    ensures tail[2..2 + |host|] == host && tail[2 + |host|..] == after
  {
    RemoveNone(tail, Unsafe);
    assert StartsWith(tail, "//");
    RunEndExact(tail, 2, 2 + |host|, NetlocChar);
  }

  /** The last segment starts after any given slash. */
  lemma SegmentBeyond(p: string, j: nat)
    requires j < |p| && p[j] == '/'
    ensures SegmentStart(p) > j
  {
  }

  /** The path of "/in/" + handle + rest, where the rest starts a new
    * segment, a query or a fragment: the handle survives whole. */
  lemma PathOfProfile(h: string, tail: string) returns (t: string)
    requires |h| > 0 && forall i :: 0 <= i < |h| ==> IsHandleChar(h[i])
    requires tail == "" || tail[0] == '/' || tail[0] == '?' || tail[0] == '#'
    ensures PathOf("/in/" + h + tail) == "/in/" + h + t
    ensures t == "" || t[0] == '/'
  {
    var after := "/in/" + h + tail;
    ProfilePrefix(after, h, tail);
    if tail == "" || tail[0] != '/' {
      PathEndsAtHandle(after, h, tail);
      t := "";
    } else {
      t := PathGoesOn(after, h, tail);
    }
  }

  /** The characters of "/in/" + handle. */
  lemma ProfilePrefix(after: string, h: string, tail: string)
    requires after == "/in/" + h + tail
    requires forall i :: 0 <= i < |h| ==> IsHandleChar(h[i])
    ensures after[..4 + |h|] == "/in/" + h
    ensures forall k :: 0 <= k < 4 + |h| ==> PathChar(after[k]) && (k > 3 ==> IsHandleChar(after[k]))
    ensures tail != "" ==> after[4 + |h|] == tail[0]
  {
    var n := 4 + |h|;
    forall k | 0 <= k < n
      ensures PathChar(after[k]) && (k > 3 ==> IsHandleChar(after[k]))
    {
      if k > 3 {
        assert after[k] == h[k - 4];
      }
    }
  }

  lemma PathEndsAtHandle(after: string, h: string, tail: string)
    requires |h| > 0 && |after| >= 4 + |h|
    requires after[..4 + |h|] == "/in/" + h
    requires forall k :: 0 <= k < 4 + |h| ==> PathChar(after[k]) && (k > 3 ==> IsHandleChar(after[k]))
    requires |after| > 4 + |h| ==> !PathChar(after[4 + |h|])
    ensures PathOf(after) == "/in/" + h
  {
    var n := 4 + |h|;
    RunEndExact(after, 0, n, PathChar);
    var p := after[..n];
    SegmentBeyond(p, 3);
    var i := SegmentStart(p);
    assert forall k :: i <= k < |p| ==> IsHandleChar(p[k]);
    assert ';' !in p[i..] by {
      forall k | 0 <= k < |p[i..]|
        ensures p[i..][k] != ';'
      {
        assert p[i..][k] == p[i + k];
      }
    }
  }

  lemma PathGoesOn(after: string, h: string, tail: string) returns (t: string)
    requires |h| > 0 && |after| > 4 + |h| && after[4 + |h|] == '/'
    requires after[..4 + |h|] == "/in/" + h
    requires forall k :: 0 <= k < 4 + |h| ==> PathChar(after[k]) && (k > 3 ==> IsHandleChar(after[k]))
    ensures PathOf(after) == "/in/" + h + t
    ensures t == "" || t[0] == '/'
  {
    var n := 4 + |h|;
    var m := RunEnd(after, 0, PathChar);
    assert m > n;
    var p := after[..m];
    SegmentBeyond(p, n);
    var w := WithoutParams(p);
    assert |w| > n;
    t := w[n..];
    assert w[..n] == p[..n] == after[..n];
    assert w == w[..n] + t;
    assert t[0] == p[n];
  }

  /** The segments of the stripped path "/in/" + handle + rest start with
    * "in" and the handle. */
  lemma SegmentsOfProfile(h: string, t: string)
    requires |h| > 0 && forall i :: 0 <= i < |h| ==> IsHandleChar(h[i])
    requires t == "" || t[0] == '/'
    ensures var segs := Split(StripSlashes("/in/" + h + t), '/');
            |segs| >= 2 && segs[0] == "in" && segs[1] == h
  {
    var t' := StripProfilePath(h, t);
    SegmentsOfStripped(StripSlashes("/in/" + h + t), h, t');
  }

  lemma SegmentsOfStripped(s: string, h: string, t': string)
    requires |h| > 0 && forall i :: 0 <= i < |h| ==> IsHandleChar(h[i])
    requires s == "in/" + h + t' && (t' == "" || t'[0] == '/')
    ensures var segs := Split(s, '/');
            |segs| >= 2 && segs[0] == "in" && segs[1] == h
  {
    NoSlashInHandle(h);
    InHead();
    SplitPair(s, "in/", h, t');
  }

  lemma InHead()
    ensures |"in/"| == 3 && "in/"[2] == '/' && "in/"[..2] == "in" && '/' !in "in"
  {
  }

  lemma NoSlashInHandle(h: string)
    requires forall i :: 0 <= i < |h| ==> IsHandleChar(h[i])
    ensures '/' !in h
  {
    forall k | 0 <= k < |h|
      ensures h[k] != '/'
    {
      assert IsHandleChar(h[k]);
    }
  }

  /** Stripping the slashes of "/in/" + handle + rest keeps the handle whole. */
  lemma StripProfilePath(h: string, t: string) returns (t': string)
    requires |h| > 0 && forall i :: 0 <= i < |h| ==> IsHandleChar(h[i])
    requires t == "" || t[0] == '/'
    ensures StripSlashes("/in/" + h + t) == "in/" + h + t'
    ensures t' == "" || t'[0] == '/'
  {
    var s := "/in/" + h + t;
    InSlashes();
    DropFirst(s, "/in/", "in/", h + t);
    var x := "in/" + h + t;
    assert "in/" + (h + t) == x;
    assert LStripSlash(s) == x;
    t' := RStripHandle(x, "in/", h, t);
  }

  lemma InSlashes()
    ensures "/in/"[0] == '/' && "/in/"[1..] == "in/" && "in/"[0] == 'i'
  {
  }

  lemma DropFirst(s: string, a: string, a': string, rest: string)
    requires s == a + rest && |a| > 0 && a[1..] == a'
    ensures s[0] == a[0] && s[1..] == a' + rest
  {
  }

  /** Stripping trailing slashes from head + handle + rest keeps the handle. */
  lemma RStripHandle(x: string, head: string, h: string, t: string) returns (t': string)
    requires x == head + h + t && |h| > 0 && h[|h| - 1] != '/'
    requires t == "" || t[0] == '/'
    ensures RStripSlash(x) == head + h + t'
    ensures t' == "" || t'[0] == '/'
  {
    var r := RStripSlash(x);
    var n := |head| + |h|;
    assert x[n - 1] == h[|h| - 1];
    assert |r| >= n;
    t' := r[n..];
    assert r[..n] == x[..n] == head + h;
    assert r == r[..n] + t';
    assert t' != "" ==> t'[0] == x[n] == t[0];
  }

  /** The first two pieces of `head + b + rest` split at '/' are `head`
    * without its final slash, and `b`. */
  lemma SplitPair(s: string, head: string, b: string, rest: string)
    requires s == head + b + rest
    requires |head| > 0 && head[|head| - 1] == '/' && '/' !in head[..|head| - 1] && '/' !in b
    requires rest == "" || rest[0] == '/'
    ensures var segs := Split(s, '/');
            |segs| >= 2 && segs[0] == head[..|head| - 1] && segs[1] == b
  {
    var a := head[..|head| - 1];
    assert head == a + ['/'];
    assert s == a + ['/'] + (b + rest);
    IndexOfAfter(a, '/', b + rest);
    assert s[..|a|] == a;
    assert s[|a| + 1..] == b + rest;
    if rest == "" {
      assert b + rest == b;
      SplitNoSep(b, '/');
    } else {
      assert b + rest == b + ['/'] + rest[1..];
      IndexOfAfter(b, '/', rest[1..]);
    }
  }

  /** Every URL whose host mentions "linkedin.com" and whose path begins
    * `/in/<handle>` is rewritten to the canonical URL of the handle: the
    * host itself ("www.linkedin.com", "linkedin.com", "notlinkedin.com"),
    * later segments, the query and the fragment are all dropped. */
  lemma NormalizeProfileUrl(host: string, h: string, tail: string)
    requires HostOk(host) && Contains(Lower(host), "linkedin.com")
    requires |h| > 0 && forall i :: 0 <= i < |h| ==> IsHandleChar(h[i])
    requires tail == "" || tail[0] == '/' || tail[0] == '?' || tail[0] == '#'
    requires forall i :: 0 <= i < |tail| ==> tail[i] !in Unsafe
    ensures Normalize("https://" + host + "/in/" + h + tail) == Some(CanonicalPrefix + h)
  {
    var url := "https://" + host + "/in/" + h + tail;
    var t := ProfileUrlParts(host, h, tail);
    RewriteProfile(url, h, t);
    NormalizeParsed(url, host, "/in/" + h + t);
  }

  /** A profile URL parses into its host and the path "/in/" + handle + a
    * rest that starts a new segment. */
  lemma ProfileUrlParts(host: string, h: string, tail: string) returns (t: string)
    requires HostOk(host)
    requires |h| > 0 && forall i :: 0 <= i < |h| ==> IsHandleChar(h[i])
    requires tail == "" || tail[0] == '/' || tail[0] == '?' || tail[0] == '#'
    requires forall i :: 0 <= i < |tail| ==> tail[i] !in Unsafe
    ensures var url := "https://" + host + "/in/" + h + tail;
            HasScheme(url) && ParseUrl(url) == Some(UrlParts(host, "/in/" + h + t))
    ensures t == "" || t[0] == '/'
  {
    var after := "/in/" + h + tail;
    assert "https://" + host + after == "https://" + host + "/in/" + h + tail;
    ProfileSafe(h, tail);
    ParseOf(host, after);
    t := PathOfProfile(h, tail);
  }

  /** A URL with a scheme that parses to a LinkedIn host is rewritten by its path. */
  lemma NormalizeParsed(url: string, host: string, path: string)
    requires HasScheme(url) && ParseUrl(url) == Some(UrlParts(host, path))
    requires Contains(Lower(host), "linkedin.com")
    ensures Normalize(url) == Some(Rewrite(url, path))
  {
  }

  /** The path "/in/" + handle + rest rewrites to the canonical URL of the handle. */
  lemma RewriteProfile(u: string, h: string, t: string)
    requires |h| > 0 && forall i :: 0 <= i < |h| ==> IsHandleChar(h[i])
    requires t == "" || t[0] == '/'
    ensures Rewrite(u, "/in/" + h + t) == CanonicalPrefix + h
  {
    SegmentsOfProfile(h, t);
    KeepAll(h);
  }

  lemma ProfileSafe(h: string, tail: string)
    requires forall i :: 0 <= i < |h| ==> IsHandleChar(h[i])
    requires forall i :: 0 <= i < |tail| ==> tail[i] !in Unsafe
    ensures forall i :: 0 <= i < |"/in/" + h + tail| ==> ("/in/" + h + tail)[i] !in Unsafe
  {
    var after := "/in/" + h + tail;
    forall i | 0 <= i < |after|
      ensures after[i] !in Unsafe
    {
      if 4 <= i < 4 + |h| {
        assert after[i] == h[i - 4];
      } else if i >= 4 + |h| {
        assert after[i] == tail[i - 4 - |h|];
      }
    }
  }

  lemma {:induction false} KeepAll(h: string)
    requires forall i :: 0 <= i < |h| ==> IsHandleChar(h[i])
    ensures KeepChars(h, IsHandleChar) == h
  {
    if |h| > 0 {
      KeepAll(h[1..]);
      assert [h[0]] + h[1..] == h;
    }
  }

  // ---------------------------------------------------------- validity

  /** `is_valid_linkedin_url`, or `None` where normalising raises: false for
    * the empty URL, otherwise whether the normalised URL is a profile URL. */
  function IsValid(url: string): (r: Option<bool>)
    ensures url == "" ==> r == Some(false)
    ensures url != "" ==> (r.None? <==> Normalize(url).None?)
    ensures url != "" && Normalize(url).Some? ==> r == Some(IsProfileUrl(Normalize(url).value))
  {
    if url == "" then Some(false)
    else
      match Normalize(url)
      case None => None
      case Some(v) => Some(IsProfileUrl(v))
  }

  predicate NoUpper(s: string)
  {
    forall i :: 0 <= i < |s| ==> !IsUpper(s[i])
  }

  /** A lower-case literal found in the text is matched ignoring case. */
  lemma MatchesAt(s: string, i: nat, lit: string)
    requires OccursAt(s, lit, i) && NoUpper(lit)
    ensures MatchesCI(s, i, lit)
  {
    LowerUnchanged(lit);
  }

  lemma PatternLiterals()
    ensures NoUpper("https://") && NoUpper("www.") && NoUpper("linkedin.com") && NoUpper("/in/")
  {
  }

  /** A canonical URL with a non-empty handle is a valid profile URL. */
  lemma CanonicalValid(h: string)
    requires |h| > 0 && forall i :: 0 <= i < |h| ==> IsHandleChar(h[i])
    ensures IsProfileUrl(CanonicalPrefix + h)
    ensures IsValid(CanonicalPrefix + h) == Some(true)
  {
    CanonicalFixed(h);
    CanonicalMatches(h);
    CanonicalHandle(h);
  }

  /** The literal parts of the pattern are found in a canonical URL. */
  lemma CanonicalMatches(h: string)
    ensures var s := CanonicalPrefix + h;
            MatchesCI(s, 0, "https://") && MatchesCI(s, 8, "www.") &&
            MatchesCI(s, 12, "linkedin.com") && MatchesCI(s, 24, "/in/")
  {
    var s := CanonicalPrefix + h;
    PatternLiterals();
    Pieces("https://", "www.", "linkedin.com", "/in/", h);
    MatchesAt(s, 0, "https://");
    MatchesAt(s, 8, "www.");
    MatchesAt(s, 12, "linkedin.com");
    MatchesAt(s, 24, "/in/");
  }

  /** The handle of a canonical URL runs to its end. */
  lemma CanonicalHandle(h: string)
    requires forall i :: 0 <= i < |h| ==> IsHandleChar(h[i])
    ensures RunEnd(CanonicalPrefix + h, 28, IsHandleChar) == |CanonicalPrefix + h|
  {
    var s := CanonicalPrefix + h;
    forall k | 28 <= k < |s|
      ensures IsHandleChar(s[k])
    {
      assert s[k] == h[k - 28];
    }
    RunEndExact(s, 28, |s|, IsHandleChar);
  }

  /** The pieces of the canonical URL, by position. */
  lemma Pieces(a: string, b: string, c: string, d: string, h: string)
    ensures var s := a + (b + c) + d + h;
            var i, j, k := |a|, |a| + |b|, |a| + |b| + |c|;
            s[..i] == a && s[i..j] == b && s[j..k] == c && s[k..k + |d|] == d && s[k + |d|..] == h
  {
  }

  /** A URL that is valid stays valid once normalised. */
  lemma ValidStable(url: string)
    requires IsValid(url) == Some(true)
    ensures IsValid(Normalize(url).value) == Some(true)
  {
    NormalizeIdempotent(url);
  }

  /** Any host that mentions "linkedin.com" gives a valid profile URL, so a
    * look-alike host such as "notlinkedin.com" passes the check. */
  lemma ValidProfileUrl(host: string, h: string, tail: string)
    requires HostOk(host) && Contains(Lower(host), "linkedin.com")
    requires |h| > 0 && forall i :: 0 <= i < |h| ==> IsHandleChar(h[i])
    requires tail == "" || tail[0] == '/' || tail[0] == '?' || tail[0] == '#'
    requires forall i :: 0 <= i < |tail| ==> tail[i] !in Unsafe
    ensures IsValid("https://" + host + "/in/" + h + tail) == Some(true)
  {
    var url := "https://" + host + "/in/" + h + tail;
    NormalizeProfileUrl(host, h, tail);
    CanonicalValid(h);
    assert url != "";
    assert IsValid(url) == Some(IsProfileUrl(CanonicalPrefix + h));
  }

  /** "notlinkedin.com" is a host that mentions "linkedin.com". */
  lemma LookalikeHost()
    ensures HostOk("notlinkedin.com") && Contains(Lower("notlinkedin.com"), "linkedin.com")
  {
    LookalikeChars();
    LowerDotsHost("notlinkedin.com", 3);
  }

  lemma LookalikeChars()
    ensures forall i :: 0 <= i < |"notlinkedin.com"| ==> IsLower("notlinkedin.com"[i]) || "notlinkedin.com"[i] == '.'
    ensures OccursAt("notlinkedin.com", "linkedin.com", 3)
  {
  }

  // -------------------------------------------------- names from handles

  /** Where the run of digits that ends `s` starts. */
  function DigitTailStart(s: string): (k: nat)
    ensures k <= |s|
    ensures forall i :: k <= i < |s| ==> IsDigit(s[i])
    ensures k > 0 ==> !IsDigit(s[k - 1])
  {
    if |s| > 0 && IsDigit(s[|s| - 1]) then DigitTailStart(s[..|s| - 1]) else |s|
  }

  /** `re.sub(r'-\d+$', '', s)`: a final '-' with digits goes, also where a
    * single newline follows them (`$` matches before a final newline). */
  function DropNumberSuffix(s: string): (r: string)
    ensures |r| <= |s|
  {
    var core := if |s| > 0 && s[|s| - 1] == '\n' then s[..|s| - 1] else s;
    var k := DigitTailStart(core);
    if 0 < k < |core| && core[k - 1] == '-' then core[..k - 1] + s[|core|..] else s
  }

  /** The number suffix goes, with or without a final newline. */
  lemma DropNumber(a: string, d: string)
    requires IsDigits(d)
    ensures DropNumberSuffix(a + "-" + d) == a
    ensures DropNumberSuffix(a + "-" + d + "\n") == a + "\n"
  {
    DropNumberAt(a + "-" + d, a, d);
    DropNumberNewline(a + "-" + d + "\n", a + "-" + d, a, d);
  }

  lemma DropNumberAt(s: string, a: string, d: string)
    requires IsDigits(d) && s == a + "-" + d
    ensures DropNumberSuffix(s) == a
  {
    assert s[|s| - 1] == d[|d| - 1];
    assert s[|a|] == '-';
    DigitTail(s, |a| + 1);
    assert s[..|a|] == a;
  }

  lemma DropNumberNewline(t: string, s: string, a: string, d: string)
    requires IsDigits(d) && s == a + "-" + d && t == s + "\n"
    ensures DropNumberSuffix(t) == a + "\n"
  {
    assert t[..|t| - 1] == s;
    assert s[|a|] == '-';
    DigitTail(s, |a| + 1);
    assert s[..|a|] == a;
    assert t[|s|..] == "\n";
  }

  lemma DigitTail(s: string, k: nat)
    requires 0 < k < |s| && !IsDigit(s[k - 1])
    requires forall i :: k <= i < |s| ==> IsDigit(s[i])
    ensures DigitTailStart(s) == k
    decreases |s|
  {
    if |s| > k + 1 {
      DigitTail(s[..|s| - 1], k);
    }
  }

  /** A handle that ends in a letter keeps everything. */
  lemma DropNumberLetter(s: string)
    requires |s| > 0 && IsLetter(s[|s| - 1])
    ensures DropNumberSuffix(s) == s
  {
  }

  /** A capitalised alphabetic word: an upper-case letter, then lower-case ones. */
  predicate IsNameWord(w: string)
  {
    |w| > 0 && IsUpper(w[0]) && forall i :: 1 <= i < |w| ==> IsLower(w[i])
  }

  lemma CapitalNameWord(p: string)
    requires IsAlpha(p)
    ensures IsNameWord(Capitalize(p))
  {
    var c := Capitalize(p);
    forall i | 1 <= i < |c|
      ensures IsLower(c[i])
    {
      assert c[1..][i - 1] == Lower(p[1..])[i - 1] == LowerChar(p[i]);
    }
  }

  /** `[part.capitalize() for part in parts if part.isalpha()]`. */
  function CapitalisedWords(parts: seq<string>): (ws: seq<string>)
    ensures |ws| <= |parts|
    ensures forall w :: w in ws ==> IsNameWord(w)
  {
    if |parts| == 0 then []
    else
      var rest := CapitalisedWords(parts[1..]);
      if IsAlpha(parts[0]) then
        CapitalNameWord(parts[0]);
        [Capitalize(parts[0])] + rest
      else rest
  }

  /** The words of the name read from a handle: '-' and '_' separate words
    * like spaces, words that are not purely alphabetic are dropped, and at
    * most three are kept; fewer than two give none. `dropNumber` removes a
    * trailing "-<digits>" first. */
  function NameWords(username: string, dropNumber: bool): (ws: seq<string>)
    ensures |ws| == 0 || 2 <= |ws| <= 3
    ensures forall w :: w in ws ==> IsNameWord(w)
  {
    var u := if dropNumber then DropNumberSuffix(username) else username;
    var words := CapitalisedWords(SplitWs(ReplaceChar(ReplaceChar(u, '-', ' '), '_', ' ')));
    if |words| >= 2 then
      var ws := Take(words, 3);
      assert forall w :: w in ws ==> w in words;
      ws
    else []
  }

  /** Two or three capitalised words separated by single spaces. */
  ghost predicate IsGuessedName(n: string)
  {
    exists ws :: 2 <= |ws| <= 3 && (forall w :: w in ws ==> IsNameWord(w)) && n == Join(ws, " ")
  }

  /** The name read from a handle, or "" when it has fewer than two words. */
  function GuessedName(username: string, dropNumber: bool): (n: string)
    ensures n == "" || IsGuessedName(n)
  {
    var ws := NameWords(username, dropNumber);
    if |ws| >= 2 then Join(ws, " ") else ""
  }

  function Capitals(ws: seq<string>): seq<string>
  {
    seq(|ws|, i requires 0 <= i < |ws| => Capitalize(ws[i]))
  }

  /** A handle of alphabetic words joined by '-' gives those words
    * capitalised, the first three of them: "john-doe-engineer" gives
    * "John Doe Engineer", with or without the number suffix removal. */
  lemma HyphenatedName(ws: seq<string>, dropNumber: bool)
    requires |ws| >= 2 && forall w :: w in ws ==> IsAlpha(w)
    ensures GuessedName(Join(ws, "-"), dropNumber) == Join(Take(Capitals(ws), 3), " ")
  {
    var s := Join(ws, "-");
    if dropNumber {
      JoinEndsWith(ws, "-");
      DropNumberLetter(s);
    }
    WordsOfHyphenated(ws);
    CapitalisedAll(ws);
  }

  /** Turning the hyphens of alphabetic words into spaces and splitting on
    * whitespace gives the words back. */
  lemma WordsOfHyphenated(ws: seq<string>)
    requires forall w :: w in ws ==> IsAlpha(w)
    ensures SplitWs(ReplaceChar(ReplaceChar(Join(ws, "-"), '-', ' '), '_', ' ')) == ws
  {
    forall w | w in ws
      ensures '-' !in w && '_' !in w && IsToken(w)
    {
      AlphaWord(w);
    }
    ReplaceCharJoin(ws, "-", '-', ' ');
    assert ReplaceChar("-", '-', ' ') == " ";
    JoinExcludes(ws, " ", '_');
    ReplaceCharAbsent(Join(ws, " "), '_', ' ');
    SplitWsJoin(ws);
  }

  lemma AlphaWord(w: string)
    requires IsAlpha(w)
    ensures '-' !in w && '_' !in w && ' ' !in w && IsToken(w)
  {
    forall i | 0 <= i < |w|
      ensures w[i] != '-' && w[i] != '_' && !IsSpace(w[i])
    {
      assert IsLetter(w[i]);
    }
  }

  /** The join ends with the last letter of the last word. */
  lemma {:induction false} JoinEndsWith(ws: seq<string>, sep: string)
    requires |ws| >= 1 && forall w :: w in ws ==> IsAlpha(w)
    ensures var s := Join(ws, sep); |s| > 0 && IsLetter(s[|s| - 1])
    decreases |ws|
  {
    var last := ws[|ws| - 1];
    assert last in ws;
    if |ws| == 1 {
      assert Join(ws, sep) == ws[0];
    } else {
      assert forall w :: w in ws[1..] ==> w in ws;
      JoinEndsWith(ws[1..], sep);
      var tail := Join(ws[1..], sep);
      assert Join(ws, sep) == ws[0] + sep + tail;
    }
  }

  /** Splitting words joined by single spaces gives the words back. */
  lemma {:induction false} SplitWsJoin(ws: seq<string>)
    requires forall w :: w in ws ==> IsToken(w)
    ensures SplitWs(Join(ws, " ")) == ws
    decreases |ws|
  {
    if |ws| == 0 {
      SplitWsEmpty(Join(ws, " "));
    } else if |ws| == 1 {
      assert ws[0] in ws;
      SplitWsOne(ws[0]);
    } else {
      assert ws[0] in ws && ws[1] in ws;
      assert forall v :: v in ws[1..] ==> v in ws;
      SplitWsJoin(ws[1..]);
      JoinStartsWith(ws[1..]);
      SplitWsCons(ws[0], Join(ws[1..], " "));
    }
  }

  lemma SplitWsOne(w: string)
    requires IsToken(w)
    ensures SplitWs(w) == [w]
  {
    assert LStrip(w) == w;
    TokenAll(w);
    assert w[..|w|] == w;
    SplitWsEmpty(w[|w|..]);
  }

  lemma SplitWsEmpty(e: string)
    requires e == []
    ensures SplitWs(e) == []
  {
    assert LStrip(e) == e;
  }

  lemma {:induction false} TokenAll(w: string)
    requires IsToken(w)
    ensures TokenLength(w) == |w|
    decreases |w|
  {
    if |w| > 1 {
      TokenAll(w[1..]);
    }
  }

  lemma SplitWsCons(w: string, tail: string)
    requires IsToken(w) && tail != "" && !IsSpace(tail[0])
    ensures SplitWs(w + " " + tail) == [w] + SplitWs(tail)
  {
    assert w + " " + tail == w + (" " + tail);
    SplitWsToken(w, " " + tail);
    SplitWsSpace(tail);
  }

  /** A token followed by nothing or by whitespace is the first word. */
  lemma SplitWsToken(w: string, rest: string)
    requires IsToken(w) && (rest == "" || IsSpace(rest[0]))
    ensures SplitWs(w + rest) == [w] + SplitWs(rest)
  {
    var s := w + rest;
    assert LStrip(s) == s;
    TokenOf(w, rest);
    assert s[|w|..] == rest;
  }

  lemma {:induction false} TokenOf(w: string, rest: string)
    requires IsToken(w) && (rest == "" || IsSpace(rest[0]))
    ensures TokenLength(w + rest) == |w| && (w + rest)[..|w|] == w
    decreases |w|
  {
    if |w| > 1 {
      assert (w + rest)[1..] == w[1..] + rest;
      TokenOf(w[1..], rest);
    }
  }

  /** A single leading space does not change the words. */
  lemma SplitWsSpace(tail: string)
    requires tail != "" && !IsSpace(tail[0])
    ensures SplitWs(" " + tail) == SplitWs(tail)
  {
    assert (" " + tail)[1..] == tail;
    assert LStrip(" " + tail) == tail;
  }

  lemma {:induction false} JoinStartsWith(ws: seq<string>)
    requires |ws| > 0 && IsToken(ws[0])
    ensures var s := Join(ws, " "); s != "" && !IsSpace(s[0])
  {
    if |ws| > 1 {
      assert Join(ws, " ") == ws[0] + " " + Join(ws[1..], " ");
    }
  }

  lemma {:induction false} CapitalisedAll(ws: seq<string>)
    requires forall w :: w in ws ==> IsAlpha(w)
    ensures CapitalisedWords(ws) == Capitals(ws)
    decreases |ws|
  {
    if |ws| > 0 {
      assert ws[0] in ws;
      assert forall w :: w in ws[1..] ==> w in ws;
      CapitalisedAll(ws[1..]);
      assert Capitals(ws) == [Capitalize(ws[0])] + Capitals(ws[1..]);
    }
  }

  // ------------------------------------------------- the username in a URL

  /** The part after the first "in" that has a part after it. */
  function UsernameAfterIn(parts: seq<string>): (u: Option<string>)
    ensures u.Some? ==> exists i :: 0 <= i < |parts| - 1 && parts[i] == "in" && parts[i + 1] == u.value
    ensures u.None? <==> forall i :: 0 <= i < |parts| - 1 ==> parts[i] != "in"
  {
    if |parts| < 2 then None
    else if parts[0] == "in" then Some(parts[1])
    else
      var u := UsernameAfterIn(parts[1..]);
      assert forall i :: 1 <= i < |parts| - 1 ==> parts[i] == parts[1..][i - 1];
      u
  }

  /** The `for i, part in enumerate(url_parts)` loop with its `break`. */
  method FindUsername(parts: seq<string>) returns (u: Option<string>)
    ensures u == UsernameAfterIn(parts)
  {
    var i := 0;
    while i < |parts|
      invariant 0 <= i <= |parts|
      invariant UsernameAfterIn(parts) == UsernameAfterIn(parts[i..])
    {
      if parts[i] == "in" && i + 1 < |parts| {
        return Some(parts[i + 1]);
      }
      assert parts[i..][1..] == parts[i + 1..];
      i := i + 1;
    }
    return None;
  }

  /** The name guessed from the handle in `url`, or "" when there is none. */
  function NameFromUrl(url: string, dropNumber: bool): (n: string)
    ensures n == "" || IsGuessedName(n)
  {
    var u := UsernameAfterIn(Split(url, '/'));
    if u.Some? && u.value != "" then GuessedName(u.value, dropNumber) else ""
  }

  // ------------------------------------------------------------ profiles

  /** The fields of a `LinkedInProfile`, as one value. */
  datatype ProfileFields = ProfileFields(
    fullName: string, email: string, linkedinUrl: string, location: string,
    currentCompany: string, currentPosition: string, headline: string, about: string,
    skills: seq<string>, experience: seq<map<string, string>>, education: seq<map<string, string>>)

  /** `LinkedInProfile(linkedin_url=url)`: every other field is empty. */
  function BlankProfile(url: string): ProfileFields
  {
    ProfileFields("", "", url, "", "", "", "", "", [], [], [])
  }

  /** A profile as the scraper fills it in, field by field. */
  class Profile {
    var fullName: string
    var email: string
    var linkedinUrl: string
    var location: string
    var currentCompany: string
    var currentPosition: string
    var headline: string
    var about: string
    var skills: seq<string>
    var experience: seq<map<string, string>>
    var education: seq<map<string, string>>

    function Fields(): ProfileFields
      reads this
    {
      ProfileFields(fullName, email, linkedinUrl, location, currentCompany, currentPosition,
                    headline, about, skills, experience, education)
    }

    constructor (url: string)
      ensures Fields() == BlankProfile(url)
    {
      fullName, email, linkedinUrl, location := "", "", url, "";
      currentCompany, currentPosition, headline, about := "", "", "", "";
      skills, experience, education := [], [], [];
    }

    /** What a scraping attempt writes into the profile. */
    method Store(f: ProfileFields)
      modifies this
      ensures Fields() == f
    {
      fullName, email, linkedinUrl, location := f.fullName, f.email, f.linkedinUrl, f.location;
      currentCompany, currentPosition := f.currentCompany, f.currentPosition;
      headline, about := f.headline, f.about;
      skills, experience, education := f.skills, f.experience, f.education;
    }
  }

  /** `extract_from_url_pattern` on a profile's fields: the name guessed from
    * the URL replaces `full_name` when there is one; nothing else changes. */
  function WithPatternName(f: ProfileFields): (r: ProfileFields)
    ensures r == f.(fullName := r.fullName)
    ensures r.fullName == f.fullName || IsGuessedName(r.fullName)
    ensures NameFromUrl(f.linkedinUrl, true) != "" ==> r.fullName == NameFromUrl(f.linkedinUrl, true)
  {
    var n := NameFromUrl(f.linkedinUrl, true);
    if n != "" then f.(fullName := n) else f
  }

  /** `extract_from_url_pattern`: the handle after "in" loses a trailing
    * "-<digits>", its alphabetic words are capitalised, and two or three of
    * them become the full name. */
  method ExtractFromUrlPattern(profile: Profile)
    modifies profile
    ensures profile.Fields() == WithPatternName(old(profile.Fields()))
  {
    var urlParts := Split(profile.linkedinUrl, '/');
    var username := FindUsername(urlParts);
    if username.Some? && username.value != "" {
      var u := DropNumberSuffix(username.value);
      u := ReplaceChar(u, '-', ' ');
      u := ReplaceChar(u, '_', ' ');
      var capitalised := CapitalisedWords(SplitWs(u));
      if |capitalised| >= 2 {
        profile.fullName := Join(Take(capitalised, 3), " ");
      }
    }
  }

  /** The fields after the scraping attempts, then the URL pattern when
    * they found no name. */
  function Scraped(v: string, scrape: ProfileFields -> ProfileFields): ProfileFields
  {
    var f := scrape(BlankProfile(v));
    if f.fullName != "" then f else WithPatternName(f)
  }

  /** `extract_profile_info`. `None` is the `ValueError` of an unparsable URL,
    * which escapes. An invalid URL gives a profile holding only the
    * normalised URL. `scrape` stands for the web scraping attempts. */
  method ExtractProfileInfo(url: string, scrape: ProfileFields -> ProfileFields) returns (r: Option<Profile>)
    ensures r.None? <==> Normalize(url).None?
    ensures r.Some? ==> fresh(r.value)
    ensures r.Some? && IsValid(url) != Some(true) ==> r.value.Fields() == BlankProfile(Normalize(url).value)
    ensures r.Some? && IsValid(url) == Some(true) ==> r.value.Fields() == Scraped(Normalize(url).value, scrape)
  {
    var n := Normalize(url);
    if n.None? {
      return None;
    }
    var profile := new Profile(n.value);
    var valid := IsValid(url);
    if valid != Some(true) {
      return Some(profile);
    }
    profile.Store(scrape(profile.Fields()));
    if profile.fullName == "" {
      ExtractFromUrlPattern(profile);
    }
    r := Some(profile);
  }

  /** A scraped name is kept; otherwise the name is the URL's guess or empty. */
  lemma ScrapedName(v: string, scrape: ProfileFields -> ProfileFields)
    ensures var f := scrape(BlankProfile(v));
            Scraped(v, scrape).fullName == if f.fullName != "" then f.fullName else NameFromUrl(f.linkedinUrl, true)
  {
  }

  // ------------------------------------------------------ basic info

  /** The dictionary `extract_basic_info_from_url` returns; the failure
    * dictionary has no `full_name` key. */
  datatype BasicInfo = BasicInfo(fullName: Option<string>, linkedinUrl: string, extractedMethod: string)

  /** `extract_basic_info_from_url`: the normalised URL and the name guessed
    * from its handle (no number suffix removal here), or the input marked
    * "failed" when the URL cannot be parsed. */
  method ExtractBasicInfoFromUrl(url: string) returns (info: BasicInfo)
    ensures Normalize(url).None? ==> info == BasicInfo(None, url, "failed")
    ensures Normalize(url).Some? ==>
      info == BasicInfo(Some(NameFromUrl(Normalize(url).value, false)), Normalize(url).value, "url_pattern")
    ensures info.fullName.Some? ==> info.fullName.value == "" || IsGuessedName(info.fullName.value)
  {
    var n := Normalize(url);
    if n.None? {
      return BasicInfo(None, url, "failed");
    }
    var normalizedUrl := n.value;
    var username := FindUsername(Split(normalizedUrl, '/'));
    var name := "";
    if username.Some? && username.value != "" {
      var nameParts := CapitalisedWords(SplitWs(ReplaceChar(ReplaceChar(username.value, '-', ' '), '_', ' ')));
      if |nameParts| >= 2 {
        name := Join(Take(nameParts, 3), " ");
      }
    }
    info := BasicInfo(Some(name), normalizedUrl, "url_pattern");
  }

  /** A profile URL whose handle is alphabetic words joined by '-' gives the
    * first three of those words, capitalised, as the name:
    * ".../in/john-doe-engineer" gives "John Doe Engineer". */
  lemma BasicNameOfProfileUrl(host: string, ws: seq<string>, tail: string)
    requires HostOk(host) && Contains(Lower(host), "linkedin.com")
    requires |ws| >= 2 && forall w :: w in ws ==> IsAlpha(w)
    requires tail == "" || tail[0] == '/' || tail[0] == '?' || tail[0] == '#'
    requires forall i :: 0 <= i < |tail| ==> tail[i] !in Unsafe
    ensures var h := Join(ws, "-");
            Normalize("https://" + host + "/in/" + h + tail) == Some(CanonicalPrefix + h) &&
            NameFromUrl(CanonicalPrefix + h, false) == Join(Take(Capitals(ws), 3), " ")
  {
    var h := Join(ws, "-");
    JoinEndsWith(ws, "-");
    JoinHandleChars(ws, "-");
    NormalizeProfileUrl(host, h, tail);
    JoinExcludes(ws, "-", '/');
    NameOfCanonical(h, false);
    HyphenatedName(ws, false);
  }

  /** The name read from a canonical URL is the one guessed from its handle. */
  lemma NameOfCanonical(h: string, dropNumber: bool)
    requires h != "" && '/' !in h
    ensures NameFromUrl(CanonicalPrefix + h, dropNumber) == GuessedName(h, dropNumber)
  {
    SplitCanonical(h);
    UsernameOfCanonical(h);
  }

  lemma {:induction false} JoinHandleChars(ws: seq<string>, sep: string)
    requires forall w :: w in ws ==> IsAlpha(w)
    requires HandleText(sep)
    ensures HandleText(Join(ws, sep))
    decreases |ws|
  {
    if |ws| > 0 {
      var w := ws[0];
      assert w in ws;
      assert HandleText(w);
      if |ws| > 1 {
        assert forall v :: v in ws[1..] ==> v in ws;
        JoinHandleChars(ws[1..], sep);
        HandleConcat(w, sep, Join(ws[1..], sep));
      }
    }
  }

  lemma HandleConcat(a: string, b: string, c: string)
    requires HandleText(a) && HandleText(b) && HandleText(c)
    ensures HandleText(a + b + c)
  {
  }

  /** Text made of handle characters only. */
  predicate HandleText(s: string)
  {
    forall i :: 0 <= i < |s| ==> IsHandleChar(s[i])
  }

  /** The parts of a canonical URL: "https:", "", the host, "in", the handle. */
  lemma SplitCanonical(h: string)
    requires '/' !in h
    ensures Split(CanonicalPrefix + h, '/') == ["https:", "", CanonicalHostName, "in", h]
  {
    var parts := ["https:", "", CanonicalHostName, "in", h];
    HostChars();
    assert '/' !in CanonicalHostName;
    assert '/' !in "https:" && '/' !in "in";
    forall p | p in parts
      ensures '/' !in p
    {
    }
    SplitJoin(parts, '/');
    JoinFive("https:", "", CanonicalHostName, "in", h, "/");
    SlashPieces();
    ConcatCanonical(CanonicalPrefix, "https:", "/", CanonicalHostName, "in", h);
  }

  lemma SlashPieces()
    ensures "https:" + "/" + "" + "/" == "https://" && "/" + "in" + "/" == "/in/"
  {
  }

  lemma ConcatCanonical(prefix: string, a: string, sep: string, c: string, d: string, h: string)
    requires prefix == (a + sep + "" + sep) + c + (sep + d + sep)
    ensures a + sep + "" + sep + c + sep + d + sep + h == prefix + h
  {
  }

  lemma JoinFive(a: string, b: string, c: string, d: string, h: string, sep: string)
    ensures Join([a, b, c, d, h], sep) == a + sep + b + sep + c + sep + d + sep + h
  {
    var ws := [a, b, c, d, h];
    assert ws[1..] == [b, c, d, h] && ws[1..][1..] == [c, d, h];
    assert ws[1..][1..][1..] == [d, h] && ws[1..][1..][1..][1..] == [h];
    assert Join([h], sep) == h;
    assert Join([d, h], sep) == d + sep + h;
    assert Join([c, d, h], sep) == c + sep + (d + sep + h);
    assert Join([b, c, d, h], sep) == b + sep + (c + sep + (d + sep + h));
    assert Join(ws, sep) == a + sep + (b + sep + (c + sep + (d + sep + h)));
  }

  lemma UsernameOfCanonical(h: string)
    ensures UsernameAfterIn(["https:", "", CanonicalHostName, "in", h]) == Some(h)
  {
    var parts := ["https:", "", CanonicalHostName, "in", h];
    assert |"https:"| == 6 && |CanonicalHostName| == 16;
    assert parts[1..] == ["", CanonicalHostName, "in", h];
    assert parts[1..][1..] == [CanonicalHostName, "in", h];
    assert parts[1..][1..][1..] == ["in", h];
    assert UsernameAfterIn(["in", h]) == Some(h);
    assert UsernameAfterIn([CanonicalHostName, "in", h]) == Some(h);
    assert UsernameAfterIn(["", CanonicalHostName, "in", h]) == Some(h);
  }

  // ------------------------------------------------------------ skills

  /** The vocabulary `extract_skills_from_text` looks for, in its order. */
  const CommonSkills: seq<string> := [
    "Python", "Java", "JavaScript", "C++", "C#", "Ruby", "PHP", "Go", "Rust", "Swift",
    "React", "Angular", "Vue.js", "Node.js", "Django", "Flask", "Spring", "Laravel",
    "HTML", "CSS", "TypeScript", "SQL", "PostgreSQL", "MySQL", "MongoDB", "Redis",
    "AWS", "Azure", "GCP", "Docker", "Kubernetes", "Jenkins", "Git", "Linux",
    "Machine Learning", "Deep Learning", "TensorFlow", "PyTorch", "Pandas", "NumPy",
    "REST API", "GraphQL", "Microservices", "DevOps", "CI/CD", "Agile", "Scrum"]

  /** At most this many skills are returned. */
  const MaxSkills := 15

  /** `w` occurs at `i` with no word character right before or right after it. */
  predicate StandaloneAt(s: string, w: string, i: nat)
  {
    OccursAt(s, w, i) && (i == 0 || !IsWordChar(s[i - 1])) && (i + |w| == |s| || !IsWordChar(s[i + |w|]))
  }

  predicate ContainsStandalone(s: string, w: string)
  {
    exists i | 0 <= i <= |s| :: StandaloneAt(s, w, i)
  }

  /** The test a term must pass: `\b` on both sides of it as the code has it
    * (`asWritten`), or standing alone as intended. */
  predicate TermFound(s: string, w: string, asWritten: bool)
  {
    if asWritten then ContainsWholeWord(s, w) else ContainsStandalone(s, w)
  }

  /** The terms of `vocab` found in the lowercased text `s`, in vocabulary order. */
  function SkillsFound(s: string, vocab: seq<string>, asWritten: bool): (r: seq<string>)
    ensures |r| <= |vocab|
    ensures forall t :: t in r <==> t in vocab && TermFound(s, Lower(t), asWritten)
  {
    if |vocab| == 0 then []
    else
      var init := vocab[..|vocab| - 1];
      var last := vocab[|vocab| - 1];
      assert vocab == init + [last];
      SkillsFound(s, init, asWritten) + if TermFound(s, Lower(last), asWritten) then [last] else []
  }

  /** The first fifteen terms of `vocab` found in `text`; none for empty text. */
  function TopSkills(text: string, vocab: seq<string>, asWritten: bool): (r: seq<string>)
    ensures |r| <= MaxSkills
    ensures forall t :: t in r ==> t in vocab && TermFound(Lower(text), Lower(t), asWritten)
    ensures text == "" ==> r == []
    ensures text != "" ==> var all := SkillsFound(Lower(text), vocab, asWritten);
                           |r| <= |all| && r == all[..|r|] && (|all| <= MaxSkills ==> r == all)
  {
    if text == "" then []
    else
      var all := SkillsFound(Lower(text), vocab, asWritten);
      var r := Take(all, MaxSkills);
      assert forall t :: t in r ==> t in all;
      r
  }

  /** `extract_skills_from_text` as the code has it: the `\b` after "C++"
    * and "C#" needs a word character right after the '+' or '#'. */
  function SkillsAsWritten(text: string): seq<string>
  {
    TopSkills(text, CommonSkills, true)
  }

  /** The skills reported for `text`: [] for empty text, otherwise the
    * vocabulary terms standing alone in the lowercased text, in vocabulary
    * order, at most 15. */
  function SkillsIn(text: string): seq<string>
  {
    TopSkills(text, CommonSkills, false)
  }

  /** The vocabulary loop of `extract_skills_from_text`: the plain substring
    * test, then the `\b` test as written (`asWritten`) or the corrected
    * standalone test. */
  method FindSkills(textLower: string, vocab: seq<string>, asWritten: bool) returns (found: seq<string>)
    ensures found == SkillsFound(textLower, vocab, asWritten)
  {
    found := [];
    for k := 0 to |vocab|
      invariant found == SkillsFound(textLower, vocab[..k], asWritten)
    {
      var skill := vocab[k];
      var term := Lower(skill);
      if Contains(textLower, term) {
        if TermFound(textLower, term, asWritten) {
          found := found + [skill];
        }
      }
      TermFoundContains(textLower, term, asWritten);
      assert vocab[..k + 1][..k] == vocab[..k];
    }
    assert vocab[..|vocab|] == vocab;
  }

  /** `extract_skills_from_text`, with the whole-word test corrected. */
  method ExtractSkillsFromText(text: string) returns (skills: seq<string>)
    ensures skills == SkillsIn(text)
  {
    if text == "" {
      return [];
    }
    var found := FindSkills(Lower(text), CommonSkills, false);
    skills := Take(found, MaxSkills);
  }

  /** `extract_skills_from_text` as the code has it, `\b` on both sides. */
  method ExtractSkillsFromTextAsWritten(text: string) returns (skills: seq<string>)
    ensures skills == SkillsAsWritten(text)
  {
    if text == "" {
      return [];
    }
    var found := FindSkills(Lower(text), CommonSkills, true);
    skills := Take(found, MaxSkills);
  }

  /** Either test finds the term only where it occurs. */
  lemma TermFoundContains(s: string, w: string, asWritten: bool)
    ensures TermFound(s, w, asWritten) ==> Contains(s, w)
  {
    StandaloneContains(s, w);
    if asWritten && ContainsWholeWord(s, w) {
      WholeWordContains(s, w);
    }
  }

  lemma StandaloneContains(s: string, w: string)
    ensures ContainsStandalone(s, w) ==> Contains(s, w)
  {
    if ContainsStandalone(s, w) {
      var i :| 0 <= i <= |s| && StandaloneAt(s, w, i);
      ContainsAt(s, w, i);
    }
  }

  /** The terms found in a prefix of the vocabulary start the terms found in all of it. */
  lemma {:induction false} FoundPrefix(s: string, vocab: seq<string>, k: nat, asWritten: bool)
    requires k <= |vocab|
    ensures var p := SkillsFound(s, vocab[..k], asWritten);
            var all := SkillsFound(s, vocab, asWritten);
            |p| <= |all| && all[..|p|] == p
    decreases |vocab| - k
  {
    if k < |vocab| {
      var n := |vocab|;
      FoundPrefix(s, vocab[..n - 1], k, asWritten);
      assert vocab[..n - 1][..k] == vocab[..k];
    } else {
      assert vocab[..k] == vocab;
    }
  }

  /** A term among the first fifteen of the vocabulary that passes the test
    * is always reported, whatever else the text holds. */
  lemma EarlySkillFound(text: string, vocab: seq<string>, k: nat, asWritten: bool)
    requires text != "" && k < MaxSkills && k < |vocab|
    requires TermFound(Lower(text), Lower(vocab[k]), asWritten)
    ensures vocab[k] in TopSkills(text, vocab, asWritten)
  {
    var s := Lower(text);
    FoundAtEnd(s, vocab, k, asWritten);
    FoundPrefix(s, vocab, k + 1, asWritten);
    TakePrefixMember(SkillsFound(s, vocab, asWritten), SkillsFound(s, vocab[..k + 1], asWritten), vocab[k], MaxSkills);
  }

  lemma FoundAtEnd(s: string, vocab: seq<string>, k: nat, asWritten: bool)
    requires k < |vocab| && TermFound(s, Lower(vocab[k]), asWritten)
    ensures var p := SkillsFound(s, vocab[..k + 1], asWritten);
            vocab[k] in p && |p| <= k + 1
  {
    assert vocab[..k + 1][k] == vocab[k];
  }

  /** An element of a prefix no longer than `n` survives taking `n`. */
  lemma TakePrefixMember<T>(all: seq<T>, p: seq<T>, x: T, n: nat)
    requires |p| <= n && |p| <= |all| && all[..|p|] == p && x in p
    ensures x in Take(all, n)
  {
    var r := Take(all, n);
    assert r[..|p|] == p;
  }

  /** A word character stays one when lowercased. */
  lemma LowerWordChar(c: char)
    ensures IsWordChar(LowerChar(c)) <==> IsWordChar(c)
  {
  }

  /** `\b` on both sides and standing alone agree for a term that begins
    * and ends with a word character. */
  lemma StandaloneAgrees(s: string, w: string, i: nat)
    requires |w| > 0 && IsWordChar(w[0]) && IsWordChar(w[|w| - 1])
    ensures WholeWordAt(s, w, i) <==> StandaloneAt(s, w, i)
  {
    if OccursAt(s, w, i) {
      assert s[i] == w[0] && s[i + |w| - 1] == w[|w| - 1];
    }
  }

  /** The two tests agree on every vocabulary whose terms begin and end with
    * a word character; "C++" and "C#" are the only terms of `CommonSkills`
    * outside this case. */
  lemma {:induction false} SkillsAgree(s: string, vocab: seq<string>)
    requires forall t :: t in vocab ==> |t| > 0 && IsWordChar(t[0]) && IsWordChar(t[|t| - 1])
    ensures SkillsFound(s, vocab, true) == SkillsFound(s, vocab, false)
    decreases |vocab|
  {
    if |vocab| > 0 {
      var n := |vocab|;
      assert vocab[n - 1] in vocab;
      assert forall v :: v in vocab[..n - 1] ==> v in vocab;
      SkillsAgree(s, vocab[..n - 1]);
      TermAgrees(s, vocab[n - 1]);
    }
  }

  lemma TermAgrees(s: string, t: string)
    requires |t| > 0 && IsWordChar(t[0]) && IsWordChar(t[|t| - 1])
    ensures TermFound(s, Lower(t), true) == TermFound(s, Lower(t), false)
  {
    var w := Lower(t);
    LowerWordChar(t[0]);
    LowerWordChar(t[|t| - 1]);
    forall i | 0 <= i <= |s|
      ensures WholeWordAt(s, w, i) <==> StandaloneAt(s, w, i)
    {
      StandaloneAgrees(s, w, i);
    }
  }

  /** As written, a term that ends in a non-word character matches only
    * where a word character follows it. */
  lemma WordAfterNeeded(s: string, w: string, i: nat)
    requires |w| > 0 && !IsWordChar(w[|w| - 1]) && WholeWordAt(s, w, i)
    ensures i + |w| < |s| && IsWordChar(s[i + |w|])
  {
    assert s[i + |w| - 1] == w[|w| - 1];
  }

  /** As written, a term that ends in a non-word character is never a whole
    * word of itself. */
  lemma NotOwnWholeWord(w: string)
    requires |w| > 0 && !IsWordChar(w[|w| - 1])
    ensures !ContainsWholeWord(w, w)
  {
    forall i | 0 <= i <= |w|
      ensures !WholeWordAt(w, w, i)
    {
      if WholeWordAt(w, w, i) {
        WordAfterNeeded(w, w, i);
      }
    }
  }

  lemma LowerCpp(t: string)
    requires t == "C++"
    ensures Lower(t) == "c++"
  {
    assert Lower(t)[0] == LowerChar('C') == 'c';
  }

  /** The text "C++" is found to hold the skill "C++" by the corrected test,
    * and not by the code as written. */
  lemma CPlusPlusMissed()
    ensures "C++" !in SkillsAsWritten("C++")
    ensures "C++" in SkillsIn("C++")
  {
    var t := "C++";
    LowerCpp(t);
    var w := Lower(t);
    NotOwnWholeWord(w);
    assert StandaloneAt(w, w, 0);
    assert CommonSkills[3] == t;
    EarlySkillFound(t, CommonSkills, 3, false);
  }
}
