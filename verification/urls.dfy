/** URLs as the crawler sees them: the parsed components it reads, the dedup key
    (`NormalizeURL`) and the scheme/host fill-in used to rewrite `href`/`src` references. */
module Urls {
  import opened Wrappers

  /** A parsed URL reduced to the components the crawler reads. Query, fragment, user
      information and opaque parts are parsed by the URL library but never read. */
  datatype Url = Url(scheme: string, host: string, path: string)

  /** The URL library's parser (Go's `url.Parse`); `None` is a parse error. */
  type Parser = string -> Option<Url>

  /** The only error `NormalizeURL` reports: the parser rejected the string. */
  datatype ParseError = ParseError

  /** Every character of `p` in `[lo, hi)` is a `/`. */
  predicate SlashesBetween(p: string, lo: int, hi: int)
  {
    forall i :: lo <= i < hi && 0 <= i < |p| ==> p[i] == '/'
  }

  /** Neither the first nor the last character is a `/`. */
  predicate NoEdgeSlash(s: string)
  {
    s == [] || (s[0] != '/' && s[|s| - 1] != '/')
  }

  /** `p[a..b]` is what remains of `p` once its edge slashes are cut off: only slashes lie
      outside `[a, b)` and no slash sits at either end of the infix. */
  predicate TrimBounds(p: string, a: int, b: int)
  {
    && 0 <= a <= b <= |p|
    && SlashesBetween(p, 0, a)
    && SlashesBetween(p, b, |p|)
    && (a < b ==> p[a] != '/' && p[b - 1] != '/')
  }

  /** Drops every leading `/`: what is left is a suffix of `p` preceded only by slashes. */
  function TrimLeft(p: string): (r: string)
    ensures |r| <= |p| && r == p[|p| - |r|..]
    ensures SlashesBetween(p, 0, |p| - |r|)
    ensures r == [] || r[0] != '/'
  {
    if p != [] && p[0] == '/' then TrimLeft(p[1..]) else p
  }

  /** Drops every trailing `/`: what is left is a prefix of `p` followed only by slashes. */
  function TrimRight(p: string): (r: string)
    ensures |r| <= |p| && r == p[..|r|]
    ensures SlashesBetween(p, |r|, |p|)
    ensures r == [] || r[|r| - 1] != '/'
  {
    if p != [] && p[|p| - 1] == '/' then TrimRight(p[..|p| - 1]) else p
  }

  /** How many slashes `strings.Trim` cuts from the front of `p`. */
  function LeadingSlashes(p: string): nat
  {
    |p| - |TrimLeft(p)|
  }

  /** `strings.Trim(p, "/")`: every leading and every trailing `/` removed. The result is the
      infix of `p` that starts after its leading slashes, with only slashes around it and no
      slash at either edge. */
  function TrimSlashes(p: string): (r: string)
    ensures NoEdgeSlash(r)
    ensures TrimBounds(p, LeadingSlashes(p), LeadingSlashes(p) + |r|)
    ensures r == p[LeadingSlashes(p)..LeadingSlashes(p) + |r|]
  {
    var l := TrimLeft(p);
    var r := TrimRight(l);
    assert r != [] ==> r[0] == l[0];
    r
  }

  /** The slash-trimmed infix is unique: however `p` is split into slashes, an infix with no
      slash at either end, and slashes again, that infix is `TrimSlashes(p)`. */
  lemma TrimSlashesUnique(p: string, a: int, b: int)
    requires TrimBounds(p, a, b)
    ensures TrimSlashes(p) == p[a..b]
  {
    var r := TrimSlashes(p);
    var a', b' := LeadingSlashes(p), LeadingSlashes(p) + |r|;
    if a < b && a' < b' {
      // the first and last non-slash characters fix both ends
      if a < a' || a' < a || b < b' || b' < b { assert false; }
    }
  }

  /** Appending to a string that is not all slashes leaves the appended part untouched by
      `TrimLeft`. */
  lemma {:induction false} TrimLeftAppend(p: string, s: string)
    ensures TrimLeft(p + s) == if TrimLeft(p) == [] then TrimLeft(s) else TrimLeft(p) + s
  {
    if p == [] {
      assert p + s == s;
    } else if p[0] == '/' {
      assert (p + s)[1..] == p[1..] + s;
      TrimLeftAppend(p[1..], s);
    }
  }

  /** A trailing slash does not change the trimmed path. */
  lemma TrimSlashesIgnoresTrailingSlash(p: string)
    ensures TrimSlashes(p + "/") == TrimSlashes(p)
  {
    var l := TrimLeft(p);
    TrimLeftAppend(p, "/");
    if l == [] {
      assert TrimLeft("/") == TrimLeft([]);
      assert TrimLeft(p + "/") == [];
    } else {
      assert TrimLeft(p + "/") == l + "/";
      assert TrimRight(l + "/") == TrimRight(l) by {
        assert (l + "/")[..|l|] == l;
      }
    }
  }

  /** A leading slash does not change the trimmed path. */
  lemma TrimSlashesIgnoresLeadingSlash(p: string)
    ensures TrimSlashes("/" + p) == TrimSlashes(p)
  {
    assert ("/" + p)[1..] == p;
  }

  /** Trimming is idempotent. */
  lemma TrimSlashesIdempotent(p: string)
    ensures TrimSlashes(TrimSlashes(p)) == TrimSlashes(p)
  {
    var r := TrimSlashes(p);
    assert r[0..|r|] == r;
    TrimSlashesUnique(r, 0, |r|);
  }

  /** The dedup key of a parsed URL: host, a `/`, and the path without edge slashes. */
  function Key(u: Url): string
  {
    u.host + "/" + TrimSlashes(u.path)
  }

  /** `NormalizeURL` (crawler.go:36-43): fails exactly when the parser fails; otherwise the key
      is the host, then `/`, then the path with no leading or trailing slash. */
  function NormalizeURL(parse: Parser, raw: string): (r: Result<string, ParseError>)
    ensures r.Err? <==> parse(raw).None?
    ensures r.Ok? ==>
      var u := parse(raw).value;
      && |u.host| < |r.value|
      && r.value[..|u.host| + 1] == u.host + "/"
      && NoEdgeSlash(r.value[|u.host| + 1..])
      && r.value[|u.host| + 1..] == TrimSlashes(u.path)
  {
    match parse(raw)
    case None => Err(ParseError)
    case Some(u) =>
      var k := Key(u);
      assert k[..|u.host| + 1] == u.host + "/";
      assert k[|u.host| + 1..] == TrimSlashes(u.path);
      Ok(k)
  }

  /** Index of the first `/` in `s`, or `|s|` when there is none. */
  function FirstSlash(s: string): (i: nat)
    ensures i <= |s|
    ensures forall j :: 0 <= j < i ==> s[j] != '/'
    ensures i < |s| ==> s[i] == '/'
  {
    if s == [] || s[0] == '/' then 0 else 1 + FirstSlash(s[1..])
  }

  /** In a key whose host holds no `/`, the first `/` is the one after the host, so the
      host and the trimmed path can be read back from the key. */
  lemma SplitKey(host: string, rest: string)
    requires '/' !in host
    ensures FirstSlash(host + "/" + rest) == |host|
    ensures (host + "/" + rest)[..|host|] == host
    ensures (host + "/" + rest)[|host| + 1..] == rest
  {
    var k := host + "/" + rest;
    assert k[|host|] == '/';
    assert forall j :: 0 <= j < |host| ==> k[j] == host[j];
  }

  /** Two URLs whose hosts hold no `/` share a key exactly when they share the host and the
      trimmed path: scheme, query, fragment and edge slashes are ignored, nothing else is. */
  lemma KeyEqualIff(u: Url, v: Url)
    requires '/' !in u.host && '/' !in v.host
    ensures Key(u) == Key(v) <==> u.host == v.host && TrimSlashes(u.path) == TrimSlashes(v.path)
  {
    var ru, rv := TrimSlashes(u.path), TrimSlashes(v.path);
    SplitKey(u.host, ru);
    SplitKey(v.host, rv);
    if Key(u) == Key(v) {
      var n := FirstSlash(Key(u));
      assert n == |u.host| == |v.host|;
      assert u.host == Key(u)[..n] == v.host;
      assert ru == Key(u)[n + 1..] == rv;
    }
  }

  /** URLs that differ only in scheme and a trailing slash get the same key. */
  lemma KeyIgnoresSchemeAndTrailingSlash(s1: string, s2: string, host: string, path: string)
    ensures Key(Url(s1, host, path)) == Key(Url(s2, host, path + "/"))
  {
    TrimSlashesIgnoresTrailingSlash(path);
  }

  /** The reference after the fill-in: a missing scheme and a missing host are taken from
      the base; the path is kept as written (no merging with the base path, no dot-segment
      removal). */
  function FillFromBase(ref: Url, base: Url): (r: Url)
    ensures r.path == ref.path
    ensures ref.scheme != "" ==> r.scheme == ref.scheme
    ensures ref.scheme == "" ==> r.scheme == base.scheme
    ensures ref.host != "" ==> r.host == ref.host
    ensures ref.host == "" ==> r.host == base.host
  {
    Url(if ref.scheme == "" then base.scheme else ref.scheme,
        if ref.host == "" then base.host else ref.host,
        ref.path)
  }

  /** The string the crawler stores for a reference: `scheme://host` followed by the path. */
  function Render(u: Url): string
  {
    u.scheme + "://" + u.host + u.path
  }

  /** One `href`/`src` value rewritten against the page URL (crawler.go:75-85): nothing when the
      value does not parse, otherwise the filled-in URL rendered without query or fragment. */
  function RewriteRef(parse: Parser, raw: string, base: Url): (r: Option<string>)
    ensures r.None? <==> parse(raw).None?
    ensures r.Some? ==> r.value == Render(FillFromBase(parse(raw).value, base))
  {
    match parse(raw)
    case None => None
    case Some(u) => Some(Render(FillFromBase(u, base)))
  }

  /** Filling in twice is filling in once. */
  lemma FillFromBaseIdempotent(ref: Url, base: Url)
    ensures FillFromBase(FillFromBase(ref, base), base) == FillFromBase(ref, base)
  {
  }

  /** A reference that carries its own scheme and host is rewritten the same on every page. */
  lemma AbsoluteRefIgnoresBase(parse: Parser, raw: string, b1: Url, b2: Url)
    requires parse(raw).Some? && parse(raw).value.scheme != "" && parse(raw).value.host != ""
    ensures RewriteRef(parse, raw, b1) == RewriteRef(parse, raw, b2)
  {
  }

  /** A scheme-less, host-less reference lands on the base's scheme and host, followed by its
      own path verbatim: a path without a leading `/` is glued to the host. */
  lemma RelativeRefUsesBase(parse: Parser, raw: string, base: Url)
    requires parse(raw).Some? && parse(raw).value.scheme == "" && parse(raw).value.host == ""
    ensures RewriteRef(parse, raw, base) == Some(base.scheme + "://" + base.host + parse(raw).value.path)
  {
  }
}
