/** A reduced model of Go's `url.Parse`, for ASCII input: fragment and query are cut off, the
    scheme is found and lower-cased as `getScheme` does, an authority after `//` gives the host
    (user information dropped), and the rest is the path. It rejects what `url.Parse` rejects
    for these reasons: a control character, a `:` at position 0 (missing scheme), and a colon in
    the first segment of a scheme-less relative reference. Percent-escapes are kept verbatim and
    the host and port are not validated. The crawl model holds for every parser; this one only
    serves to state the behaviour on concrete strings. */
module UrlSyntax {
  import opened Wrappers
  import opened Urls

  predicate IsControl(c: char)
  {
    c < ' ' || c == '\U{7F}'
  }

  predicate IsLetter(c: char)
  {
    ('a' <= c <= 'z') || ('A' <= c <= 'Z')
  }

  /** Characters allowed in a scheme after its first letter, besides letters. */
  predicate IsSchemeTail(c: char)
  {
    ('0' <= c <= '9') || c == '+' || c == '-' || c == '.'
  }

  function HasControl(s: string): (b: bool)
    ensures b <==> exists i :: 0 <= i < |s| && IsControl(s[i])
  {
    if s == [] then false else IsControl(s[0]) || HasControl(s[1..])
  }

  /** Position of the first `c` in `s`, or `|s|` when there is none. */
  function IndexOf(s: string, c: char): (i: nat)
    ensures i <= |s|
    ensures forall j :: 0 <= j < i ==> s[j] != c
    ensures i < |s| ==> s[i] == c
  {
    if s == [] || s[0] == c then 0 else 1 + IndexOf(s[1..], c)
  }

  /** Everything after the last `@`, or all of `s` when there is none. */
  function AfterLastAt(s: string): (r: string)
    ensures '@' !in s ==> r == s
  {
    if s == [] then s
    else if s[|s| - 1] == '@' then s[|s|..]
    else
      var r := AfterLastAt(s[..|s| - 1]);
      if '@' in s[..|s| - 1] then r + [s[|s| - 1]] else s
  }

  function LowerChar(c: char): char
  {
    if 'A' <= c <= 'Z' then (c as int + 32) as char else c
  }

  function Lower(s: string): (r: string)
    ensures |r| == |s|
    ensures forall i :: 0 <= i < |s| ==> r[i] == LowerChar(s[i])
  {
    if s == [] then [] else [LowerChar(s[0])] + Lower(s[1..])
  }

  /** What `getScheme` finds. */
  datatype SchemeSplit = NoScheme | HasScheme(name: string, rest: string) | MissingScheme

  /** `getScheme` from position `i`, all of `s[..i]` being letters (digits, `+`, `-`, `.` are
      allowed after the first character). */
  function ScanScheme(s: string, i: nat): SchemeSplit
    requires i <= |s|
    decreases |s| - i
  {
    if i == |s| then NoScheme
    else
      var c := s[i];
      if IsLetter(c) || (IsSchemeTail(c) && i > 0) then ScanScheme(s, i + 1)
      else if c == ':' then (if i == 0 then MissingScheme else HasScheme(s[..i], s[i + 1..]))
      else NoScheme
  }

  /** Everything after the scheme: query cut off, then an authority or a path. A `//` opens an
      authority after a scheme always (so `http:///x` has an empty host and the path `/x`), and
      in a scheme-less reference only when it is not `///`. */
  function ParseRest(scheme: string, afterScheme: string): Option<Url>
  {
    var rest := afterScheme[..IndexOf(afterScheme, '?')];
    if (rest == [] || rest[0] != '/') && scheme != "" then
      Some(Url(scheme, "", ""))  // opaque, as in `mailto:x`
    else if (rest == [] || rest[0] != '/') && ':' in rest[..IndexOf(rest, '/')] then
      None  // first path segment in URL cannot contain colon
    else if |rest| >= 2 && rest[..2] == "//" && (scheme != "" || !(|rest| >= 3 && rest[2] == '/')) then
      var auth := rest[2..];
      var i := IndexOf(auth, '/');
      Some(Url(scheme, AfterLastAt(auth[..i]), auth[i..]))
    else
      Some(Url(scheme, "", rest))
  }

  /** The reduced `url.Parse`. */
  function Parse(raw: string): Option<Url>
  {
    var s := raw[..IndexOf(raw, '#')];
    if HasControl(s) then None
    else
      match ScanScheme(s, 0)
      case MissingScheme => None
      case NoScheme => ParseRest("", s)
      case HasScheme(name, rest) => ParseRest(Lower(name), rest)
  }

  /** No character of `s` is a control character or one of `cs`. */
  predicate Avoids(s: string, cs: set<char>)
  {
    forall i :: 0 <= i < |s| ==> s[i] !in cs && !IsControl(s[i])
  }

  /** A scheme `getScheme` accepts: a letter, then letters, digits, `+`, `-` or `.`. */
  predicate ValidScheme(s: string)
  {
    && |s| > 0
    && IsLetter(s[0])
    && forall i :: 0 < i < |s| ==> IsLetter(s[i]) || IsSchemeTail(s[i])
  }

  /** What may follow the path: nothing, a fragment, or a query free of control characters. */
  predicate ValidTail(t: string)
  {
    t == [] || t[0] == '#' || (t[0] == '?' && Avoids(t[..IndexOf(t, '#')], {}))
  }

  lemma IndexOfAfter(a: string, b: string, c: char)
    requires c !in a
    ensures IndexOf(a + b, c) == |a| + IndexOf(b, c)
  {
    assert forall k :: 0 <= k < |a| ==> (a + b)[k] == a[k];
    assert forall k :: 0 <= k < |b| ==> (a + b)[|a| + k] == b[k];
  }

  lemma {:induction false} ScanSchemeFinds(s: string, n: nat, i: nat)
    requires i <= n < |s| && s[n] == ':'
    requires ValidScheme(s[..n])
    ensures ScanScheme(s, i) == HasScheme(s[..n], s[n + 1..])
    decreases n - i
  {
    if i < n {
      assert s[..n][i] == s[i];
      ScanSchemeFinds(s, n, i + 1);
    }
  }

  /** The scan stops with no scheme at a character that is neither a scheme character nor `:`,
      when no `:` comes before it. */
  lemma {:induction false} ScanSchemeAbsent(s: string, n: nat, i: nat)
    requires i <= n <= |s|
    requires forall k :: i <= k < n ==> s[k] != ':'
    requires n < |s| ==> !IsLetter(s[n]) && !IsSchemeTail(s[n]) && s[n] != ':'
    ensures ScanScheme(s, i) == NoScheme
    decreases |s| - i
  {
    if i < n {
      ScanSchemeAbsent(s, n, i + 1);
    }
  }

  /** Cutting at the first `#` keeps a fragment-free prefix and the query part of the tail. */
  lemma CutFragment(body: string, tail: string)
    requires '#' !in body
    ensures (body + tail)[..IndexOf(body + tail, '#')] == body + tail[..IndexOf(tail, '#')]
  {
    IndexOfAfter(body, tail, '#');
  }

  /** The query part of a valid tail: empty, or a `?` and control-free text. */
  lemma QueryPart(tail: string)
    requires ValidTail(tail)
    ensures var q := tail[..IndexOf(tail, '#')];
      (q == [] || q[0] == '?') && Avoids(q, {})
  {
  }

  /** After the scheme, `//host` with a rooted path (and a query) yields that host and path;
      the host may be empty, as in `file:///etc`. */
  lemma ParseRestAuthority(scheme: string, host: string, path: string, q: string)
    requires scheme != ""
    requires Avoids(host, {'/', '?', '#', '@'})
    requires (path == "" || path[0] == '/') && Avoids(path, {'?', '#'})
    requires q == [] || q[0] == '?'
    ensures ParseRest(scheme, "//" + host + path + q) == Some(Url(scheme, host, path))
  {
    var rest := "//" + host + path;
    assert '?' !in rest by {
      assert forall k :: 0 <= k < |rest| ==> rest[k] != '?';
    }
    IndexOfAfter(rest, q, '?');
    assert (rest + q)[..IndexOf(rest + q, '?')] == rest;
    assert rest[..2] == "//";
    var auth := host + path;
    assert rest[2..] == auth;
    assert '/' !in host by {
      assert forall k :: 0 <= k < |host| ==> host[k] != '/';
    }
    IndexOfAfter(host, path, '/');
    assert auth[..|host|] == host && auth[|host|..] == path;
    assert '@' !in host by {
      assert forall k :: 0 <= k < |host| ==> host[k] != '@';
    }
  }

  lemma AvoidsConcat(a: string, b: string, cs: set<char>)
    requires Avoids(a, cs) && Avoids(b, cs)
    ensures Avoids(a + b, cs)
  {
    assert forall k :: 0 <= k < |a + b| ==> (a + b)[k] == if k < |a| then a[k] else b[k - |a|];
  }

  lemma AvoidsNotIn(s: string, cs: set<char>, c: char)
    requires Avoids(s, cs) && c in cs
    ensures c !in s
  {
    assert forall k :: 0 <= k < |s| ==> s[k] != c;
  }

  lemma NoControl(s: string, cs: set<char>)
    requires Avoids(s, cs)
    ensures !HasControl(s)
  {
  }

  /** `Parse` once the fragment is cut off and the scheme scan has been decided. */
  lemma ParseSteps(raw: string, s: string)
    requires s == raw[..IndexOf(raw, '#')] && !HasControl(s)
    ensures ScanScheme(s, 0).NoScheme? ==> Parse(raw) == ParseRest("", s)
    ensures ScanScheme(s, 0).HasScheme? ==>
      Parse(raw) == ParseRest(Lower(ScanScheme(s, 0).name), ScanScheme(s, 0).rest)
  {
  }

  /** The part of an absolute URL before its tail holds no `#` and no control character. */
  lemma AbsoluteBody(scheme: string, host: string, path: string)
    requires ValidScheme(scheme)
    requires Avoids(host, {'/', '?', '#', '@'}) && Avoids(path, {'?', '#'})
    ensures Avoids(scheme + "://" + host + path, {'#'})
  {
    var sep := "://";
    assert Avoids(scheme, {'#'}) && Avoids(sep, {'#'});
    AvoidsConcat(scheme, sep, {'#'});
    AvoidsConcat(scheme + sep, host, {'#'});
    AvoidsConcat(scheme + sep + host, path, {'#'});
  }

  /** A valid scheme followed by `:` is found by the scan. */
  lemma SchemeFound(scheme: string, rest: string)
    requires ValidScheme(scheme)
    ensures ScanScheme(scheme + ":" + rest, 0) == HasScheme(scheme, rest)
  {
    var s := scheme + ":" + rest;
    var n := |scheme|;
    assert s[..n] == scheme && s[n] == ':' && s[n + 1..] == rest;
    ScanSchemeFinds(s, n, 0);
  }

  /** `scheme://host` followed by a path and an optional query or fragment parses to exactly
      its lower-cased scheme, its host and its path; with an empty host, `scheme:///path` gives
      the path `/path`. */
  lemma ParseAbsolute(raw: string, scheme: string, host: string, path: string, tail: string)
    requires raw == scheme + "://" + host + path + tail
    requires ValidScheme(scheme)
    requires Avoids(host, {'/', '?', '#', '@'})
    requires (path == "" || path[0] == '/') && Avoids(path, {'?', '#'})
    requires ValidTail(tail)
    ensures Parse(raw) == Some(Url(Lower(scheme), host, path))
  {
    var body := scheme + "://" + host + path;
    AbsoluteBody(scheme, host, path);
    AvoidsNotIn(body, {'#'}, '#');
    CutFragment(body, tail);
    QueryPart(tail);
    var q := tail[..IndexOf(tail, '#')];
    var s := body + q;
    AvoidsConcat(body, q, {});
    NoControl(s, {});
    var rest := "//" + host + path + q;
    assert s == scheme + ":" + rest;
    SchemeFound(scheme, rest);
    ParseSteps(raw, s);
    ParseRestAuthority(Lower(scheme), host, path, q);
  }

  /** A relative reference with neither scheme nor host (no `:` in it, not starting with `//`)
      parses to its path alone. */
  lemma ParseRelative(raw: string, path: string, tail: string)
    requires raw == path + tail
    requires !(|path| >= 2 && path[0] == '/' && path[1] == '/')
    requires Avoids(path, {'?', '#', ':'})
    requires ValidTail(tail)
    ensures Parse(raw) == Some(Url("", "", path))
  {
    AvoidsNotIn(path, {'?', '#', ':'}, '#');
    CutFragment(path, tail);
    QueryPart(tail);
    var q := tail[..IndexOf(tail, '#')];
    var s := path + q;
    AvoidsConcat(path, q, {});
    NoControl(s, {});
    assert forall k :: 0 <= k < |path| ==> s[k] == path[k];
    ScanSchemeAbsent(s, |path|, 0);
    ParseSteps(path + tail, s);
    ParseRestRelative(path, q);
  }

  /** With no scheme, a path free of `?`, `#` and `:` that does not start with `//` (and a
      query) yields that path and no host. */
  lemma ParseRestRelative(path: string, q: string)
    requires !(|path| >= 2 && path[0] == '/' && path[1] == '/')
    requires Avoids(path, {'?', '#', ':'})
    requires q == [] || q[0] == '?'
    ensures ParseRest("", path + q) == Some(Url("", "", path))
  {
    AvoidsNotIn(path, {'?', '#', ':'}, '?');
    IndexOfAfter(path, q, '?');
    assert (path + q)[..IndexOf(path + q, '?')] == path;
    var seg := path[..IndexOf(path, '/')];
    assert ':' !in seg by {
      assert forall k :: 0 <= k < |seg| ==> seg[k] == path[k] != ':';
    }
  }

  /** A rendered URL with a valid lower-case scheme, a host and a rooted path parses back to
      itself: `Render` and `Parse` round-trip. */
  lemma RenderParses(u: Url)
    requires ValidScheme(u.scheme) && Lower(u.scheme) == u.scheme
    requires u.host != "" && Avoids(u.host, {'/', '?', '#', '@'})
    requires (u.path == "" || u.path[0] == '/') && Avoids(u.path, {'?', '#'})
    ensures Parse(Render(u)) == Some(u)
  {
    ParseAbsolute(Render(u), u.scheme, u.host, u.path, "");
  }

  /** `scheme:///path` has an empty host and keeps one leading `/` in its path. */
  lemma ParseEmptyAuthority(raw: string, scheme: string, path: string)
    requires raw == scheme + ":///" + path
    requires ValidScheme(scheme) && Avoids(path, {'?', '#'})
    ensures Parse(raw) == Some(Url(Lower(scheme), "", "/" + path))
  {
    assert Avoids("/" + path, {'?', '#'}) by {
      assert forall k :: 0 < k < |"/" + path| ==> ("/" + path)[k] == path[k - 1];
    }
    assert raw == scheme + "://" + "" + ("/" + path) + "";
    ParseAbsolute(raw, scheme, "", "/" + path, "");
  }
}
