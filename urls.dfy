/**
 * The part of the WHATWG `URL` object that `updateLocalID` relies on: parsing an
 * absolute URL, replacing its path through the `pathname` setter, and
 * serialising it back with `toString()` (the `href`).
 *
 * Only the shape `scheme://host path [?query] [#fragment]` is modelled; a string
 * of another shape is a parse failure (the constructor throws a TypeError).
 */
module Urls {
  import opened Common

  /** A parsed absolute URL. `host` is the whole authority (user info and port included). */
  datatype Url = Url(scheme: string, host: string, path: string, query: Option<string>, fragment: Option<string>)

  /** No character of `s` is in `cs`. */
  predicate Avoids(s: string, cs: set<char>)
  {
    forall k :: 0 <= k < |s| ==> s[k] !in cs
  }

  /** The components of `u` are those a parse can produce, so that `Href(u)` parses back to `u`. */
  predicate WellFormed(u: Url)
  {
    && |u.scheme| > 0 && Avoids(u.scheme, {':', '/', '?', '#'})
    && Avoids(u.host, {'/', '?', '#'})
    && |u.path| > 0 && u.path[0] == '/' && Avoids(u.path, {'?', '#'})
    && (u.query.Some? ==> Avoids(u.query.value, {'#'}))
  }

  /** Index of the first character of `s` that is in `stops`, or `|s|` when there is none. */
  function Scan(s: string, stops: set<char>): (i: nat)
    ensures i <= |s|
    ensures Avoids(s[..i], stops)
    ensures i < |s| ==> s[i] in stops
  {
    if s == [] then 0
    else if s[0] in stops then 0
    else
      var j := Scan(s[1..], stops);
      assert s[..1 + j] == [s[0]] + s[1..][..j];
      1 + j
  }

  /** The serialisation of a URL (`url.toString()`). */
  function Href(u: Url): (r: string)
    ensures |r| == |u.scheme| + 3 + |u.host| + |u.path|
                   + (if u.query.Some? then 1 + |u.query.value| else 0)
                   + (if u.fragment.Some? then 1 + |u.fragment.value| else 0)
    ensures r[..|u.scheme|] == u.scheme && r[|u.scheme|..|u.scheme| + 3] == "://"
  {
    u.scheme + "://" + u.host + u.path
      + (match u.query case Some(q) => "?" + q case None => "")
      + (match u.fragment case Some(f) => "#" + f case None => "")
  }

  /** Splits what follows the path into query and fragment. */
  function SplitTail(s: string): (r: (Option<string>, Option<string>))
    requires s == [] || s[0] in {'?', '#'}
  {
    var q := Scan(s, {'#'});
    var query := if s != [] && s[0] == '?' then Some(s[1..q]) else None;
    var fragment := if q < |s| then Some(s[q + 1..]) else None;
    (query, fragment)
  }

  /** `new URL(s)`: `None` when the constructor would throw. */
  function Parse(s: string): (r: Option<Url>)
    ensures r.Some? ==> WellFormed(r.value)
  {
    var i := Scan(s, {':', '/', '?', '#'});
    if i == 0 || |s| < i + 3 || s[i..i + 3] != "://" then None
    else Some(ParseAuthority(s[..i], s[i + 3..]))
  }

  /** What follows `scheme://`: the host up to the first `/`, `?` or `#`, then the path. */
  function ParseAuthority(scheme: string, rest: string): (u: Url)
    requires |scheme| > 0 && Avoids(scheme, {':', '/', '?', '#'})
    ensures WellFormed(u)
  {
    var h := Scan(rest, {'/', '?', '#'});
    ParsePath(scheme, rest[..h], rest[h..])
  }

  /** The path runs up to the first `?` or `#`; an empty path reads as `/`. */
  function ParsePath(scheme: string, host: string, afterHost: string): (u: Url)
    requires |scheme| > 0 && Avoids(scheme, {':', '/', '?', '#'}) && Avoids(host, {'/', '?', '#'})
    requires afterHost == [] || afterHost[0] in {'/', '?', '#'}
    ensures WellFormed(u)
  {
    var p := Scan(afterHost, {'?', '#'});
    var path := if p == 0 then "/" else afterHost[..p];
    var tail := SplitTail(afterHost[p..]);
    Url(scheme, host, path, tail.0, tail.1)
  }

  /** The `pathname` setter: the characters `?` and `#` cannot end a path and are percent-encoded. */
  function EncodePath(p: string): (r: string)
    ensures Avoids(r, {'?', '#'})
    ensures Avoids(p, {'?', '#'}) ==> r == p
    ensures p != [] && p[0] == '/' ==> r != [] && r[0] == '/'
  {
    if p == [] then []
    else
      var head := if p[0] == '?' then "%3F" else if p[0] == '#' then "%23" else [p[0]];
      var r := head + EncodePath(p[1..]);
      assert forall k :: 0 <= k < |r| ==> r[k] == if k < |head| then head[k] else EncodePath(p[1..])[k - |head|];
      r
  }

  /** `url.pathname = p` followed by `url.toString()`, for a path that starts with `/`. */
  function WithPath(u: Url, p: string): (r: Url)
    ensures r.scheme == u.scheme && r.host == u.host && r.query == u.query && r.fragment == u.fragment
    ensures Avoids(p, {'?', '#'}) ==> r.path == p
    ensures WellFormed(u) && p != [] && p[0] == '/' ==> WellFormed(r)
  {
    u.(path := EncodePath(p))
  }

  lemma {:induction false} ScanAppend(a: string, b: string, stops: set<char>)
    requires Avoids(a, stops)
    ensures Scan(a + b, stops) == |a| + Scan(b, stops)
  {
    if a != [] {
      assert (a + b)[1..] == a[1..] + b;
      ScanAppend(a[1..], b, stops);
    } else {
      assert a + b == b;
    }
  }

  lemma ScanStop(s: string, stops: set<char>)
    requires s != [] && s[0] in stops
    ensures Scan(s, stops) == 0
  {
  }

  lemma ParseTail(qs: string, fs: string, query: Option<string>, fragment: Option<string>)
    requires qs == (match query case Some(q) => "?" + q case None => "")
    requires fs == (match fragment case Some(f) => "#" + f case None => "")
    requires query.Some? ==> Avoids(query.value, {'#'})
    ensures SplitTail(qs + fs) == (query, fragment)
  {
    var tail := qs + fs;
    match query {
      case Some(q) =>
        assert tail == "?" + q + fs;
        assert tail[1..] == q + fs;
        ScanAppend("?" + q, fs, {'#'});
        if fs != [] { ScanStop(fs, {'#'}); }
        assert tail[1..1 + |q|] == q;
        assert fragment.Some? ==> tail[1 + |q| + 1..] == fragment.value;
      case None =>
        assert tail == fs;
        if fs != [] { ScanStop(fs, {'#'}); }
        assert fragment.Some? ==> tail[1..] == fragment.value;
    }
  }

  lemma ParsePathOf(u: Url, tail: string)
    requires WellFormed(u)
    requires tail == (match u.query case Some(q) => "?" + q case None => "")
                   + (match u.fragment case Some(f) => "#" + f case None => "")
    ensures ParsePath(u.scheme, u.host, u.path + tail) == u
  {
    var afterHost := u.path + tail;
    ScanAppend(u.path, tail, {'?', '#'});
    if tail != [] {
      ScanStop(tail, {'?', '#'});
    }
    assert afterHost[..|u.path|] == u.path;
    assert afterHost[|u.path|..] == tail;
    ParseTail(match u.query case Some(q) => "?" + q case None => "",
              match u.fragment case Some(f) => "#" + f case None => "",
              u.query, u.fragment);
  }

  lemma ParseAuthorityOf(u: Url, tail: string)
    requires WellFormed(u)
    requires tail == (match u.query case Some(q) => "?" + q case None => "")
                   + (match u.fragment case Some(f) => "#" + f case None => "")
    ensures ParseAuthority(u.scheme, u.host + (u.path + tail)) == u
  {
    var afterHost := u.path + tail;
    var rest := u.host + afterHost;
    ScanAppend(u.host, afterHost, {'/', '?', '#'});
    ScanStop(afterHost, {'/', '?', '#'});
    assert rest[..|u.host|] == u.host;
    assert rest[|u.host|..] == afterHost;
    ParsePathOf(u, tail);
  }

  /** A string `scheme://rest` parses as the authority and path of `rest`. */
  lemma ParseScheme(scheme: string, rest: string)
    requires |scheme| > 0 && Avoids(scheme, {':', '/', '?', '#'})
    ensures Parse(scheme + ("://" + rest)) == Some(ParseAuthority(scheme, rest))
  {
    var s := scheme + ("://" + rest);
    ScanAppend(scheme, "://" + rest, {':', '/', '?', '#'});
    ScanStop("://" + rest, {':', '/', '?', '#'});
    var i := |scheme|;
    assert Scan(s, {':', '/', '?', '#'}) == i;
    assert s[..i] == scheme;
    assert s[i..i + 3] == "://";
    assert s[i + 3..] == rest;
  }

  /** Serialising a well-formed URL and parsing the result gives the URL back. */
  lemma {:induction false} ParseHref(u: Url)
    requires WellFormed(u)
    ensures Parse(Href(u)) == Some(u)
  {
    var tail := (match u.query case Some(q) => "?" + q case None => "")
              + (match u.fragment case Some(f) => "#" + f case None => "");
    var rest := u.host + (u.path + tail);
    assert Href(u) == u.scheme + ("://" + rest);
    ParseScheme(u.scheme, rest);
    ParseAuthorityOf(u, tail);
  }
}
