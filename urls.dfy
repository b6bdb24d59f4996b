/** A simplified form of Python's `urllib.parse.urlparse`, keeping what the service reads:
    the network location (`netloc`, the authority of section 3.2 of RFC 3986) and the path.

    The scheme is recognised as Python does it: the text before the first ':' when it starts
    with an ASCII letter and consists of letters, digits, '+', '-' and '.'. After the scheme,
    a leading "//" opens the netloc, which runs up to the next '/', '?' or '#'; without "//"
    the netloc is empty. The path runs from there up to the next '?' or '#'. */
module Urls {
  import Text

  predicate IsAsciiLetter(c: char)
  {
    'a' <= c <= 'z' || 'A' <= c <= 'Z'
  }

  /** Python's `scheme_chars`. */
  predicate IsSchemeChar(c: char)
  {
    IsAsciiLetter(c) || '0' <= c <= '9' || c == '+' || c == '-' || c == '.'
  }

  const NetlocStops: set<char> := {'/', '?', '#'}
  const PathStops: set<char> := {'?', '#'}

  /** The first position at or after `from` that holds a character of `stops`, or `|s|`. */
  function FirstIndexFrom(s: string, from: nat, stops: set<char>): (n: nat)
    requires from <= |s|
    ensures from <= n <= |s|
    ensures forall j :: from <= j < n ==> s[j] !in stops
    ensures n < |s| ==> s[n] in stops
    decreases |s| - from
  {
    if from == |s| || s[from] in stops then from else FirstIndexFrom(s, from + 1, stops)
  }

  /** `FirstIndexFrom` is the one position before which no stop occurs and at which one does. */
  lemma FirstIndexFromAt(s: string, from: nat, stops: set<char>, m: nat)
    requires from <= m <= |s|
    requires forall j :: from <= j < m ==> s[j] !in stops
    requires m < |s| ==> s[m] in stops
    ensures FirstIndexFrom(s, from, stops) == m
  {
  }

  /** The first `n` characters of `s` may all appear in a scheme name. */
  predicate SchemeCharsUpTo(s: string, n: nat)
    requires n <= |s|
  {
    n == 0 || (IsSchemeChar(s[n - 1]) && SchemeCharsUpTo(s, n - 1))
  }

  /** Length of the "scheme:" prefix that `urlparse` removes, 0 when it finds no scheme. */
  function SchemeLength(url: string): (n: nat)
    ensures n <= |url|
    ensures n > 0 ==> url[n - 1] == ':' && IsAsciiLetter(url[0])
  {
    var i := FirstIndexFrom(url, 0, {':'});
    if 0 < i < |url| && IsAsciiLetter(url[0]) && SchemeCharsUpTo(url, i) then i + 1 else 0
  }

  /** "//" follows the scheme, so the URL has a netloc part (possibly empty). */
  predicate HasAuthority(url: string)
  {
    var s := SchemeLength(url);
    s + 2 <= |url| && url[s] == '/' && url[s + 1] == '/'
  }

  /** Where the netloc starts: after the scheme and the "//" when there is one. */
  function NetlocStart(url: string): (i: nat)
    ensures i <= |url|
  {
    if HasAuthority(url) then SchemeLength(url) + 2 else SchemeLength(url)
  }

  /** Where the netloc ends: at the next '/', '?' or '#'; it is empty without "//". */
  function NetlocEnd(url: string): (j: nat)
    ensures NetlocStart(url) <= j <= |url|
  {
    if HasAuthority(url) then FirstIndexFrom(url, NetlocStart(url), NetlocStops) else NetlocStart(url)
  }

  /** Where the path ends: at the next '?' or '#'. */
  function PathEnd(url: string): (q: nat)
    ensures NetlocEnd(url) <= q <= |url|
  {
    FirstIndexFrom(url, NetlocEnd(url), PathStops)
  }

  /** `urlparse(url).netloc`. */
  function Netloc(url: string): (netloc: string)
    ensures |netloc| <= |url|
    ensures forall k :: 0 <= k < |netloc| ==> netloc[k] !in NetlocStops
  {
    url[NetlocStart(url)..NetlocEnd(url)]
  }

  /** `urlparse(url).path`. */
  function Path(url: string): (path: string)
    ensures |path| <= |url|
    ensures forall k :: 0 <= k < |path| ==> path[k] !in PathStops
  {
    url[NetlocEnd(url)..PathEnd(url)]
  }

  /** Nothing is lost in the split: the text before the netloc, the netloc, the path and
      the query-and-fragment tail put back together give the URL. */
  lemma SplitReassembles(url: string)
    ensures url == url[..NetlocStart(url)] + Netloc(url) + Path(url) + url[PathEnd(url)..]
  {
    var i, j, q := NetlocStart(url), NetlocEnd(url), PathEnd(url);
    assert url == url[..i] + url[i..j] + url[j..q] + url[q..];
  }

  /** The netloc holds no '/', '?' or '#' and is ended by one of them or by the end of the
      URL; it is non-empty only right after "//". The path holds no '?' or '#', and what
      follows it is empty or starts with '?' or '#'. */
  lemma SplitBoundaries(url: string)
    ensures forall k :: 0 <= k < |Netloc(url)| ==> Netloc(url)[k] !in NetlocStops
    ensures HasAuthority(url) && NetlocEnd(url) < |url| ==> url[NetlocEnd(url)] in NetlocStops
    ensures Netloc(url) != "" ==> HasAuthority(url) && url[NetlocStart(url) - 2..NetlocStart(url)] == "//"
    ensures forall k :: 0 <= k < |Path(url)| ==> Path(url)[k] !in PathStops
    ensures PathEnd(url) < |url| ==> url[PathEnd(url)] in PathStops
  {
    var i, j, q := NetlocStart(url), NetlocEnd(url), PathEnd(url);
    assert forall k :: 0 <= k < j - i ==> Netloc(url)[k] == url[i + k];
    assert forall k :: 0 <= k < q - j ==> Path(url)[k] == url[j + k];
  }

  /** The netloc and the path are disjoint pieces of the URL, together no longer than it. */
  lemma NetlocPathWithinUrl(url: string)
    ensures |Netloc(url)| + |Path(url)| <= |url|
  {
  }

  /** Every character of the netloc is a character of the URL, counted with multiplicity. */
  lemma NetlocCharsFromUrl(url: string)
    ensures multiset(Netloc(url)) <= multiset(url)
  {
    var i, j := NetlocStart(url), NetlocEnd(url);
    assert url == url[..i] + url[i..j] + url[j..];
    assert multiset(url) == multiset(url[..i]) + multiset(url[i..j]) + multiset(url[j..]);
  }

  /** The netloc never has more of any character than the URL. */
  lemma NetlocCountBound(url: string, c: char)
    ensures Text.Count(Netloc(url), c) <= Text.Count(url, c)
  {
    NetlocCharsFromUrl(url);
    Text.CountIsMultiplicity(Netloc(url), c);
    Text.CountIsMultiplicity(url, c);
  }

  lemma {:induction false} LettersAreSchemeChars(s: string, n: nat)
    requires n <= |s| && forall k :: 0 <= k < n ==> IsAsciiLetter(s[k])
    ensures SchemeCharsUpTo(s, n)
  {
    if n > 0 {
      LettersAreSchemeChars(s, n - 1);
    }
  }

  /** The netloc of "scheme://host/..." is the host, for a scheme of ASCII letters. */
  lemma NetlocOfAuthority(scheme: string, host: string, rest: string)
    requires scheme != [] && forall k :: 0 <= k < |scheme| ==> IsAsciiLetter(scheme[k])
    requires forall k :: 0 <= k < |host| ==> host[k] !in NetlocStops
    requires rest == [] || rest[0] in NetlocStops
    ensures NetlocEnd(scheme + "://" + host + rest) == |scheme| + 3 + |host|
    ensures Netloc(scheme + "://" + host + rest) == host
  {
    var url := scheme + "://" + host + rest;
    var n := |scheme|;
    assert url[n] == ':' && url[n + 1] == '/' && url[n + 2] == '/';
    assert forall k :: 0 <= k < n ==> url[k] == scheme[k];
    FirstIndexFromAt(url, 0, {':'}, n);
    LettersAreSchemeChars(url, n);
    assert SchemeLength(url) == n + 1;
    assert forall k :: 0 <= k < |host| ==> url[n + 3 + k] == host[k];
    assert n + 3 + |host| < |url| ==> url[n + 3 + |host|] == rest[0];
    FirstIndexFromAt(url, n + 3, NetlocStops, n + 3 + |host|);
    assert url[n + 3..n + 3 + |host|] == host;
  }

  /** Without a scheme and without a leading "//" there is no netloc: "bit.ly/x" has none. */
  lemma NoNetlocWithoutAuthority(url: string)
    requires ':' !in url
    requires !(|url| >= 2 && url[0] == '/' && url[1] == '/')
    ensures Netloc(url) == ""
  {
    assert SchemeLength(url) == 0;
  }

  /** The path of "scheme://host/path" is "/path" when it holds no '?' or '#'. */
  lemma PathOfAuthority(scheme: string, host: string, path: string)
    requires scheme != [] && forall k :: 0 <= k < |scheme| ==> IsAsciiLetter(scheme[k])
    requires forall k :: 0 <= k < |host| ==> host[k] !in NetlocStops
    requires path == [] || path[0] == '/'
    requires forall k :: 0 <= k < |path| ==> path[k] !in PathStops
    ensures Path(scheme + "://" + host + path) == path
  {
    var url := scheme + "://" + host + path;
    NetlocOfAuthority(scheme, host, path);
    var e := |scheme| + 3 + |host|;
    assert forall k :: 0 <= k < |path| ==> url[e + k] == path[k];
    FirstIndexFromAt(url, e, PathStops, |url|);
    assert url[e..] == path;
  }

  /** A scheme prefix is made of scheme characters only. */
  lemma {:induction false} SchemeCharsAt(s: string, n: nat, k: nat)
    requires n <= |s| && SchemeCharsUpTo(s, n) && k < n
    ensures IsSchemeChar(s[k])
  {
    if k < n - 1 {
      SchemeCharsAt(s, n - 1, k);
    }
  }

  /** Whether a prefix is made of scheme characters depends on that prefix alone. */
  lemma {:induction false} SchemeCharsSamePrefix(s: string, t: string, n: nat)
    requires n <= |s| && n <= |t| && s[..n] == t[..n]
    ensures SchemeCharsUpTo(s, n) == SchemeCharsUpTo(t, n)
  {
    if n > 0 {
      assert s[n - 1] == s[..n][n - 1] == t[..n][n - 1] == t[n - 1];
      assert s[..n - 1] == s[..n][..n - 1];
      assert t[..n - 1] == t[..n][..n - 1];
      SchemeCharsSamePrefix(s, t, n - 1);
    }
  }

  /** The scheme of a URL without '?' or '#' survives appending a query or fragment. */
  lemma SchemeIgnoresQuery(url: string, tail: string)
    requires '?' !in url && '#' !in url
    requires tail != [] && tail[0] in PathStops
    ensures SchemeLength(url + tail) == SchemeLength(url)
  {
    var u := url + tail;
    assert forall k :: 0 <= k < |url| ==> u[k] == url[k];
    assert u[..|url|] == url;
    var i := FirstIndexFrom(url, 0, {':'});
    if i < |url| {
      FirstIndexFromAt(u, 0, {':'}, i);
      assert u[..i] == url[..i];
      SchemeCharsSamePrefix(u, url, i);
    } else {
      var i' := FirstIndexFrom(u, 0, {':'});
      if 0 < i' < |u| && SchemeCharsUpTo(u, i') {
        SchemeCharsAt(u, i', |url|);
      }
    }
  }

  /** Where the netloc starts and ends survives appending a query or fragment. */
  lemma NetlocBoundsIgnoreQuery(url: string, tail: string)
    requires '?' !in url && '#' !in url
    requires tail != [] && tail[0] in PathStops
    ensures NetlocStart(url + tail) == NetlocStart(url)
    ensures NetlocEnd(url + tail) == NetlocEnd(url)
  {
    var u := url + tail;
    assert forall k :: 0 <= k < |url| ==> u[k] == url[k];
    assert u[|url|] == tail[0];
    SchemeIgnoresQuery(url, tail);
    assert HasAuthority(u) == HasAuthority(url);
    if HasAuthority(url) {
      FirstIndexFromAt(u, NetlocStart(url), NetlocStops, NetlocEnd(url));
    }
  }

  /** Appending a query or fragment to a URL that has none changes neither its netloc nor
      its path. */
  lemma QueryIgnored(url: string, tail: string)
    requires '?' !in url && '#' !in url
    requires tail != [] && tail[0] in PathStops
    ensures Netloc(url + tail) == Netloc(url)
    ensures Path(url + tail) == Path(url)
  {
    var u := url + tail;
    NetlocBoundsIgnoreQuery(url, tail);
    var i, j := NetlocStart(url), NetlocEnd(url);
    assert forall k :: 0 <= k < |url| ==> u[k] == url[k];
    assert u[|url|] == tail[0];
    FirstIndexFromAt(url, j, PathStops, |url|);
    FirstIndexFromAt(u, j, PathStops, |url|);
    assert u[i..j] == url[i..j];
    assert u[j..|url|] == url[j..|url|];
  }
}
