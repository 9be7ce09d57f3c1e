/** URL canonicalisation and the host / domain scope predicates, over the
    components that `urllib.parse.urlsplit` (or `urlparse`) returns. `None`
    stands for a URL on which the parser raised `ValueError`. */
module Urls {
  import opened Wrappers
  import opened Strings
  import opened Sorting

  /** `(scheme, netloc, path, query, fragment)`. */
  datatype SplitUrl = SplitUrl(scheme: string, netloc: string, path: string, query: string, fragment: string)

  /** No upper-case ASCII letter. */
  predicate NoUpper(s: string) {
    forall i :: 0 <= i < |s| ==> !('A' <= s[i] <= 'Z')
  }

  lemma LowerNoUpper(s: string)
    ensures NoUpper(Lower(s))
  {
  }

  /** Index of the last `c` in `s`, when there is one. */
  function LastIndex(s: string, c: char): (i: nat)
    requires c in s
    ensures i < |s| && s[i] == c
    ensures forall j :: i < j < |s| ==> s[j] != c
  {
    if s[|s| - 1] == c then |s| - 1
    else
      assert c in s[..|s| - 1] by {
        var k :| 0 <= k < |s| && s[k] == c;
        assert s[..|s| - 1][k] == c;
      }
      LastIndex(s[..|s| - 1], c)
  }

  /** `s.rsplit(c, 1)[0]`. */
  function RSplitHead(s: string, c: char): string {
    if c in s then s[..LastIndex(s, c)] else s
  }

  /** The netloc ends in the scheme's default port (section 6.2.3 of RFC 3986). */
  predicate HasDefaultPort(scheme: string, netloc: string) {
    (scheme == "http" && EndsWith(netloc, ":80")) || (scheme == "https" && EndsWith(netloc, ":443"))
  }

  /** `filter(None, parts)`: the non-empty parts, in order. */
  function NonEmpty(parts: seq<string>): (r: seq<string>)
    ensures forall k :: 0 <= k < |r| ==> r[k] != []
    ensures forall x :: x in r <==> x in parts && x != []
    decreases |parts|
  {
    if parts == [] then []
    else if parts[0] == [] then NonEmpty(parts[1..])
    else [parts[0]] + NonEmpty(parts[1..])
  }

  /** `"&".join(sorted(filter(None, query.split("&"))))`. */
  function NormQuery(q: string): string {
    Join(SortStrings(NonEmpty(Split(q, '&'))), "&")
  }

  /** The netloc as `norm_url` leaves it: lower-cased, with the scheme's
      default port removed. */
  function NormNetloc(scheme: string, netloc: string): string {
    var n := Lower(netloc);
    if HasDefaultPort(scheme, n) then RSplitHead(n, ':') else n
  }

  /** `norm_url` on an already split URL; `resolve` stands for
      `urljoin("/", path)`, the dot-segment resolution of section 5.2 of
      RFC 3986, which this model treats as opaque. The result is returned as
      components, as `urlunsplit` would receive them. */
  function NormUrl(u: Option<SplitUrl>, resolve: string -> string): Option<SplitUrl> {
    match u
    case None => None
    case Some(p) =>
      var path := if p.path == [] then "/" else p.path;
      Some(SplitUrl(Lower(p.scheme), NormNetloc(p.scheme, p.netloc), resolve(path), NormQuery(p.query), ""))
  }

  /** `rsplit(c, 1)[0]` is a prefix. */
  lemma RSplitHeadPrefix(s: string, c: char)
    ensures |RSplitHead(s, c)| <= |s| && RSplitHead(s, c) == s[..|RSplitHead(s, c)|]
  {
  }

  lemma NoUpperPrefix(s: string, n: nat)
    requires NoUpper(s) && n <= |s|
    ensures NoUpper(s[..n])
  {
    assert forall j :: 0 <= j < n ==> s[..n][j] == s[j];
  }

  /** The normalised netloc holds no upper-case letter. */
  lemma NormNetlocNoUpper(scheme: string, netloc: string)
    ensures NoUpper(NormNetloc(scheme, netloc))
  {
    var n := Lower(netloc);
    LowerNoUpper(netloc);
    RSplitHeadPrefix(n, ':');
    NoUpperPrefix(n, |RSplitHead(n, ':')|);
  }

  /** Case normalisation (section 6.2.2.1 of RFC 3986): scheme and host come
      out in lower case, the fragment is dropped, and an empty path is given
      to resolution as `/`. */
  lemma NormUrlShape(p: SplitUrl, resolve: string -> string)
    ensures NormUrl(Some(p), resolve).Some?
    ensures var r := NormUrl(Some(p), resolve).value;
      && r.fragment == ""
      && r.scheme == Lower(p.scheme) && NoUpper(r.scheme)
      && NoUpper(r.netloc)
      && r.path == resolve(if p.path == "" then "/" else p.path)
  {
    LowerNoUpper(p.scheme);
    NormNetlocNoUpper(p.scheme, p.netloc);
  }

  /** Scheme-based normalisation (section 6.2.3 of RFC 3986): `:80` is removed
      for `http` and `:443` for `https`; any other netloc is only lower-cased. */
  lemma NormNetlocPort(scheme: string, netloc: string)
    ensures var n := Lower(netloc);
      && (scheme == "http" && EndsWith(n, ":80") ==> NormNetloc(scheme, netloc) == n[..|n| - 3])
      && (scheme == "https" && EndsWith(n, ":443") ==> NormNetloc(scheme, netloc) == n[..|n| - 4])
      && (!HasDefaultPort(scheme, n) ==> NormNetloc(scheme, netloc) == n)
  {
    var n := Lower(netloc);
    if scheme == "http" && EndsWith(n, ":80") {
      assert n[|n| - 3] == ':' && n[|n| - 2] != ':' && n[|n| - 1] != ':' by {
        assert n[|n| - 3..] == ":80";
      }
      assert LastIndex(n, ':') == |n| - 3;
    }
    if scheme == "https" && EndsWith(n, ":443") {
      assert n[|n| - 4] == ':' && n[|n| - 3] != ':' && n[|n| - 2] != ':' && n[|n| - 1] != ':' by {
        assert n[|n| - 4..] == ":443";
      }
      assert LastIndex(n, ':') == |n| - 4;
    }
  }

  /** The same, as `norm_url` returns it. */
  lemma NormUrlPort(p: SplitUrl, resolve: string -> string)
    ensures var netloc := Lower(p.netloc);
      var r := NormUrl(Some(p), resolve).value;
      && (p.scheme == "http" && EndsWith(netloc, ":80") ==> r.netloc == netloc[..|netloc| - 3])
      && (p.scheme == "https" && EndsWith(netloc, ":443") ==> r.netloc == netloc[..|netloc| - 4])
      && (!HasDefaultPort(p.scheme, netloc) ==> r.netloc == netloc)
  {
    NormNetlocPort(p.scheme, p.netloc);
  }

  /** The canonical query is the non-empty `&`-separated parts of the
      original, sorted. */
  lemma NormQueryParts(q: string)
    ensures var parts := SortStrings(NonEmpty(Split(q, '&')));
      && SortedStrings(parts)
      && multiset(parts) == multiset(NonEmpty(Split(q, '&')))
      && (forall k :: 0 <= k < |parts| ==> parts[k] != [] && '&' !in parts[k])
      && (parts != [] ==> Split(NormQuery(q), '&') == parts)
      && (parts == [] ==> NormQuery(q) == [])
  {
    var ne := NonEmpty(Split(q, '&'));
    var parts := SortStrings(ne);
    forall k | 0 <= k < |parts| ensures parts[k] != [] && '&' !in parts[k] {
      assert parts[k] in multiset(ne);
      assert parts[k] in ne;
    }
    if parts != [] {
      SplitJoin(parts, '&');
    }
  }

  /** Canonicalising the query a second time changes nothing. */
  lemma NormQueryIdempotent(q: string)
    ensures NormQuery(NormQuery(q)) == NormQuery(q)
  {
    NormQueryParts(q);
    var parts := SortStrings(NonEmpty(Split(q, '&')));
    if parts != [] {
      assert NonEmpty(parts) == parts by { NonEmptyKeeps(parts); }
      SortSortedStrings(parts);
    }
  }

  lemma {:induction false} NonEmptyKeeps(parts: seq<string>)
    requires forall k :: 0 <= k < |parts| ==> parts[k] != []
    ensures NonEmpty(parts) == parts
    decreases |parts|
  {
    if parts != [] {
      NonEmptyKeeps(parts[1..]);
    }
  }

  /** `host_only`: the netloc up to its first `:`, lower-cased; `""` when the
      URL does not parse. */
  function HostOnly(u: Option<SplitUrl>): string {
    match u
    case None => ""
    case Some(p) => Lower(Split(p.netloc, ':')[0])
  }

  /** `same_domain`: exact host match (the `host` crawl scope). */
  predicate SameDomain(a: Option<SplitUrl>, b: Option<SplitUrl>) {
    HostOnly(a) == HostOnly(b)
  }

  /** The naive registrable domain: the last two dot-labels of the host, or
      the host itself when it has fewer than two. */
  function Root(h: string): string {
    var parts := Split(h, '.');
    if |parts| >= 2 then Join(parts[|parts| - 2..], ".") else h
  }

  /** `same_reg_domain`: hosts under one registrable domain (the `domain`
      crawl scope, which includes subdomains). */
  predicate SameRegDomain(a: Option<SplitUrl>, b: Option<SplitUrl>) {
    Root(HostOnly(a)) == Root(HostOnly(b))
  }

  /** The host scope is narrower than the domain scope. */
  lemma SameDomainIsSameRegDomain(a: Option<SplitUrl>, b: Option<SplitUrl>)
    requires SameDomain(a, b)
    ensures SameRegDomain(a, b)
  {
  }

  lemma {:induction false} JoinEndsWithLastTwo(parts: seq<string>, sep: string)
    requires |parts| >= 2
    ensures EndsWith(Join(parts, sep), Join(parts[|parts| - 2..], sep))
    decreases |parts|
  {
    var n := |parts|;
    if n > 2 {
      JoinEndsWithLastTwo(parts[1..], sep);
      assert parts[1..][n - 3..] == parts[n - 2..];
      var whole := Join(parts, sep);
      var tail := Join(parts[1..], sep);
      var suffix := Join(parts[n - 2..], sep);
      assert whole == (parts[0] + sep) + tail;
      assert whole[|whole| - |suffix|..] == tail[|tail| - |suffix|..];
    } else {
      assert parts[n - 2..] == parts;
    }
  }

  /** A host without a dot is its own root; otherwise its root is its last
      two labels, which form a suffix of the host. */
  lemma RootShape(h: string)
    ensures '.' !in h ==> Root(h) == h
    ensures '.' in h ==>
      var parts := Split(h, '.');
      && |parts| >= 2
      && Root(h) == parts[|parts| - 2] + "." + parts[|parts| - 1]
      && EndsWith(h, Root(h))
  {
    var parts := Split(h, '.');
    if '.' !in h {
      SplitNoSep(h, '.');
    } else {
      JoinSplit(h, '.');
      var last := parts[|parts| - 2..];
      assert Join(last, ".") == parts[|parts| - 2] + "." + Join(last[1..], ".");
      JoinEndsWithLastTwo(parts, ".");
    }
  }

  /** Taking the root twice is taking it once. */
  lemma RootIdempotent(h: string)
    ensures Root(Root(h)) == Root(h)
  {
    RootShape(h);
    var parts := Split(h, '.');
    if '.' in h {
      var two := parts[|parts| - 2..];
      assert Join(two, ".") == parts[|parts| - 2] + "." + parts[|parts| - 1];
      assert forall k :: 0 <= k < |two| ==> '.' !in two[k];
      SplitJoin(two, '.');
      assert Join(two[|two| - 2..], ".") == Join(two, ".") by { assert two[|two| - 2..] == two; }
    }
  }

  /** `_is_valid_url` / the first two checks of `is_valid_url`: an `http` or
      `https` URL with exactly the netloc of the start URL. */
  predicate HttpOnSameNetloc(u: Option<SplitUrl>, base: Option<SplitUrl>) {
    u.Some? && base.Some? && (u.value.scheme == "http" || u.value.scheme == "https")
    && u.value.netloc == base.value.netloc
  }
}
