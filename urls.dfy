/** A simplified model of Go's `net/url`: parsing a reference (RFC 3986 section 3),
    resolving it against a base URL (RFC 3986 section 5.2.2) and rendering it back. */
module Urls {
  import opened Wrappers
  import opened Strings

  datatype Url = Url(scheme: string, host: string, path: string, rawQuery: string, fragment: string)

  /** The zero value of url.URL. */
  const EmptyUrl := Url("", "", "", "", "")

  /** The identity key of a resource: the URL without its fragment (RFC 3986 section 3.5). */
  function Canonical(u: Url): Url
  {
    u.(fragment := "")
  }

  /** url.URL.String, without percent-escaping: a path that does not start
      with '/' gets one when there is a host. */
  function ToString(u: Url): string
  {
    (if u.scheme != "" then u.scheme + ":" else "")
    + (if u.host != "" then "//" + u.host else "")
    + (if u.host != "" && u.path != "" && u.path[0] != '/' then "/" else "")
    + u.path
    + (if u.rawQuery != "" then "?" + u.rawQuery else "")
    + (if u.fragment != "" then "#" + u.fragment else "")
  }

  /** A URL with a scheme, a host and a non-empty path prints under its site
      root `scheme://host/`, whether or not the path was rooted. */
  lemma PrintsUnderSiteRoot(u: Url)
    requires u.scheme != "" && u.host != "" && u.path != ""
    ensures HasPrefix(ToString(u), u.scheme + "://" + u.host + "/")
  {
    var site := u.scheme + ":" + ("//" + u.host);
    var slash := if u.path[0] != '/' then "/" else "";
    var w := site + slash + u.path;
    var query := if u.rawQuery != "" then "?" + u.rawQuery else "";
    PrefixOfConcat(w + query, if u.fragment != "" then "#" + u.fragment else "");
    PrefixOfConcat(w, query);
    PrefixTrans(ToString(u), w + query, w);
    if slash == "/" {
      PrefixOfConcat(site + "/", u.path);
    } else {
      assert u.path == "/" + u.path[1..];
      PrefixOfConcat("/", u.path[1..]);
      PrefixExtend(site, u.path, "/");
      assert w == site + u.path;
    }
    assert site + "/" == u.scheme + "://" + u.host + "/";
    PrefixTrans(ToString(u), w, site + "/");
  }

  /** Index of the first occurrence of `c`, or |s| when there is none. */
  function IndexOf(s: string, c: char): (i: nat)
    ensures i <= |s|
    ensures i < |s| ==> s[i] == c
    ensures forall j :: 0 <= j < i ==> s[j] != c
    decreases |s|
  {
    if s == [] then 0
    else if s[0] == c then 0
    else 1 + IndexOf(s[1..], c)
  }

  predicate IsControl(c: char)
  {
    c as int < 0x20 || c as int == 0x7f
  }

  predicate HasControl(s: string)
    decreases |s|
  {
    s != [] && (IsControl(s[0]) || HasControl(s[1..]))
  }

  predicate IsAlpha(c: char)
  {
    'a' <= c <= 'z' || 'A' <= c <= 'Z'
  }

  /** The ASCII lower-case form of a scheme (strings.ToLower on the letters
      a scheme may hold). */
  function LowerScheme(s: string): (r: string)
    ensures |r| == |s|
    ensures forall i :: 0 <= i < |s| ==> r[i] == LowerChar(s[i])
    decreases |s|
  {
    if s == [] then ""
    else [LowerChar(s[0])] + LowerScheme(s[1..])
  }

  /** An ASCII upper-case letter becomes its lower-case letter; any other
      character is kept. A letter stays a letter, and lowering twice is
      lowering once. */
  function LowerChar(c: char): (d: char)
    ensures IsAlpha(c) ==> IsAlpha(d)
    ensures !('A' <= d <= 'Z')
  {
    if 'A' <= c <= 'Z' then (c as int + 32) as char else c
  }

  /** The scan of url.getScheme from position `i`: the index of the colon that
      ends a scheme, or -1 when `s` has no scheme. Index 0 means the reference
      starts with a colon ("missing protocol scheme"). */
  function SchemeColon(s: string, i: nat): (k: int)
    requires i <= |s|
    ensures k == -1 || (i <= k < |s| && s[k] == ':')
    decreases |s| - i
  {
    if i == |s| then -1
    else if IsAlpha(s[i]) then SchemeColon(s, i + 1)
    else if IsDigit(s[i]) || s[i] == '+' || s[i] == '-' || s[i] == '.' then
      (if i == 0 then -1 else SchemeColon(s, i + 1))
    else if s[i] == ':' then i
    else -1
  }

  /** url.Parse. Fails on a control character before the fragment, on a
      reference that starts with a colon, and on a relative reference whose
      first path segment holds a colon. The scheme is stored in lower case. */
  function Parse(link: string): Option<Url>
  {
    var h := IndexOf(link, '#');
    var rest := link[..h];
    var fragment := if h < |link| then link[h + 1..] else "";
    var k := SchemeColon(rest, 0);
    if HasControl(rest) || k == 0 then None
    else if k > 0 then ParseAfterScheme(LowerScheme(rest[..k]), rest[k + 1..], fragment)
    else ParseAfterScheme("", rest, fragment)
  }

  /** The part of url.Parse after the scheme: the query, then an authority
      when the rest starts with "//", else a path. */
  function ParseAfterScheme(scheme: string, afterScheme: string, fragment: string): Option<Url>
  {
    var q := IndexOf(afterScheme, '?');
    var query := if q < |afterScheme| then afterScheme[q + 1..] else "";
    var hier := afterScheme[..q];
    if HasPrefix(hier, "//") then
      var authority := hier[2..];
      var slash := IndexOf(authority, '/');
      Some(Url(scheme, authority[..slash], authority[slash..], query, fragment))
    else if scheme == "" && !HasPrefix(hier, "/") && ':' in hier[..IndexOf(hier, '/')] then None
    else Some(Url(scheme, "", hier, query, fragment))
  }

  /** `a` and `b` differ at most in the case of the letters of a scheme that
      ends with the colon at `k`. */
  predicate SchemeCaseVariants(a: string, b: string, k: nat)
  {
    && |a| == |b| && 0 < k < |a| && a[k] == ':'
    && (forall i :: 0 <= i < k ==> IsAlpha(a[i]) && IsAlpha(b[i]) && LowerChar(a[i]) == LowerChar(b[i]))
    && (forall i :: k <= i < |a| ==> a[i] == b[i])
  }

  /** Two strings with '#' at the same places have their first '#' at the same place. */
  lemma IndexOfAgrees(a: string, b: string, c: char)
    requires |a| == |b| && forall i :: 0 <= i < |a| ==> (a[i] == c <==> b[i] == c)
    ensures IndexOf(a, c) == IndexOf(b, c)
  {
  }

  lemma {:induction false} HasControlAgrees(a: string, b: string)
    requires |a| == |b| && forall i :: 0 <= i < |a| ==> (IsControl(a[i]) <==> IsControl(b[i]))
    ensures HasControl(a) == HasControl(b)
    decreases |a|
  {
    if a != [] {
      HasControlAgrees(a[1..], b[1..]);
    }
  }

  lemma {:induction false} SchemeColonAfterLetters(s: string, n: nat, i: nat)
    requires i <= n < |s| && s[n] == ':'
    requires forall j :: 0 <= j < n ==> IsAlpha(s[j])
    ensures SchemeColon(s, i) == n
    decreases n - i
  {
    if i < n {
      SchemeColonAfterLetters(s, n, i + 1);
    }
  }

  /** Parse of a link whose scheme ends at `k > 0`, unfolded once. */
  lemma ParseWithScheme(link: string, h: nat, k: nat)
    requires h == IndexOf(link, '#') && k == SchemeColon(link[..h], 0) && k > 0
    ensures Parse(link) == if HasControl(link[..h]) then None
                           else ParseAfterScheme(LowerScheme(link[..h][..k]), link[..h][k + 1..],
                                                 if h < |link| then link[h + 1..] else "")
  {
  }

  /** A link's scheme is case-insensitive (RFC 3986 section 3.1): links that
      differ only in the case of their scheme parse to the same URL. */
  lemma SchemeCaseIgnored(a: string, b: string, k: nat)
    requires SchemeCaseVariants(a, b, k)
    ensures Parse(a) == Parse(b)
  {
    IndexOfAgrees(a, b, '#');
    var h := IndexOf(a, '#');
    assert k < h;
    var ra, rb := a[..h], b[..h];
    SchemeColonAfterLetters(ra, k, 0);
    SchemeColonAfterLetters(rb, k, 0);
    HasControlAgrees(ra, rb);
    assert LowerScheme(ra[..k]) == LowerScheme(rb[..k]);
    assert ra[k + 1..] == rb[k + 1..];
    if h < |a| {
      assert a[h + 1..] == b[h + 1..];
    }
    ParseWithScheme(a, h, k);
    ParseWithScheme(b, h, k);
  }

  /** The merge of RFC 3986 section 5.2.3 as url.resolvePath does it: a
      relative path replaces the last segment of the base path; the result is
      rooted. Removal of dot segments is not modelled. */
  function MergePath(base: string, ref: string): (p: string)
    ensures p == "" || p[0] == '/'
  {
    var full :=
      if ref == "" then base
      else if ref[0] == '/' then ref
      else
        base[..LastSlashPlusOne(base)] + ref;
    if full == "" then ""
    else if full[0] == '/' then full
    else "/" + full
  }

  /** Length of the prefix of `s` up to and including its last '/', 0 if none. */
  function LastSlashPlusOne(s: string): (n: nat)
    ensures n <= |s|
    ensures n > 0 ==> s[n - 1] == '/'
    decreases |s|
  {
    if s == [] then 0
    else if s[|s| - 1] == '/' then |s|
    else LastSlashPlusOne(s[..|s| - 1])
  }

  /** url.URL.ResolveReference: the target of reference `ref` seen from `base`
      (RFC 3986 section 5.2.2). */
  function Resolve(base: Url, ref: Url): (r: Url)
    ensures ref.scheme != "" ==> r == ref.(path := MergePath("", ref.path))
    ensures r.fragment == ref.fragment || (ref.path == "" && ref.rawQuery == "" && ref.fragment == "")
  {
    if ref.scheme != "" || ref.host != "" then
      ref.(scheme := if ref.scheme == "" then base.scheme else ref.scheme,
           path := MergePath("", ref.path))
    else if ref.path == "" && ref.rawQuery == "" then
      Url(base.scheme, base.host, base.path, base.rawQuery,
          if ref.fragment == "" then base.fragment else ref.fragment)
    else
      Url(base.scheme, base.host, MergePath(base.path, ref.path), ref.rawQuery, ref.fragment)
  }
}
