/** Redirect resolution in src/utils/url.rs, and what every chain of redirects keeps. */
module Redirects {
  import opened Wrappers
  import opened Text
  import opened LocalUrls

  predicate StartsWith(s: string, prefix: string) { |prefix| <= |s| && s[..|prefix|] == prefix }

  function WithoutQuery(path: string): string { path[..IndexOf(path, '?')] }

  /** The path up to and including its last slash. */
  function Directory(path: string): string {
    var i := LastIndexOf(WithoutQuery(path), '/');
    if i >= 0 then WithoutQuery(path)[..i + 1] else "/"
  }

  function Resolve(base: Url, location: string, policy: Policy): Result<Url, UrlError> {
    if location != "" && location[0] == '/' then
      Validate(base.scheme + "://" + BracketIfV6(base.host) + location, policy)
    else if StartsWith(location, "http://") || StartsWith(location, "https://") then
      Validate(location, policy)
    else if FindSeparator(location).Some? then
      Err(BadScheme)
    else
      Validate(base.scheme + "://" + BracketIfV6(base.host) + Directory(base.path) + location, policy)
  }

  // ---------------------------------------------------------------------------------------------
  // Chains.

  ghost predicate IsChain(urls: seq<Url>, locations: seq<string>, policy: Policy) {
    && |urls| == |locations| + 1
    && forall i :: 0 <= i < |locations| ==> Resolve(urls[i], locations[i], policy) == Ok(urls[i + 1])
  }

  lemma ResolvedIsValidated(base: Url, location: string, policy: Policy, u: Url) returns (input: string)
    requires Resolve(base, location, policy) == Ok(u)
    ensures Validate(input, policy) == Ok(u)
  {
    if location != "" && location[0] == '/' {
      input := base.scheme + "://" + BracketIfV6(base.host) + location;
    } else if StartsWith(location, "http://") || StartsWith(location, "https://") {
      input := location;
    } else {
      input := base.scheme + "://" + BracketIfV6(base.host) + Directory(base.path) + location;
    }
  }

  /** Every URL of a chain that starts from an accepted one obeys the policy: without external access it stays local. */
  lemma ChainObeys(input: string, urls: seq<Url>, locations: seq<string>, policy: Policy, i: nat)
    requires IsChain(urls, locations, policy) && Validate(input, policy) == Ok(urls[0]) && i < |urls|
    ensures Obeys(urls[i], policy) && CleanPath(urls[i].path)
    ensures !policy.allowExternal ==> urls[i].isLocal
  {
    var source := input;
    if i > 0 {
      assert Resolve(urls[i - 1], locations[i - 1], policy) == Ok(urls[i]);
      source := ResolvedIsValidated(urls[i - 1], locations[i - 1], policy, urls[i]);
    }
    var _ := ValidatedShape(source, policy, urls[i]);
  }

  // ---------------------------------------------------------------------------------------------
  // Merging paths.

  /** RFC 3986, section 5.2.3: the reference, appended to the base path without anything after its right-most slash. */
  function Merge(basePath: string, reference: string): string {
    if '/' in basePath then [basePath[0]] + Merge(basePath[1..], reference) else reference
  }

  lemma {:induction false} MergeAt(path: string, last: nat, reference: string)
    requires last < |path| && path[last] == '/' && forall k :: last < k < |path| ==> path[k] != '/'
    ensures Merge(path, reference) == path[..last + 1] + reference
  {
    if last > 0 {
      assert path[1..][last - 1] == '/';
      MergeAt(path[1..], last - 1, reference);
      assert path[..last + 1] == [path[0]] + path[1..][..last];
    } else {
      assert '/' !in path[1..];
      assert Merge(path[1..], reference) == reference;
    }
  }

  lemma CleanPathHasSlash(path: string)
    requires path != "" && path[0] == '/'
    ensures WithoutQuery(path) != "" && WithoutQuery(path)[0] == '/' && '/' in WithoutQuery(path)
  {
    var cut := IndexOf(path, '?');
    assert cut > 0;
    assert path[..cut][0] == '/';
  }

  lemma Regroup(a: string, b: string, c: string)
    ensures a + (b + c) == a + b + c
  {
  }

  // ---------------------------------------------------------------------------------------------
  // Relative redirects.

  lemma {:induction false} TrimEndOfSum(a: string, b: string)
    requires a != "" && !IsSpace(a[|a| - 1])
    ensures TrimEnd(a + b) == a + TrimEnd(b)
    decreases |b|
  {
    if b == "" {
      assert a + b == a;
    } else {
      assert (a + b)[|a + b| - 1] == b[|b| - 1];
      if IsSpace(b[|b| - 1]) {
        assert (a + b)[..|a + b| - 1] == a + b[..|b| - 1];
        TrimEndOfSum(a, b[..|b| - 1]);
      }
    }
  }

  lemma TrimOfSum(a: string, b: string)
    requires a != "" && !IsSpace(a[0]) && !IsSpace(a[|a| - 1])
    ensures Trim(a + b) == a + TrimEnd(b) && Trim(a + TrimEnd(b)) == a + TrimEnd(b)
  {
    TrimEndOfSum(a, b);
    TrimEndCuts(b);
    var t := a + TrimEnd(b);
    assert Trimmed(t) by {
      assert t[0] == a[0];
    }
    TrimOfTrimmed(t);
    assert (a + b)[0] == a[0];
  }

  lemma SameTrimSameVerdict(a: string, b: string, policy: Policy)
    requires Trim(a) == Trim(b)
    ensures Validate(a, policy) == Validate(b, policy)
  {
  }

  /** Only what is left after trimming the end is validated. */
  lemma EndIsTrimmed(a: string, b: string, policy: Policy)
    requires a != "" && !IsSpace(a[0]) && !IsSpace(a[|a| - 1])
    ensures Validate(a + b, policy) == Validate(a + TrimEnd(b), policy)
  {
    TrimOfSum(a, b);
    SameTrimSameVerdict(a + b, a + TrimEnd(b), policy);
  }

  /** A redirect that names no scheme, as it is put together: the base's scheme and host, no port, and a path. */
  function OnBase(base: Url, path: string, policy: Policy): Result<Url, UrlError> {
    var full := Full(base.scheme, base.host, None, path);
    if |full| > MAX_URL_CHARS then Err(TooLong)
    else if HasControl(path) then Err(ControlCharacter)
    else if ByteLength(path) > MAX_URL_CHARS then Err(PathTooLong)
    else Ok(Url(base.scheme, base.host, BracketIfV6(base.host), DefaultPort(base.scheme), path, base.isLoopback,
      base.isLocal, full))
  }

  lemma PrefixMeets(scheme: string, host: string, front: string, tail: string)
    requires (scheme == "http" || scheme == "https") && front != "" && !IsSpace(front[|front| - 1])
    ensures var prefix := scheme + "://" + BracketIfV6(host) + front;
      && prefix != "" && !IsSpace(prefix[0]) && !IsSpace(prefix[|prefix| - 1])
      && prefix + tail == Full(scheme, host, None, front + tail)
  {
    var prefix := scheme + "://" + BracketIfV6(host) + front;
    assert prefix[0] == scheme[0] == 'h';
    assert prefix[|prefix| - 1] == front[|front| - 1];
  }

  lemma PathMeets(front: string, location: string)
    requires front != "" && front[0] == '/' && !IsSpace(front[|front| - 1])
    ensures var path := front + TrimEnd(location); path != "" && path[0] == '/' && !IsSpace(path[|path| - 1])
  {
    TrimEndCuts(location);
    var t := TrimEnd(location);
    assert (front + t)[|front + t| - 1] == if t == "" then front[|front| - 1] else t[|t| - 1];
  }

  lemma OnBaseIsValidated(base: Url, front: string, location: string, policy: Policy)
    requires Obeys(base, policy) && CleanHost(base.host) && front != "" && front[0] == '/'
               && !IsSpace(front[|front| - 1])
    ensures Validate(base.scheme + "://" + BracketIfV6(base.host) + front + location, policy)
            == OnBase(base, front + TrimEnd(location), policy)
  {
    PrefixMeets(base.scheme, base.host, front, TrimEnd(location));
    EndIsTrimmed(base.scheme + "://" + BracketIfV6(base.host) + front, location, policy);
    PathMeets(front, location);
    PartsAreFound(base.scheme, base.host, None, front + TrimEnd(location), policy);
  }

  lemma DirectoryMerges(path: string, reference: string)
    requires path != "" && path[0] == '/'
    ensures Directory(path) != "" && Directory(path)[0] == '/' && Directory(path)[|Directory(path)| - 1] == '/'
    ensures Directory(path) + reference == Merge(WithoutQuery(path), reference)
  {
    CleanPathHasSlash(path);
    var p := WithoutQuery(path);
    var last := LastIndexOf(p, '/');
    MergeAt(p, last, reference);
    assert p[..last + 1][0] == p[0];
  }

  lemma HasSeparator(s: string, scheme: string, prefix: string)
    requires ':' !in scheme && prefix == scheme + "://" && StartsWith(s, prefix)
    ensures FindSeparator(s).Some?
  {
    FindAfter(scheme, s[|prefix|..]);
    assert s == s[..|prefix|] + s[|prefix|..];
  }

  lemma NoSchemePrefix(s: string)
    requires FindSeparator(s).None?
    ensures !StartsWith(s, "http://") && !StartsWith(s, "https://")
  {
    if StartsWith(s, "http://") {
      HasSeparator(s, "http", "http://");
    }
    if StartsWith(s, "https://") {
      HasSeparator(s, "https", "https://");
    }
  }

  lemma ResolveRelative(base: Url, location: string, policy: Policy)
    requires (location == "" || location[0] != '/') && FindSeparator(location).None?
    ensures Resolve(base, location, policy)
            == Validate(base.scheme + "://" + BracketIfV6(base.host) + Directory(base.path) + location, policy)
  {
    NoSchemePrefix(location);
  }

  /**
   * A URL that redirects can be resolved against: accepted, with a host that survives printing, as every loopback
   * host does.
   */
  predicate IsBase(u: Url, policy: Policy) { Obeys(u, policy) && CleanPath(u.path) && CleanHost(u.host) }

  lemma RelativeByDirectory(base: Url, location: string, policy: Policy)
    requires IsBase(base, policy) && (location == "" || location[0] != '/') && FindSeparator(location).None?
    ensures Resolve(base, location, policy) == OnBase(base, Directory(base.path) + TrimEnd(location), policy)
  {
    DirectoryMerges(base.path, "");
    ResolveRelative(base, location, policy);
    OnBaseIsValidated(base, Directory(base.path), location, policy);
  }

  /**
   * A relative location keeps scheme and host and is merged into the path as RFC 3986 says; dots in it are not
   * resolved.
   */
  lemma RelativeRedirect(base: Url, location: string, policy: Policy)
    requires IsBase(base, policy)
    requires (location == "" || location[0] != '/') && FindSeparator(location).None?
    ensures Resolve(base, location, policy) == OnBase(base, Merge(WithoutQuery(base.path), TrimEnd(location)), policy)
  {
    DirectoryMerges(base.path, TrimEnd(location));
    RelativeByDirectory(base, location, policy);
  }

  // ---------------------------------------------------------------------------------------------
  // The same by RFC 3986, which knows fragments, and references without a path.

  /** The path component: up to the first '?' or '#'. */
  function PathPart(s: string): string {
    var q, h := IndexOf(s, '?'), IndexOf(s, '#');
    if q <= h then s[..q] else s[..h]
  }

  /** The query component with its '?', or nothing. */
  function QueryPart(s: string): string {
    var rest := s[|PathPart(s)|..];
    if rest != "" && rest[0] == '?' then rest[..IndexOf(rest, '#')] else ""
  }

  /**
   * Section 5.2.2 of RFC 3986 for a reference without scheme, authority and leading slash: path,
   * query and fragment of the target, before dot segments are removed.
   */
  function RfcTarget(basePath: string, reference: string): string {
    if PathPart(reference) != ""
    then Merge(PathPart(basePath), PathPart(reference)) + reference[|PathPart(reference)|..]
    else if reference != "" && reference[0] == '?' then PathPart(basePath) + reference
    else PathPart(basePath) + QueryPart(basePath) + reference
  }

  /**
   * No slash stands in the base's fragment before a '?', and a reference without a path finds a base
   * path that ends in a slash and, unless it brings a query, a base without one.
   */
  predicate FollowsRfc(basePath: string, reference: string) {
    var r := PathPart(basePath);
    && '/' !in WithoutQuery(basePath)[|r|..]
    && (PathPart(reference) != ""
        || (r != "" && r[|r| - 1] == '/' && ((reference != "" && reference[0] == '?') || QueryPart(basePath) == "")))
  }

  lemma PathPartOfPath(path: string)
    requires path != "" && path[0] == '/'
    ensures var r, w := PathPart(path), WithoutQuery(path);
      && r != "" && r[0] == '/' && |r| <= |w| && r == w[..|r|] && '?' !in w
  {
    var q, h := IndexOf(path, '?'), IndexOf(path, '#');
    assert q > 0 && h > 0;
  }

  /** What Merge keeps of a path. */
  function Kept(path: string): string { path[..LastIndexOf(path, '/') + 1] }

  lemma MergeKeeps(path: string, reference: string)
    requires '/' in path
    ensures Merge(path, reference) == Kept(path) + reference
    ensures Kept(path) != "" && Kept(path)[|Kept(path)| - 1] == '/' && |Kept(path)| <= |path|
  {
    var last := LastIndexOf(path, '/');
    assert last >= 0;
    MergeAt(path, last, reference);
  }

  /** A longer path keeps the same exactly when it adds no slash. */
  lemma KeptOfLonger(r: string, w: string)
    requires r != "" && r[0] == '/' && |r| <= |w| && r == w[..|r|]
    ensures Kept(w) == Kept(r) <==> '/' !in w[|r|..]
    ensures Kept(w) == r <==> '/' !in w[|r|..] && r[|r| - 1] == '/'
  {
    var i, j := LastIndexOf(r, '/'), LastIndexOf(w, '/');
    if '/' in w[|r|..] {
      var k :| 0 <= k < |w[|r|..]| && w[|r|..][k] == '/';
      assert w[|r| + k] == '/';
      assert j >= |r| + k;
    } else {
      assert forall k :: |r| <= k < |w| ==> w[|r|..][k - |r|] == w[k];
      LastIndexIs(w, '/', i);
    }
  }

  lemma SameTail(a: string, b: string, c: string)
    ensures a + c == b + c <==> a == b
  {
    if a + c == b + c {
      assert |a| == |b|;
      assert a == (a + c)[..|a|] && b == (b + c)[..|b|];
    }
  }

  lemma NoQueryInKept(path: string, w: string, q: string)
    requires '?' !in w && q == QueryPart(path)
    ensures Kept(w) == PathPart(path) + q ==> q == ""
  {
    forall c | c in Kept(w) ensures c in w {
      var k :| 0 <= k < |Kept(w)| && Kept(w)[k] == c;
      assert w[k] == c;
    }
    if q != "" {
      assert (PathPart(path) + q)[|PathPart(path)|] == '?';
    }
  }

  lemma TargetWithPath(basePath: string, reference: string)
    requires '/' in PathPart(basePath) && PathPart(reference) != ""
    ensures RfcTarget(basePath, reference) == Kept(PathPart(basePath)) + reference
  {
    var p := PathPart(reference);
    MergeKeeps(PathPart(basePath), p);
    Regroup(Kept(PathPart(basePath)), p, reference[|p|..]);
    assert p + reference[|p|..] == reference;
  }

  lemma WithPath(basePath: string, reference: string)
    requires basePath != "" && basePath[0] == '/' && PathPart(reference) != ""
    ensures Merge(WithoutQuery(basePath), reference) == RfcTarget(basePath, reference)
            <==> '/' !in WithoutQuery(basePath)[|PathPart(basePath)|..]
  {
    var r, w := PathPart(basePath), WithoutQuery(basePath);
    CleanPathHasSlash(basePath);
    PathPartOfPath(basePath);
    MergeKeeps(w, reference);
    TargetWithPath(basePath, reference);
    KeptOfLonger(r, w);
    SameTail(Kept(w), Kept(r), reference);
  }

  /** What is kept of the base's path is all of it exactly if that ends in a slash and no other follows. */
  lemma KeepsItsPath(basePath: string, reference: string)
    requires basePath != "" && basePath[0] == '/'
    ensures var r, w := PathPart(basePath), WithoutQuery(basePath);
            && r != "" && '?' !in w && |r| <= |w|
            && Merge(w, reference) == Kept(w) + reference
            && (Kept(w) == r <==> '/' !in w[|r|..] && r[|r| - 1] == '/')
  {
    CleanPathHasSlash(basePath);
    PathPartOfPath(basePath);
    MergeKeeps(WithoutQuery(basePath), reference);
    KeptOfLonger(PathPart(basePath), WithoutQuery(basePath));
  }

  lemma QueryOnly(basePath: string, reference: string)
    requires basePath != "" && basePath[0] == '/' && reference != "" && reference[0] == '?'
    ensures var r, w := PathPart(basePath), WithoutQuery(basePath);
            r != "" && |r| <= |w|
            && (Merge(w, reference) == r + reference <==> '/' !in w[|r|..] && r[|r| - 1] == '/')
  {
    KeepsItsPath(basePath, reference);
    SameTail(Kept(WithoutQuery(basePath)), PathPart(basePath), reference);
  }

  lemma FragmentOnly(basePath: string, reference: string)
    requires basePath != "" && basePath[0] == '/'
    ensures var r, w, q := PathPart(basePath), WithoutQuery(basePath), QueryPart(basePath);
            r != "" && |r| <= |w|
            && (Merge(w, reference) == r + q + reference <==> '/' !in w[|r|..] && r[|r| - 1] == '/' && q == "")
  {
    var r, w, q := PathPart(basePath), WithoutQuery(basePath), QueryPart(basePath);
    KeepsItsPath(basePath, reference);
    SameTail(Kept(w), r + q, reference);
    NoQueryInKept(basePath, w, q);
    assert q == "" ==> r + q == r;
  }

  lemma WithoutPath(basePath: string, reference: string)
    requires basePath != "" && basePath[0] == '/' && PathPart(reference) == ""
    ensures var r, w := PathPart(basePath), WithoutQuery(basePath);
            r != "" && |r| <= |w|
            && (Merge(w, reference) == RfcTarget(basePath, reference) <==>
                 && '/' !in w[|r|..] && r[|r| - 1] == '/'
                 && ((reference != "" && reference[0] == '?') || QueryPart(basePath) == ""))
  {
    if reference != "" && reference[0] == '?' {
      QueryOnly(basePath, reference);
    } else {
      FragmentOnly(basePath, reference);
    }
  }

  /** The code's path is the one of RFC 3986 if and only if FollowsRfc. */
  lemma RelativeIsRfc(basePath: string, reference: string)
    requires basePath != "" && basePath[0] == '/' && (reference == "" || reference[0] != '/')
    ensures Merge(WithoutQuery(basePath), reference) == RfcTarget(basePath, reference) <==>
              FollowsRfc(basePath, reference)
  {
    PathPartOfPath(basePath);
    if PathPart(reference) != "" {
      WithPath(basePath, reference);
    } else {
      WithoutPath(basePath, reference);
    }
  }

  /** The reference begins with a scheme of its own: a colon stands in it before any of "/?#". */
  predicate HasOwnScheme(reference: string) {
    exists i :: 0 < i < |reference| && reference[i] == ':'
      && forall k :: 0 <= k < i ==> reference[k] !in {':', '/', '?', '#'}
  }

  /** The path of the target on the base's host; a reference with a scheme of its own leads elsewhere. */
  function RfcPath(basePath: string, reference: string): Option<string> {
    if HasOwnScheme(reference) then None else Some(RfcTarget(basePath, reference))
  }

  /**
   * So the URL a relative redirect leads to is the one of RFC 3986 exactly then, and if the location is
   * not a URL of another scheme, such as a mail address, which the code takes for a path.
   */
  lemma RedirectIsRfc(base: Url, location: string, policy: Policy, u: Url)
    requires IsBase(base, policy)
    requires (location == "" || location[0] != '/') && FindSeparator(location).None?
    requires Resolve(base, location, policy) == Ok(u)
    ensures Some(u.path) == RfcPath(base.path, TrimEnd(location)) <==>
              !HasOwnScheme(TrimEnd(location)) && FollowsRfc(base.path, TrimEnd(location))
  {
    RelativeRedirect(base, location, policy);
    TrimEndCuts(location);
    RelativeIsRfc(base.path, TrimEnd(location));
  }

  /** A base whose fragment holds a slash: the segment after "/a#" is taken for a directory. */
  lemma FragmentMisleads(basePath: string, reference: string)
    requires basePath == "/a#b/c" && reference == "x"
    ensures CleanPath(basePath) && Merge(WithoutQuery(basePath), reference) == "/a#b/x"
              && RfcTarget(basePath, reference) == "/x"
  {
    assert IndexOf(basePath, '?') == 6 && basePath[..6] == basePath;
    assert basePath[2] == '#' && IndexOf(basePath, '#') == 2 && basePath[..2] == "/a";
    MergeAt(basePath, 4, reference);
    assert basePath[..5] == "/a#b/";
    assert PathPart(reference) == "x" && reference[1..] == "";
    MergeAt("/a", 0, "x");
  }

  lemma ResolveAbsolute(base: Url, rest: string, policy: Policy)
    ensures Resolve(base, "/" + rest, policy)
              == Validate(base.scheme + "://" + BracketIfV6(base.host) + "/" + rest, policy)
  {
    Regroup(base.scheme + "://" + BracketIfV6(base.host), "/", rest);
  }

  /** A location with a leading slash, two slashes included, stays on the host and replaces the whole path. */
  lemma AbsolutePathRedirect(base: Url, location: string, policy: Policy)
    requires IsBase(base, policy) && location != "" && location[0] == '/'
    ensures Resolve(base, location, policy) == OnBase(base, TrimEnd(location), policy)
  {
    var rest := location[1..];
    assert location == "/" + rest;
    TrimEndOfSum("/", rest);
    ResolveAbsolute(base, rest, policy);
    OnBaseIsValidated(base, "/", rest, policy);
  }

  lemma OnBaseKeeps(base: Url, path: string, policy: Policy, u: Url)
    requires OnBase(base, path, policy) == Ok(u)
    ensures u.scheme == base.scheme && u.host == base.host && u.isLoopback == base.isLoopback
              && u.isLocal == base.isLocal
    ensures u.port == DefaultPort(base.scheme)
  {
  }

  predicate NamesNoScheme(location: string) { (location != "" && location[0] == '/') || FindSeparator(location).None? }

  /** Both kinds go to the port of the scheme: the base's own port survives exactly when it is that one. */
  lemma PortSurvives(base: Url, location: string, policy: Policy, u: Url)
    requires IsBase(base, policy) && NamesNoScheme(location) && Resolve(base, location, policy) == Ok(u)
    ensures u.scheme == base.scheme && u.host == base.host && u.isLoopback == base.isLoopback
              && u.isLocal == base.isLocal
    ensures u.port == DefaultPort(base.scheme)
    ensures u.port == base.port <==> base.port == DefaultPort(base.scheme)
  {
    if location != "" && location[0] == '/' {
      AbsolutePathRedirect(base, location, policy);
      OnBaseKeeps(base, TrimEnd(location), policy, u);
    } else {
      RelativeRedirect(base, location, policy);
      OnBaseKeeps(base, Merge(WithoutQuery(base.path), TrimEnd(location)), policy, u);
    }
  }

  lemma ResolvedIsBase(base: Url, location: string, policy: Policy, u: Url)
    requires IsBase(base, policy) && NamesNoScheme(location) && Resolve(base, location, policy) == Ok(u)
    ensures IsBase(u, policy) && u.scheme == base.scheme && u.host == base.host && u.isLoopback == base.isLoopback
    ensures u.port == DefaultPort(base.scheme)
  {
    PortSurvives(base, location, policy, u);
    var source := ResolvedIsValidated(base, location, policy, u);
    var _ := ValidatedShape(source, policy, u);
  }

  ghost predicate AllNameNoScheme(locations: seq<string>) { forall l :: l in locations ==> NamesNoScheme(l) }

  lemma ChainStep(urls: seq<Url>, locations: seq<string>, policy: Policy, k: nat)
    requires IsChain(urls, locations, policy) && k < |locations| && AllNameNoScheme(locations)
               && IsBase(urls[k], policy)
    ensures IsBase(urls[k + 1], policy) && urls[k + 1].scheme == urls[k].scheme && urls[k + 1].host == urls[k].host
    ensures urls[k + 1].isLoopback == urls[k].isLoopback && urls[k + 1].port == DefaultPort(urls[k].scheme)
  {
    assert locations[k] in locations;
    ResolvedIsBase(urls[k], locations[k], policy, urls[k + 1]);
  }

  /** A chain of such locations never leaves the host. */
  lemma {:induction false} ChainStaysOnHost(urls: seq<Url>, locations: seq<string>, policy: Policy, n: nat)
    requires IsChain(urls, locations, policy) && AllNameNoScheme(locations) && IsBase(urls[0], policy) && n < |urls|
    ensures urls[n].scheme == urls[0].scheme && urls[n].host == urls[0].host && urls[n].isLoopback == urls[0].isLoopback
    ensures n > 0 ==> urls[n].port == DefaultPort(urls[0].scheme)
    ensures IsBase(urls[n], policy)
  {
    if n > 0 {
      ChainStaysOnHost(urls, locations, policy, n - 1);
      ChainStep(urls, locations, policy, n - 1);
    }
  }
}
