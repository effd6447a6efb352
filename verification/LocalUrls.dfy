/** Local URLs in src/utils/url.rs: validation, the printed form, and redirects. */
module LocalUrls {
  import opened Wrappers
  import opened Text

  // ---------------------------------------------------------------------------------------------
  // Characters.

  /** The Unicode property White_Space, as `str::trim` uses it. */
  predicate IsSpace(c: char) {
    var n := c as int;
    || 0x9 <= n <= 0xD || n == 0x20 || n == 0x85 || n == 0xA0 || n == 0x1680 || 0x2000 <= n <= 0x200A
    || n == 0x2028 || n == 0x2029 || n == 0x202F || n == 0x205F || n == 0x3000
  }

  predicate IsControl(c: char) { (c as int) < 0x20 || 0x7F <= (c as int) < 0xA0 }

  predicate HasControl(s: string) { exists i :: 0 <= i < |s| && IsControl(s[i]) }

  function TrimStart(s: string): string { if s != "" && IsSpace(s[0]) then TrimStart(s[1..]) else s }

  function TrimEnd(s: string): string { if s != "" && IsSpace(s[|s| - 1]) then TrimEnd(s[..|s| - 1]) else s }

  function Trim(s: string): string { TrimEnd(TrimStart(s)) }

  predicate Trimmed(s: string) { s == "" || (!IsSpace(s[0]) && !IsSpace(s[|s| - 1])) }

  lemma {:induction false} TrimStartCuts(s: string)
    ensures |TrimStart(s)| <= |s| && TrimStart(s) == s[|s| - |TrimStart(s)|..]
    ensures TrimStart(s) != "" ==> !IsSpace(TrimStart(s)[0])
  {
    if s != "" && IsSpace(s[0]) {
      TrimStartCuts(s[1..]);
    }
  }

  lemma {:induction false} TrimEndCuts(s: string)
    ensures TrimEnd(s) <= s
    ensures TrimEnd(s) != "" ==> !IsSpace(TrimEnd(s)[|TrimEnd(s)| - 1])
  {
    if s != "" && IsSpace(s[|s| - 1]) {
      TrimEndCuts(s[..|s| - 1]);
    }
  }

  lemma TrimIsTrimmed(s: string)
    ensures Trimmed(Trim(s)) && |Trim(s)| <= |s| && forall c :: c in Trim(s) ==> c in s
  {
    TrimStartCuts(s);
    TrimEndCuts(TrimStart(s));
    var t := TrimStart(s);
    if Trim(s) != "" {
      assert Trim(s)[0] == t[0];
    }
    assert t == s[|s| - |t|..];
    assert Trim(s) == t[..|Trim(s)|];
  }

  lemma TrimOfTrimmed(s: string)
    requires Trimmed(s)
    ensures Trim(s) == s
  {
  }

  function LowerChar(c: char): char { if 'A' <= c <= 'Z' then (c as int + 32) as char else c }

  function Lower(s: string): (t: string)
    ensures |t| == |s| && forall i :: 0 <= i < |s| ==> t[i] == LowerChar(s[i])
  {
    if s == "" then "" else [LowerChar(s[0])] + Lower(s[1..])
  }

  lemma LowerAgain(s: string)
    ensures Lower(Lower(s)) == Lower(s)
  {
  }

  /** The length in UTF-8. */
  function ByteLength(s: string): nat {
    if s == "" then 0 else
      var n := s[0] as int;
      (if n < 0x80 then 1 else if n < 0x800 then 2 else if n < 0x10000 then 3 else 4) + ByteLength(s[1..])
  }

  /** Index of the last c in s, or -1. */
  function LastIndexOf(s: string, c: char): (i: int)
    ensures -1 <= i < |s| && (i >= 0 ==> s[i] == c)
    ensures forall k :: i < k < |s| ==> s[k] != c
  {
    if s == "" then -1 else if s[|s| - 1] == c then |s| - 1 else LastIndexOf(s[..|s| - 1], c)
  }

  /** Index of the first "://" in s. */
  function FindSeparator(s: string): (i: Option<nat>)
    ensures i.Some? ==> i.value + 3 <= |s| && s[i.value..i.value + 3] == "://"
  {
    if |s| < 3 then None
    else if s[..3] == "://" then Some(0)
    else match FindSeparator(s[1..])
         case None => None
         case Some(i) => Some(i + 1)
  }

  lemma {:induction false} FindAfter(a: string, b: string)
    requires ':' !in a
    ensures FindSeparator(a + "://" + b) == Some(|a|)
  {
    var s := a + "://" + b;
    if a == "" {
      assert s[..3] == "://";
    } else {
      assert s[0] == a[0] && s[..3][0] == a[0];
      assert s[1..] == a[1..] + "://" + b;
      FindAfter(a[1..], b);
    }
  }

  // ---------------------------------------------------------------------------------------------
  // Validation.

  const MAX_URL_CHARS: nat := 2048

  /** `loopbackIp` tells which IP literals are loopback or unspecified addresses. */
  datatype Policy = Policy(allowExternal: bool, devHosts: seq<string>, localTlsAllowed: bool,
    loopbackIp: string -> bool)

  datatype Url = Url(
    scheme: string, host: string, hostHeader: string, port: nat, path: string,
    isLoopback: bool, isLocal: bool, original: string)

  datatype UrlError =
    | EmptyUrl | TooLong | ControlCharacter | NoScheme | BadScheme | TlsDisabled | EmptyHost | BadAuthority | BadPort
    | PathTooLong | ExternalHost

  predicate IsAddressChar(c: char) { '0' <= c <= '9' || 'a' <= c <= 'f' || 'A' <= c <= 'F' || c == ':' || c == '.' }

  /** IP literals consist of hexadecimal digits, colons and dots. */
  predicate IsAddressText(h: string) { h != "" && forall c :: c in h ==> IsAddressChar(c) }

  predicate IsLoopbackHost(h: string, policy: Policy) {
    Lower(h) == "localhost" || (IsAddressText(h) && policy.loopbackIp(h))
  }

  predicate IsDevHost(h: string, policy: Policy) { exists d :: d in policy.devHosts && Lower(d) == Lower(h) }

  predicate Permitted(h: string, policy: Policy)
  {
    IsLoopbackHost(h, policy) || IsDevHost(h, policy) || policy.allowExternal
  }

  function ParsePort(s: string): (r: Result<nat, UrlError>)
    ensures r.Ok? ==> 0 < r.value < 65536
  {
    match ParseInt(s, 0, 65536)
    case None => Err(BadPort)
    case Some(p) => if p == 0 then Err(BadPort) else Ok(p)
  }

  /** `v6]` or `v6]:port`, after the opening bracket. */
  function ParseBracketed(rest: string): (r: Result<(string, Option<nat>), UrlError>)
    ensures r.Ok? && r.value.1.Some? ==> 0 < r.value.1.value < 65536
  {
    var end := IndexOf(rest, ']');
    if end == |rest| then Err(BadAuthority)
    else if end == 0 then Err(EmptyHost)
    else
      var tail := rest[end + 1..];
      if tail == "" then Ok((rest[..end], None))
      else if tail[0] != ':' then Err(BadAuthority)
      else match ParsePort(tail[1..])
           case Err(e) => Err(e)
           case Ok(p) => Ok((rest[..end], Some(p)))
  }

  function ParseNamed(a: string): (r: Result<(string, Option<nat>), UrlError>)
    requires ':' in a
    ensures r.Ok? && r.value.1.Some? ==> 0 < r.value.1.value < 65536
  {
    var i := LastIndexOf(a, ':');
    assert i >= 0;
    var host, port := a[..i], a[i + 1..];
    if host == "" || port == "" then Err(BadAuthority)
    else if ':' in host then Err(BadAuthority)
    else match ParsePort(port)
         case Err(e) => Err(e)
         case Ok(p) => Ok((host, Some(p)))
  }

  function ParseAuthority(a: string): (r: Result<(string, Option<nat>), UrlError>)
    ensures r.Ok? && r.value.1.Some? ==> 0 < r.value.1.value < 65536
  {
    if a != "" && a[0] == '[' then ParseBracketed(a[1..])
    else if ':' in a then ParseNamed(a)
    else Ok((a, None))
  }

  function BracketIfV6(h: string): string { if ':' in h then "[" + h + "]" else h }

  function Header(h: string, port: Option<nat>): string {
    match port
    case None => BracketIfV6(h)
    case Some(p) => BracketIfV6(h) + ":" + Decimal(p)
  }

  function DefaultPort(scheme: string): nat { if scheme == "https" then 443 else 80 }

  function Accept(scheme: string, host: string, port: Option<nat>, path: string, original: string,
      policy: Policy): Result<Url, UrlError> {
    if ByteLength(path) > MAX_URL_CHARS then Err(PathTooLong)
    else
      var loopback := IsLoopbackHost(host, policy);
      var local := loopback || IsDevHost(host, policy);
      if !local && !policy.allowExternal then Err(ExternalHost)
      else Ok(Url(scheme, host, Header(host, port), if port.Some? then port.value else DefaultPort(scheme),
                  path, loopback, local, original))
  }

  /** From the first slash on, or the root. */
  function PathOf(rest: string): string {
    var cut := IndexOf(rest, '/');
    if cut < |rest| then rest[cut..] else "/"
  }

  function ValidateRest(scheme: string, rest: string, original: string, policy: Policy): Result<Url, UrlError> {
    var authority := Trim(rest[..IndexOf(rest, '/')]);
    var path := PathOf(rest);
    if authority == "" then Err(EmptyHost)
    else match ParseAuthority(authority)
         case Err(e) => Err(e)
         case Ok((host, port)) => Accept(scheme, Lower(host), port, path, original, policy)
  }

  function Validate(input: string, policy: Policy): Result<Url, UrlError> {
    var raw := Trim(input);
    if raw == "" then Err(EmptyUrl)
    else if |raw| > MAX_URL_CHARS then Err(TooLong)
    else if HasControl(raw) then Err(ControlCharacter)
    else match FindSeparator(raw)
         case None => Err(NoScheme)
         case Some(i) =>
           var scheme := Lower(Trim(raw[..i]));
           if scheme != "http" && scheme != "https" then Err(BadScheme)
           else if scheme == "https" && !policy.localTlsAllowed then Err(TlsDisabled)
           else ValidateRest(scheme, raw[i + 3..], raw, policy)
  }

  // ---------------------------------------------------------------------------------------------
  // What every accepted URL satisfies.

  predicate SchemeAllowed(scheme: string, policy: Policy) {
    scheme == "http" || (scheme == "https" && policy.localTlsAllowed)
  }

  /** A path as validation leaves it. */
  predicate CleanPath(path: string) {
    path != "" && path[0] == '/' && !IsSpace(path[|path| - 1]) && !HasControl(path)
  }

  /** The URL obeys the policy: its scheme, its host, and the flags that say why the host is permitted. */
  predicate Obeys(u: Url, policy: Policy) {
    && SchemeAllowed(u.scheme, policy)
    && Permitted(u.host, policy)
    && u.isLoopback == IsLoopbackHost(u.host, policy)
    && u.isLocal == (u.isLoopback || IsDevHost(u.host, policy))
  }

  lemma CutPath(raw: string, from: nat)
    requires from < |raw| && raw[from] == '/' && Trimmed(raw) && !HasControl(raw)
    ensures CleanPath(raw[from..])
  {
    var path := raw[from..];
    assert path[|path| - 1] == raw[|raw| - 1];
    assert forall k :: 0 <= k < |path| ==> path[k] == raw[from + k];
  }

  lemma AcceptedShape(scheme: string, host: string, port: Option<nat>, path: string, original: string,
      policy: Policy, u: Url)
    requires Accept(scheme, Lower(host), port, path, original, policy) == Ok(u) && SchemeAllowed(scheme, policy)
    ensures Obeys(u, policy) && Lower(u.host) == u.host
    ensures u.path == path && ByteLength(path) <= MAX_URL_CHARS
    ensures u.hostHeader == Header(u.host, port) && u.port == if port.Some? then port.value else DefaultPort(u.scheme)
  {
    LowerAgain(host);
  }

  lemma RootIsClean()
    ensures CleanPath("/")
  {
  }

  lemma PathIsClean(raw: string, from: nat)
    requires from <= |raw| && Trimmed(raw) && !HasControl(raw)
    ensures CleanPath(PathOf(raw[from..]))
  {
    var rest := raw[from..];
    var cut := IndexOf(rest, '/');
    if cut < |rest| {
      assert rest[cut..] == raw[from + cut..];
      CutPath(raw, from + cut);
    } else {
      RootIsClean();
    }
  }

  /** What every accepted URL satisfies; `port` is the port that was written, if any. */
  predicate IsAccepted(u: Url, port: Option<nat>, policy: Policy) {
    && Obeys(u, policy) && Lower(u.host) == u.host
    && CleanPath(u.path) && ByteLength(u.path) <= MAX_URL_CHARS
    && (port.Some? ==> 0 < port.value < 65536)
    && u.hostHeader == Header(u.host, port) && u.port == if port.Some? then port.value else DefaultPort(u.scheme)
  }

  lemma RestShape(scheme: string, raw: string, from: nat, policy: Policy, u: Url) returns (port: Option<nat>)
    requires from <= |raw| && Trimmed(raw) && !HasControl(raw) && SchemeAllowed(scheme, policy)
    requires ValidateRest(scheme, raw[from..], raw, policy) == Ok(u)
    ensures IsAccepted(u, port, policy)
  {
    var rest := raw[from..];
    var cut := IndexOf(rest, '/');
    var parsed := ParseAuthority(Trim(rest[..cut]));
    port := parsed.value.1;
    AcceptedShape(scheme, parsed.value.0, port, PathOf(rest), raw, policy, u);
    PathIsClean(raw, from);
  }

  lemma ValidatedShape(input: string, policy: Policy, u: Url) returns (port: Option<nat>)
    requires Validate(input, policy) == Ok(u)
    ensures IsAccepted(u, port, policy)
  {
    var raw := Trim(input);
    TrimIsTrimmed(input);
    var i := FindSeparator(raw).value;
    port := RestShape(Lower(Trim(raw[..i])), raw, i + 3, policy, u);
  }

  // ---------------------------------------------------------------------------------------------
  // Parsing what was printed.

  predicate IsPlain(c: char) { c != '[' && c != ']' && c != '/' && !IsSpace(c) && !IsControl(c) }

  /** A host that survives printing: nothing in it is special to the parser. */
  predicate CleanHost(h: string) {
    h != "" && Lower(h) == h && forall c :: c in h ==> IsPlain(c)
  }

  lemma NameIsPlain(c: char)
    requires c in "localhost"
    ensures IsPlain(c)
  {
    assert 'a' <= c <= 'z';
  }

  lemma AddressIsPlain(c: char)
    requires IsAddressChar(c)
    ensures IsPlain(c)
  {
  }

  lemma LoopbackIsClean(h: string, policy: Policy)
    requires IsLoopbackHost(h, policy) && Lower(h) == h
    ensures CleanHost(h)
  {
    forall c | c in h ensures IsPlain(c) {
      if h == "localhost" {
        NameIsPlain(c);
      } else {
        AddressIsPlain(c);
      }
    }
  }

  lemma HeaderChars(h: string, port: Option<nat>, c: char)
    requires CleanHost(h) && c in Header(h, port)
    ensures c != '/' && !IsSpace(c) && !IsControl(c)
  {
    if c !in h && c != '[' && c != ']' && c != ':' {
      var d := Decimal(port.value);
      assert c in d;
      var k :| 0 <= k < |d| && d[k] == c;
      assert IsDigit(d[k]);
    }
  }

  lemma PortParses(p: nat)
    requires 0 < p < 65536
    ensures ParsePort(Decimal(p)) == Ok(p)
  {
    ParsePad(p, 1, 0, 65536);
  }

  lemma LastIndexIs(s: string, c: char, i: nat)
    requires i < |s| && s[i] == c && forall k :: i < k < |s| ==> s[k] != c
    ensures LastIndexOf(s, c) == i
  {
    var j := LastIndexOf(s, c);
  }

  lemma MiddleCut(a: string, sep: string, b: string)
    requires |sep| == 1
    ensures var s := a + sep + b;
      && |a| < |s| && s[|a|] == sep[0] && s[..|a|] == a && s[|a| + 1..] == b
      && forall k :: |a| < k < |s| ==> s[k] == b[k - |a| - 1]
  {
  }

  lemma DigitsHaveNoColon(d: string)
    requires AllDigits(d)
    ensures forall k :: 0 <= k < |d| ==> d[k] != ':'
  {
    forall k | 0 <= k < |d| ensures d[k] != ':' {
      assert IsDigit(d[k]);
    }
  }

  lemma LastColon(h: string, d: string)
    requires forall k :: 0 <= k < |d| ==> d[k] != ':'
    ensures LastIndexOf(h + ":" + d, ':') == |h|
  {
    MiddleCut(h, ":", d);
    LastIndexIs(h + ":" + d, ':', |h|);
  }

  lemma BracketedRest(h: string, port: Option<nat>, tail: string)
    requires h != "" && ']' !in h && (port.Some? ==> 0 < port.value < 65536)
    requires tail == if port.None? then "" else ":" + Decimal(port.value)
    ensures ParseBracketed(h + "]" + tail) == Ok((h, port))
  {
    IndexOfAfter(h, ']', tail);
    MiddleCut(h, "]", tail);
    if port.Some? {
      PortParses(port.value);
      assert tail[1..] == Decimal(port.value);
    }
  }

  lemma AfterFirst(first: string, a: string, b: string, c: string)
    requires |first| == 1
    ensures first + a + b + c != "" && (first + a + b + c)[0] == first[0] && (first + a + b + c)[1..] == a + b + c
  {
    assert first + a + b + c == first + (a + b + c);
  }

  lemma BracketedParses(h: string, port: Option<nat>, tail: string)
    requires CleanHost(h) && (port.Some? ==> 0 < port.value < 65536)
    requires tail == if port.None? then "" else ":" + Decimal(port.value)
    ensures ParseAuthority("[" + h + "]" + tail) == Ok((h, port))
  {
    BracketedRest(h, port, tail);
    AfterFirst("[", h, "]", tail);
  }

  lemma NamedParses(h: string, p: nat)
    requires CleanHost(h) && ':' !in h && 0 < p < 65536
    ensures ParseAuthority(h + ":" + Decimal(p)) == Ok((h, Some(p)))
  {
    var a := h + ":" + Decimal(p);
    assert h[0] in h && a[0] == h[0];
    DigitsHaveNoColon(Decimal(p));
    LastColon(h, Decimal(p));
    MiddleCut(h, ":", Decimal(p));
    PortParses(p);
    assert a[|h|] == ':' && ':' in a;
  }

  lemma HeaderForm(h: string, port: Option<nat>)
    ensures ':' in h ==> Header(h, port) == "[" + h + "]" + (if port.None? then "" else ":" + Decimal(port.value))
    ensures ':' !in h && port.Some? ==> Header(h, port) == h + ":" + Decimal(port.value)
    ensures ':' !in h && port.None? ==> Header(h, port) == h
    ensures h != "" ==> Header(h, port) != ""
  {
  }

  lemma BareParses(h: string)
    requires CleanHost(h) && ':' !in h
    ensures ParseAuthority(h) == Ok((h, None))
  {
    assert h[0] in h;
  }

  /** The authority that validation prints parses to its parts. */
  lemma HeaderParses(h: string, port: Option<nat>)
    requires CleanHost(h) && (port.Some? ==> 0 < port.value < 65536)
    ensures Header(h, port) != ""
    ensures ParseAuthority(Header(h, port)) == Ok((h, port))
  {
    HeaderForm(h, port);
    var a := Header(h, port);
    if ':' in h {
      BracketedParses(h, port, if port.None? then "" else ":" + Decimal(port.value));
    } else {
      match port
      case None => BareParses(h);
      case Some(p) => NamedParses(h, p);
    }
  }

  lemma SchemeIsPlain(scheme: string)
    requires scheme == "http" || scheme == "https"
    ensures ':' !in scheme && Lower(Trim(scheme)) == scheme && !HasControl(scheme) && scheme[0] == 'h'
  {
    TrimOfTrimmed(scheme);
  }

  function Full(scheme: string, host: string, port: Option<nat>, path: string): string {
    scheme + "://" + Header(host, port) + path
  }

  lemma ControlInParts(a: string, b: string)
    ensures HasControl(a + b) <==> HasControl(a) || HasControl(b)
  {
    if HasControl(a) {
      var k :| 0 <= k < |a| && IsControl(a[k]);
      assert (a + b)[k] == a[k];
    }
    if HasControl(b) {
      var k :| 0 <= k < |b| && IsControl(b[k]);
      assert (a + b)[|a| + k] == b[k];
    }
  }

  lemma FullControl(scheme: string, host: string, port: Option<nat>, path: string)
    requires (scheme == "http" || scheme == "https") && CleanHost(host)
    ensures HasControl(Full(scheme, host, port, path)) <==> HasControl(path)
  {
    var header := Header(host, port);
    SchemeIsPlain(scheme);
    ControlInParts(scheme + "://" + header, path);
    ControlInParts(scheme + "://", header);
    ControlInParts(scheme, "://");
    forall k | 0 <= k < |header| ensures !IsControl(header[k]) {
      HeaderChars(host, port, header[k]);
    }
    assert !HasControl("://");
  }

  lemma FullCut(scheme: string, rest: string)
    requires (scheme == "http" || scheme == "https") && rest != ""
    ensures var raw := scheme + "://" + rest;
      && raw[0] == 'h' && raw[|raw| - 1] == rest[|rest| - 1]
      && FindSeparator(raw) == Some(|scheme|) && raw[..|scheme|] == scheme && raw[|scheme| + 3..] == rest
  {
    SchemeIsPlain(scheme);
    FindAfter(scheme, rest);
    assert |scheme| >= 4;
  }

  lemma AuthorityOfHeader(host: string, port: Option<nat>, path: string)
    requires CleanHost(host) && (port.Some? ==> 0 < port.value < 65536) && path != "" && path[0] == '/'
    ensures var rest := Header(host, port) + path;
      && IndexOf(rest, '/') == |Header(host, port)| < |rest|
      && Trim(rest[..|Header(host, port)|]) == Header(host, port)
      && rest[|Header(host, port)|..] == path
  {
    var header := Header(host, port);
    HeaderParses(host, port);
    forall c | c in header ensures c != '/' && !IsSpace(c) {
      HeaderChars(host, port, c);
    }
    assert path == "/" + path[1..];
    assert header + path == header + "/" + path[1..];
    IndexOfAfter(header, '/', path[1..]);
    assert header[0] in header && header[|header| - 1] in header;
    TrimOfTrimmed(header);
    assert (header + path)[..|header|] == header;
  }

  lemma FullForm(scheme: string, host: string, port: Option<nat>, path: string)
    requires (scheme == "http" || scheme == "https") && path != "" && !IsSpace(path[|path| - 1])
    ensures var raw := Full(scheme, host, port, path);
      && raw != "" && Trimmed(raw) && FindSeparator(raw) == Some(|scheme|)
      && raw[..|scheme|] == scheme && raw[|scheme| + 3..] == Header(host, port) + path
  {
    var raw, rest := Full(scheme, host, port, path), Header(host, port) + path;
    assert raw == scheme + "://" + rest;
    FullCut(scheme, rest);
  }

  lemma PlainValidate(raw: string, i: nat, scheme: string, policy: Policy)
    requires raw != "" && Trimmed(raw) && FindSeparator(raw) == Some(i) && raw[..i] == scheme
               && SchemeAllowed(scheme, policy)
    ensures Validate(raw, policy) ==
            if |raw| > MAX_URL_CHARS then Err(TooLong)
            else if HasControl(raw) then Err(ControlCharacter)
            else ValidateRest(scheme, raw[i + 3..], raw, policy)
  {
    TrimOfTrimmed(raw);
    SchemeIsPlain(scheme);
  }

  lemma RestIsFound(scheme: string, host: string, port: Option<nat>, path: string, original: string, policy: Policy)
    requires CleanHost(host) && (port.Some? ==> 0 < port.value < 65536) && path != "" && path[0] == '/'
    ensures ValidateRest(scheme, Header(host, port) + path, original, policy)
              == Accept(scheme, host, port, path, original, policy)
  {
    AuthorityOfHeader(host, port, path);
    HeaderParses(host, port);
  }

  /** Validating a URL put together from good parts finds the parts again. */
  lemma PartsAreFound(scheme: string, host: string, port: Option<nat>, path: string, policy: Policy)
    requires SchemeAllowed(scheme, policy) && CleanHost(host) && (port.Some? ==> 0 < port.value < 65536)
    requires path != "" && path[0] == '/' && !IsSpace(path[|path| - 1])
    ensures var raw := Full(scheme, host, port, path);
            Validate(raw, policy) ==
            if |raw| > MAX_URL_CHARS then Err(TooLong)
            else if HasControl(path) then Err(ControlCharacter)
            else Accept(scheme, host, port, path, raw, policy)
  {
    var raw := Full(scheme, host, port, path);
    FullForm(scheme, host, port, path);
    FullControl(scheme, host, port, path);
    PlainValidate(raw, |scheme|, scheme, policy);
    RestIsFound(scheme, host, port, path, raw, policy);
  }

  /** `scheme://host_header path_and_query`. */
  function Printed(u: Url): string { u.scheme + "://" + u.hostHeader + u.path }

  /**
   * An accepted URL with a clean host, printed and validated again, is the same URL, if the printed form is within
   * the cap.
   */
  lemma PrintedIsValid(u: Url, port: Option<nat>, policy: Policy)
    requires IsAccepted(u, port, policy) && CleanHost(u.host)
    ensures Validate(Printed(u), policy) == if |Printed(u)| > MAX_URL_CHARS then Err(TooLong)
              else Ok(u.(original := Printed(u)))
  {
    PartsAreFound(u.scheme, u.host, port, u.path, policy);
  }

  /** In particular on every loopback URL. */
  lemma LoopbackRoundTrip(input: string, policy: Policy, u: Url)
    requires Validate(input, policy) == Ok(u) && u.isLoopback
    ensures Validate(Printed(u), policy) == Ok(u.(original := Printed(u))) <==> |Printed(u)| <= MAX_URL_CHARS
  {
    var port := ValidatedShape(input, policy, u);
    LoopbackIsClean(u.host, policy);
    PrintedIsValid(u, port, policy);
  }
}
