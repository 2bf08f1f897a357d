/** Resolution of the OBS endpoint from the region and the optional override of a ProviderConfig. */
module Endpoint {
  import opened Text

  datatype Resolution = Endpoint(url: string) | InvalidEndpoint

  /** The parts of a URL that ResolveEndpoint inspects (sections 3.1 and 3.2 of RFC 3986). */
  datatype Url = Url(scheme: string, host: string, path: string, query: string, fragment: string)

  // ----- String helpers -----

  predicate Contains(s: string, part: string) {
    part <= s || (s != "" && Contains(s[1..], part))
  }

  /** The part of s before the first occurrence of c, or all of s. */
  function Before(s: string, c: char): (r: string)
    ensures |r| <= |s| && r == s[..|r|]
  {
    if s == "" || s[0] == c then "" else [s[0]] + Before(s[1..], c)
  }

  /** The part of s after the first occurrence of c, or nothing. */
  function After(s: string, c: char): string {
    var n := |Before(s, c)|;
    if n == |s| then "" else s[n + 1..]
  }

  function ParseUrl(s: string): Url {
    var main := Before(s, '#');
    ParseMain(Before(main, '?')).(query := After(main, '?'), fragment := After(s, '#'))
  }

  /** Scheme, authority and path of a URL without query and fragment. */
  function ParseMain(s: string): Url {
    if ':' in s then ParseHierarchy(Before(s, ':'), After(s, ':')) else ParseHierarchy("", s)
  }

  function ParseHierarchy(scheme: string, rest: string): Url {
    if "//" <= rest then
      var host := Before(rest[2..], '/');
      Url(scheme, host, rest[2 + |host|..], "", "")
    else
      Url(scheme, "", rest, "", "")
  }

  /** The endpoint with its default and its default scheme filled in. */
  function Complete(region: string, endpoint: string): string {
    var e := if endpoint == "" then Derived(region) else endpoint;
    if Contains(e, SEPARATOR) then e else HTTPS + SEPARATOR + e
  }

  const HTTPS := "https"
  const SEPARATOR := "://"

  function DerivedHost(region: string): string {
    "obs." + region + ".otc.t-systems.com"
  }

  function Derived(region: string): string {
    HTTPS + SEPARATOR + DerivedHost(region)
  }

  /** ResolveEndpoint after parsing. */
  function Check(u: Url): Resolution {
    if u.scheme != HTTPS then InvalidEndpoint
    else if u.host == "" then InvalidEndpoint
    else if u.path != "" && u.path != "/" then InvalidEndpoint
    else if u.query != "" || u.fragment != "" then InvalidEndpoint
    else Endpoint(TrimRight(u.scheme + SEPARATOR + u.host, c => c == '/'))
  }

  function ResolveEndpoint(region: string, endpoint: string): Resolution {
    Check(ParseUrl(Complete(TrimSpace(region), TrimSpace(endpoint))))
  }

  // ----- The language admitted by the custom resource -----

  predicate Digit(c: char) { '0' <= c <= '9' }
  predicate Lower(c: char) { 'a' <= c <= 'z' }
  predicate Upper(c: char) { 'A' <= c <= 'Z' }
  predicate HostChar(c: char) { Digit(c) || Lower(c) || Upper(c) || c == '.' || c == '-' }

  /** ^[a-z0-9]+(-[a-z0-9]+)*$ */
  predicate AdmittedRegion(r: string) {
    && r != "" && r[0] != '-' && r[|r| - 1] != '-'
    && (forall i | 0 <= i < |r| :: Digit(r[i]) || Lower(r[i]) || r[i] == '-')
    && (forall i | 0 <= i < |r| - 1 :: !(r[i] == '-' && r[i + 1] == '-'))
  }

  /** One way to write an endpoint that matches ^(https://)?[A-Za-z0-9.-]+(:[0-9]+)?/?$ */
  datatype Spelling = Spelling(https: bool, host: string, port: string, slash: bool) {
    predicate Admitted() {
      && host != "" && (forall c | c in host :: HostChar(c))
      && (port == "" || (|port| > 1 && port[0] == ':' && forall i | 1 <= i < |port| :: Digit(port[i])))
    }

    function Authority(): string {
      host + port
    }

    function Spelled(): string {
      (if https then HTTPS + SEPARATOR else "") + Authority() + (if slash then "/" else "")
    }
  }

  predicate AuthorityChars(s: string) {
    forall i | 0 <= i < |s| :: HostChar(s[i]) || s[i] == ':'
  }

  // ----- Proofs -----

  lemma {:induction false} BeforeAbsent(s: string, c: char)
    requires c !in s
    ensures Before(s, c) == s
  {
    if s != "" {
      BeforeAbsent(s[1..], c);
    }
  }

  lemma {:induction false} BeforeFirst(a: string, c: char, b: string)
    requires c !in a
    ensures Before(a + [c] + b, c) == a
  {
    if a != "" {
      BeforeFirst(a[1..], c, b);
      assert (a + [c] + b)[1..] == a[1..] + [c] + b;
    }
  }

  lemma {:induction false} ContainsInfix(a: string, part: string, b: string)
    ensures Contains(a + part + b, part)
  {
    if a == "" {
      assert a + part + b == part + b;
    } else {
      ContainsInfix(a[1..], part, b);
      assert (a + part + b)[1..] == a[1..] + part + b;
    }
  }

  /** A separator needs a slash that another slash follows. */
  lemma {:induction false} NoSeparator(s: string)
    requires forall i | 0 <= i < |s| - 1 :: s[i] != '/'
    ensures !Contains(s, SEPARATOR)
  {
    assert !(SEPARATOR <= s) by {
      assert |s| > 2 ==> s[1] != '/';
      assert SEPARATOR[1] == '/';
    }
    if s != "" {
      NoSeparator(s[1..]);
    }
  }

  predicate Clean(s: string) {
    forall c | c in s :: !Space(c) && c != '#' && c != '?'
  }

  lemma {:induction false} CleanIsUntrimmed(s: string)
    requires Clean(s)
    ensures TrimSpace(s) == s
  {
  }

  lemma ParseHost(scheme: string, authority: string, path: string)
    requires AuthorityChars(authority)
    requires path == "" || path == "/"
    ensures ParseHierarchy(scheme, "//" + authority + path) == Url(scheme, authority, path, "", "")
  {
    var rest := "//" + authority + path;
    var x := authority + path;
    assert rest[2..] == x;
    if path == "" {
      assert x == authority;
      BeforeAbsent(authority, '/');
    } else {
      assert x == authority + ['/'] + "";
      BeforeFirst(authority, '/', "");
    }
    assert rest[2 + |authority|..] == path;
  }

  lemma ParseScheme(scheme: string, rest: string)
    requires ':' !in scheme
    ensures ParseMain(scheme + [':'] + rest) == ParseHierarchy(scheme, rest)
  {
    var s := scheme + [':'] + rest;
    BeforeFirst(scheme, ':', rest);
    assert s[|scheme|] == ':';
    assert s[|scheme| + 1..] == rest;
  }

  lemma ParseClean(s: string)
    requires Clean(s)
    ensures ParseUrl(s) == ParseMain(s).(query := "", fragment := "")
  {
    BeforeAbsent(s, '#');
    BeforeAbsent(s, '?');
  }

  lemma ParseCleanWithScheme(s: string, scheme: string, rest: string)
    requires Clean(s) && ':' !in scheme && s == scheme + [':'] + rest
    ensures ParseUrl(s) == ParseHierarchy(scheme, rest).(query := "", fragment := "")
  {
    ParseClean(s);
    ParseScheme(scheme, rest);
  }

  lemma ComposedIsClean(authority: string, path: string)
    requires AuthorityChars(authority)
    requires path == "" || path == "/"
    ensures Clean(HTTPS + SEPARATOR + authority + path)
  {
    var front, back := HTTPS + SEPARATOR, authority + path;
    assert HTTPS + SEPARATOR + authority + path == front + back;
    assert Clean(authority) && Clean(path) && Clean(back);
    assert forall c | c in front :: c in HTTPS || c in SEPARATOR;
    assert Clean(HTTPS) && Clean(SEPARATOR);
  }

  /** Parsing inverts the composition of a URL from scheme, authority and path. */
  lemma ParseComposed(authority: string, path: string)
    requires AuthorityChars(authority)
    requires path == "" || path == "/"
    ensures ParseUrl(HTTPS + SEPARATOR + authority + path) == Url(HTTPS, authority, path, "", "")
  {
    var s := HTTPS + SEPARATOR + authority + path;
    var rest := "//" + authority + path;
    ComposedIsClean(authority, path);
    assert s == HTTPS + [':'] + rest by {
      assert SEPARATOR == [':'] + "//";
    }
    ParseCleanWithScheme(s, HTTPS, rest);
    ParseHost(HTTPS, authority, path);
  }

  lemma NothingToTrim(authority: string)
    requires authority != "" && AuthorityChars(authority)
    ensures TrimRight(HTTPS + SEPARATOR + authority, c => c == '/') == HTTPS + SEPARATOR + authority
  {
    var url := HTTPS + SEPARATOR + authority;
    assert url[|url| - 1] == authority[|authority| - 1] != '/';
  }

  lemma ResolveComposed(authority: string, path: string)
    requires authority != "" && AuthorityChars(authority)
    requires path == "" || path == "/"
    ensures Check(ParseUrl(HTTPS + SEPARATOR + authority + path)) == Endpoint(HTTPS + SEPARATOR + authority)
  {
    ParseComposed(authority, path);
    NothingToTrim(authority);
  }

  lemma FullSpellingResolves(region: string, a: string, path: string)
    requires a != "" && AuthorityChars(a) && (path == "" || path == "/")
    ensures ResolveEndpoint(region, HTTPS + SEPARATOR + a + path) == Endpoint(HTTPS + SEPARATOR + a)
  {
    var full := HTTPS + SEPARATOR + a + path;
    ResolveComposed(a, path);
    ComposedIsClean(a, path);
    CleanIsUntrimmed(full);
    assert full == HTTPS + SEPARATOR + (a + path);
    ContainsInfix(HTTPS, SEPARATOR, a + path);
  }

  lemma BareIsPlain(a: string, path: string)
    requires AuthorityChars(a) && (path == "" || path == "/")
    ensures TrimSpace(a + path) == a + path && !Contains(a + path, SEPARATOR)
  {
    assert Clean(a + path);
    CleanIsUntrimmed(a + path);
    NoSeparator(a + path);
  }

  lemma BareSpellingResolves(region: string, a: string, path: string)
    requires a != "" && AuthorityChars(a) && (path == "" || path == "/")
    ensures ResolveEndpoint(region, a + path) == Endpoint(HTTPS + SEPARATOR + a)
  {
    ResolveComposed(a, path);
    BareIsPlain(a, path);
    assert HTTPS + SEPARATOR + a + path == HTTPS + SEPARATOR + (a + path);
  }

  lemma AuthorityIsPlain(sp: Spelling)
    requires sp.Admitted()
    ensures AuthorityChars(sp.Authority()) && sp.Authority() != ""
  {
  }

  /** Every admitted spelling resolves to https:// and its authority, whatever the region. */
  lemma AdmittedEndpointResolves(region: string, sp: Spelling)
    requires sp.Admitted()
    ensures ResolveEndpoint(region, sp.Spelled()) == Endpoint(HTTPS + SEPARATOR + sp.Authority())
    ensures ResolveEndpoint(region, sp.Spelled()) == Endpoint("https://" + sp.host + sp.port)
  {
    assert HTTPS + SEPARATOR == "https://" && "https://" + sp.host + sp.port == "https://" + (sp.host + sp.port);
    var a := sp.Authority();
    var path := if sp.slash then "/" else "";
    AuthorityIsPlain(sp);
    if sp.https {
      assert sp.Spelled() == HTTPS + SEPARATOR + a + path;
      FullSpellingResolves(region, a, path);
    } else {
      assert sp.Spelled() == a + path;
      BareSpellingResolves(region, a, path);
    }
  }

  /** Without an override the endpoint is derived from the region. */
  lemma DerivedEndpointResolves(region: string)
    requires AdmittedRegion(region)
    ensures ResolveEndpoint(region, "") == Endpoint(HTTPS + SEPARATOR + DerivedHost(region))
    ensures ResolveEndpoint(region, "") == Endpoint("https://obs." + region + ".otc.t-systems.com")
    ensures AuthorityChars(DerivedHost(region))
  {
    assert HTTPS + SEPARATOR + DerivedHost(region) == "https://obs." + region + ".otc.t-systems.com";
    assert AuthorityChars(region) && Clean(region);
    CleanIsUntrimmed(region);
    var host := DerivedHost(region);
    assert AuthorityChars("obs.") && AuthorityChars(".otc.t-systems.com");
    assert AuthorityChars(host);
    ResolveComposed(host, "");
    assert Derived(region) == HTTPS + SEPARATOR + host + "";
    ContainsInfix(HTTPS, SEPARATOR, host);
  }

  /** Two spellings name one endpoint, and so one cache key, exactly when their authorities agree. */
  lemma SpellingsShareEndpoint(region: string, region': string, a: Spelling, b: Spelling)
    requires a.Admitted() && b.Admitted()
    ensures ResolveEndpoint(region, a.Spelled()) == ResolveEndpoint(region', b.Spelled())
       <==> a.Authority() == b.Authority()
  {
    AdmittedEndpointResolves(region, a);
    AdmittedEndpointResolves(region', b);
    var n := |HTTPS + SEPARATOR|;
    assert (HTTPS + SEPARATOR + a.Authority())[n..] == a.Authority();
    assert (HTTPS + SEPARATOR + b.Authority())[n..] == b.Authority();
  }

  lemma CanonicalSpelling(region: string) returns (sp: Spelling)
    requires AdmittedRegion(region)
    ensures sp.Admitted() && sp.https && !sp.slash && sp.Authority() == DerivedHost(region)
  {
    sp := Spelling(true, DerivedHost(region), "", false);
    assert forall i | 0 <= i < |region| :: HostChar(region[i]);
    var front, back := "obs.", ".otc.t-systems.com";
    assert forall c | c in front :: HostChar(c);
    assert forall c | c in back :: HostChar(c);
  }

  predicate AdmittedEndpoint(endpoint: string, sp: Spelling) {
    sp.Admitted() && sp.Spelled() == endpoint
  }

  /** A resolved endpoint resolves to itself. */
  lemma ResolutionIsIdempotent(region: string, region': string, endpoint: string)
    requires (endpoint == "" && AdmittedRegion(region)) || exists sp :: AdmittedEndpoint(endpoint, sp)
    ensures var r := ResolveEndpoint(region, endpoint);
            r.Endpoint? && ResolveEndpoint(region', r.url) == r
  {
    var sp: Spelling;
    if endpoint == "" && AdmittedRegion(region) {
      DerivedEndpointResolves(region);
      sp := CanonicalSpelling(region);
    } else {
      sp :| AdmittedEndpoint(endpoint, sp);
      AdmittedEndpointResolves(region, sp);
      sp := sp.(https := true, slash := false);
    }
    AdmittedEndpointResolves(region', sp);
    assert sp.Spelled() == HTTPS + SEPARATOR + sp.Authority();
  }

  // ----- What is refused -----

  /** A part that follows the authority: a path, a query or a fragment. */
  predicate Trailer(s: string) {
    |s| >= 2 && s[0] in {'/', '?', '#'} && forall i | 0 < i < |s| :: HostChar(s[i])
  }

  lemma {:induction false} BeforeSplits(a: string, c: char, b: string)
    requires c !in a && b != "" && b[0] == c
    ensures Before(a + b, c) == a && After(a + b, c) == b[1..]
  {
    assert b == [c] + b[1..];
    assert a + b == a + [c] + b[1..];
    BeforeFirst(a, c, b[1..]);
    assert (a + [c] + b[1..])[|a| + 1..] == b[1..];
  }

  /** Only https is spoken. */
  lemma OtherSchemeIsRefused(region: string, authority: string)
    requires authority != "" && AuthorityChars(authority)
    ensures ResolveEndpoint(region, "http://" + authority) == InvalidEndpoint
  {
    var s := "http://" + authority;
    assert s == "http" + [':'] + ("//" + authority);
    assert Clean("http://") && Clean(authority);
    assert forall c | c in s :: c in "http://" || c in authority;
    assert Clean(s);
    CleanIsUntrimmed(s);
    assert "http://" == "http" + SEPARATOR;
    assert s == "http" + SEPARATOR + authority;
    ContainsInfix("http", SEPARATOR, authority);
    ParseCleanWithScheme(s, "http", "//" + authority);
  }

  lemma TrailerIsParsed(authority: string, t: string)
    requires AuthorityChars(authority) && Trailer(t)
    ensures var u := ParseUrl("https://" + authority + t);
            u.path == t || u.query == t[1..] || u.fragment == t[1..]
  {
    var base := "https://" + authority;
    var s := base + t;
    assert forall c | c in "https://" :: c != '?' && c != '#';
    assert forall c | c in authority :: HostChar(c) || c == ':';
    assert '?' !in base && '#' !in base;
    assert forall i | 0 < i < |t| :: t[i] != '?' && t[i] != '#';
    if t[0] == '#' {
      BeforeSplits(base, '#', t);
    } else if t[0] == '?' {
      assert '#' !in t && '#' !in s;
      BeforeAbsent(s, '#');
      BeforeSplits(base, '?', t);
    } else {
      PathIsParsed(authority, t);
    }
  }

  lemma PathInHierarchy(authority: string, t: string)
    requires AuthorityChars(authority) && Trailer(t) && t[0] == '/'
    ensures ParseHierarchy(HTTPS, "//" + (authority + t)).path == t
  {
    var rest := "//" + (authority + t);
    assert rest[2..] == authority + t;
    assert '/' !in authority;
    BeforeSplits(authority, '/', t);
    assert rest[2 + |authority|..] == t;
  }

  lemma ConcatIsClean(a: string, b: string)
    requires Clean(a) && Clean(b)
    ensures Clean(a + b)
  {
  }

  lemma PathIsParsed(authority: string, t: string)
    requires AuthorityChars(authority) && Trailer(t) && t[0] == '/'
    ensures ParseUrl("https://" + authority + t).path == t
  {
    assert Clean("https://") && Clean(authority) && Clean(t);
    ConcatIsClean("https://", authority);
    ConcatIsClean("https://" + authority, t);
    assert "https://" + authority + t == HTTPS + [':'] + ("//" + (authority + t));
    ParseCleanWithScheme("https://" + authority + t, HTTPS, "//" + (authority + t));
    PathInHierarchy(authority, t);
  }

  /** An endpoint is a scheme and an authority; a path, a query or a fragment is refused. */
  lemma TrailerIsRefused(region: string, authority: string, t: string)
    requires authority != "" && AuthorityChars(authority) && Trailer(t)
    ensures ResolveEndpoint(region, "https://" + authority + t) == InvalidEndpoint
  {
    var s := "https://" + authority + t;
    assert s[0] == 'h' && s[|s| - 1] == t[|t| - 1];
    TightIsUntrimmed(s);
    assert "https://" == HTTPS + SEPARATOR && s == HTTPS + SEPARATOR + (authority + t);
    ContainsInfix(HTTPS, SEPARATOR, authority + t);
    TrailerIsParsed(authority, t);
  }

  /** White space around the region and the endpoint does not matter. */
  lemma PaddingIsIgnored(p: string, q: string, region: string, endpoint: string)
    requires Blank(p) && Blank(q)
    ensures ResolveEndpoint(p + region + q, p + endpoint + q) == ResolveEndpoint(region, endpoint)
  {
    TrimOfPadded(p, region, q);
    TrimOfPadded(p, endpoint, q);
  }
}
