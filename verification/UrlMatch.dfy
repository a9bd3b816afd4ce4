/**
`isSimpleURLMatch` of `packages/kit/src/is-simple-url-match.ts` over parsed URLs.

The WHATWG parser is not part of this model: it is the parameter `parse`, answering nothing for
a string that is no URL, and what the code relies on is in the type `Url`. For http(s) the
printed origin is `protocol//host`, the host (port included) holds no authority terminator,
the path begins with `/`, and query and fragment begin with their own mark.
*/
module UrlMatch {
  import opened Basics
  import opened SimpleMatch

  datatype UrlParts = UrlParts(protocol: string, host: string, pathname: string, search: string, hash: string) {
    predicate IsHttp() {
      protocol == "http:" || protocol == "https:"
    }

    predicate Parsed() {
      IsHttp() ==>
        && host != "" && AuthorityLength(host) == |host|
        && pathname != "" && pathname[0] == '/'
        && (search == "" || search[0] == '?')
        && (hash == "" || hash[0] == '#')
    }

    function Origin(): string {
      protocol + "//" + host
    }

    function Tail(): string {
      pathname + search + hash
    }

    function Canonical(): string {
      Origin() + Tail()
    }
  }

  type Url = u: UrlParts | u.Parsed() witness UrlParts("https:", "h", "/", "", "")

  type Parser = string -> Option<Url>

  // ---------- the code ----------

  /** Every form an http(s) URL may be compared as. */
  function CanonicalizeHttpURL(url: Url): seq<string> {
    if url.pathname == "/" && url.search == "" && url.hash == ""
    then [url.Canonical(), url.Origin()] else [url.Canonical()]
  }

  function CanonicalizePattern(parse: Parser, pattern: string): string {
    match parse(pattern)
    case None => pattern
    case Some(url) => if url.IsHttp() then url.Canonical() else pattern
  }

  predicate IsSimpleURLMatch(parse: Parser, value: string, patterns: seq<string>) {
    match parse(value)
    case None => false
    case Some(url) =>
      if !url.IsHttp() then exists i :: 0 <= i < |patterns| && Glob(value, patterns[i])
      else exists i :: 0 <= i < |patterns| && MatchesPattern(url, CanonicalizePattern(parse, patterns[i]))
  }

  predicate MatchesPattern(url: Url, canonicalPattern: string) {
    exists j :: 0 <= j < |CanonicalizeHttpURL(url)| && Glob(CanonicalizeHttpURL(url)[j], canonicalPattern)
  }

  predicate IsTerminator(c: char) {
    c == '/' || c == '?' || c == '#' || c == '\\'
  }

  /** The length of the authority a text begins with. */
  function AuthorityLength(s: string): (n: nat)
    ensures n <= |s|
    ensures n < |s| ==> IsTerminator(s[n])
    ensures forall k :: 0 <= k < n ==> !IsTerminator(s[k])
  {
    if s == "" || IsTerminator(s[0]) then 0 else 1 + AuthorityLength(s[1..])
  }

  /** The position of the first `://`, if any. */
  function IndexOfSeparator(s: string): (r: Option<nat>)
    ensures r.Some? ==> r.value + 3 <= |s| && s[r.value..r.value + 3] == "://"
  {
    if |s| < 3 then None
    else if s[..3] == "://" then Some(0)
    else match IndexOfSeparator(s[1..])
      case None => None
      case Some(n) => Some(n + 1)
  }

  predicate HasGlobstar(s: string) {
    exists i :: 0 <= i < |s| && StarsAt(s, i)
  }

  /** A text up to the first character that ends an authority. */
  function Authority(s: string): string {
    s[..AuthorityLength(s)]
  }

  function BehindSeparator(pattern: string): string {
    match IndexOfSeparator(pattern) case None => pattern case Some(n) => pattern[n + 3..]
  }

  /** The text the write-time check reads. */
  function AuthorityText(pattern: string): string {
    Authority(BehindSeparator(pattern))
  }

  predicate PatternHasGlobstarInAuthority(pattern: string) {
    HasGlobstar(AuthorityText(pattern))
  }

  // ---------- a host wildcard stays in the host ----------

  /**
   The heart of the matter. Behind the scheme a candidate reads `host + rest` and a pattern
   `hostPattern + patternRest`, each rest being empty (candidate only) or opened by `/`. A match of the
   whole is a match of the host alone.
   */
  lemma {:induction false} HostConfinement(host: string, rest: string, hostPattern: string, patternRest: string)
    requires '/' !in host && '/' !in hostPattern
    requires rest == "" || rest[0] == '/'
    requires patternRest != "" && patternRest[0] == '/' && !HasGlobstar(hostPattern)
    requires Glob(host + rest, hostPattern + patternRest)
    ensures Glob(host, hostPattern)
    decreases |host| + |hostPattern|
  {
    var v, p := host + rest, hostPattern + patternRest;
    if hostPattern == "" {
      assert p == patternRest;
    } else {
      assert hostPattern[0] in hostPattern && p[0] == hostPattern[0];
      assert !StarsAt(hostPattern, 0) && !StarsAt(p, 0);
      assert p[1..] == hostPattern[1..] + patternRest;
      TailHasNoGlobstar(hostPattern);
      if host != "" {
        assert v[1..] == host[1..] + rest && host[0] in host;
      }
      if hostPattern[0] == '*' {
        if Glob(v, p[1..]) {
          HostConfinement(host, rest, hostPattern[1..], patternRest);
        } else {
          HostConfinement(host[1..], rest, hostPattern, patternRest);
        }
      } else {
        HostConfinement(host[1..], rest, hostPattern[1..], patternRest);
      }
    }
  }

  lemma TailHasNoGlobstar(s: string)
    requires s != "" && !HasGlobstar(s)
    ensures !HasGlobstar(s[1..])
  {
    forall i | 0 <= i < |s[1..]| ensures !StarsAt(s[1..], i) {
      assert !StarsAt(s, i + 1);
    }
  }

  /** The other direction, for a pattern that leaves everything behind the origin open. */
  lemma {:induction false} HostThenAnything(host: string, rest: string, hostPattern: string)
    requires '/' !in hostPattern && !HasGlobstar(hostPattern)
    requires rest == "" || rest[0] == '/'
    requires Glob(host, hostPattern)
    ensures Glob(host + rest, hostPattern + "/**")
    decreases |host| + |hostPattern|
  {
    var v, p := host + rest, hostPattern + "/**";
    if hostPattern == "" {
      assert v == rest && p == "/**" && p[1..] == "**";
      assert StarsAt(p[1..], 0);
    } else {
      assert hostPattern[0] in hostPattern && p[0] == hostPattern[0];
      assert !StarsAt(hostPattern, 0) && !StarsAt(p, 0);
      assert p[1..] == hostPattern[1..] + "/**";
      TailHasNoGlobstar(hostPattern);
      if host != "" {
        assert v[1..] == host[1..] + rest;
      }
      if hostPattern[0] == '*' && Glob(host, hostPattern[1..]) {
        HostThenAnything(host, rest, hostPattern[1..]);
      } else if hostPattern[0] == '*' {
        HostThenAnything(host[1..], rest, hostPattern);
      } else {
        HostThenAnything(host[1..], rest, hostPattern[1..]);
      }
    }
  }

  // ---------- lifting it over the scheme ----------

  /** A scheme is literal text: it has to be the same on both sides, and what is behind it decides. */
  lemma SchemeIsLiteral(a: UrlParts, x: string, b: UrlParts, q: string)
    requires a.IsHttp() && b.IsHttp() && x != ""
    ensures Glob(a.protocol + "//" + x, b.protocol + "//" + q) <==> a.protocol == b.protocol && Glob(x, q)
  {
    var v, l := a.protocol + "//" + x, b.protocol + "//";
    assert |"http:"| == 5 && |"https:"| == 6;
    assert '*' !in "http:" && '*' !in "https:" && '*' !in "//";
    LiteralWalk(v, l, q);
    assert !ShortWalk(v, l, q);
    if a.protocol == b.protocol {
      assert v[..|l|] == l && v[|l|..] == x;
    } else if v[..|l|] == l {
      assert v[4] == l[4] && "http:"[4] == ':' && "https:"[4] == 's';
    }
  }

  lemma HostHasNoSlash(u: Url)
    requires u.IsHttp()
    ensures '/' !in u.host
    ensures u.Tail() != "" && u.Tail()[0] == '/'
  {
  }

  lemma {:induction false} FirstSeparator(scheme: string, rest: string)
    requires ':' !in scheme
    ensures IndexOfSeparator(scheme + "://" + rest) == Some(|scheme|)
    decreases |scheme|
  {
    var s := scheme + "://" + rest;
    if scheme == "" {
      assert s[..3] == "://";
    } else {
      assert scheme[0] in scheme && s[..3][0] == scheme[0] && "://"[0] == ':';
      assert s[1..] == scheme[1..] + "://" + rest;
      FirstSeparator(scheme[1..], rest);
    }
  }

  lemma {:induction false} AuthorityOf(host: string, rest: string)
    requires AuthorityLength(host) == |host|
    requires rest == "" || IsTerminator(rest[0])
    ensures AuthorityLength(host + rest) == |host|
  {
    if host == "" {
      assert host + rest == rest;
    } else {
      assert (host + rest)[1..] == host[1..] + rest;
      AuthorityOf(host[1..], rest);
    }
  }

  lemma TextBehindSeparator(scheme: string, behind: string, pattern: string)
    requires ':' !in scheme && pattern == scheme + "://" + behind
    ensures IndexOfSeparator(pattern) == Some(|scheme|)
    ensures |scheme| + 3 <= |pattern| && pattern[|scheme| + 3..] == behind
  {
    FirstSeparator(scheme, behind);
  }

  lemma TextOfAuthority(pattern: string, n: nat, behind: string, host: string)
    requires IndexOfSeparator(pattern) == Some(n) && pattern[n + 3..] == behind
    requires AuthorityLength(behind) == |host| && behind[..|host|] == host
    ensures AuthorityText(pattern) == host
  {
  }

  lemma AuthorityBehindScheme(scheme: string, host: string, rest: string, pattern: string)
    requires ':' !in scheme && AuthorityLength(host) == |host| && (rest == "" || IsTerminator(rest[0]))
    requires pattern == scheme + "://" + (host + rest)
    ensures AuthorityText(pattern) == host
  {
    AuthorityOf(host, rest);
    TextBehindSeparator(scheme, host + rest, pattern);
    TextOfAuthority(pattern, |scheme|, host + rest, host);
  }

  /** What the write-time check says about a canonical pattern: it looks at the host and nothing else. */
  lemma GlobstarCheckReadsTheHost(u: Url)
    requires u.IsHttp()
    ensures AuthorityText(u.Canonical()) == u.host
    ensures PatternHasGlobstarInAuthority(u.Canonical()) <==> HasGlobstar(u.host)
  {
    HostHasNoSlash(u);
    var scheme := if u.protocol == "http:" then "http" else "https";
    assert u.protocol == scheme + ":" && ':' !in scheme;
    assert u.Canonical() == scheme + "://" + (u.host + u.Tail());
    AuthorityBehindScheme(scheme, u.host, u.Tail(), u.Canonical());
  }

  // ---------- the theorems ----------

  /** A canonical pattern without `**` in its authority only matches URLs whose origin alone matches its own. */
  lemma OriginConfinement(url: Url, pattern: Url)
    requires url.IsHttp() && pattern.IsHttp()
    requires !PatternHasGlobstarInAuthority(pattern.Canonical())
    requires MatchesPattern(url, pattern.Canonical())
    ensures Glob(url.Origin(), pattern.Origin())
  {
    GlobstarCheckReadsTheHost(pattern);
    var j :| 0 <= j < |CanonicalizeHttpURL(url)| && Glob(CanonicalizeHttpURL(url)[j], pattern.Canonical());
    assert url.Origin() + "" == url.Origin();
    CandidateConfined(url, if j == 0 then url.Tail() else "", pattern);
  }

  lemma CandidateConfined(url: Url, rest: string, pattern: Url)
    requires url.IsHttp() && pattern.IsHttp() && !HasGlobstar(pattern.host)
    requires rest == url.Tail() || rest == ""
    requires Glob(url.Origin() + rest, pattern.Canonical())
    ensures Glob(url.Origin(), pattern.Origin())
  {
    HostHasNoSlash(url);
    HostHasNoSlash(pattern);
    assert url.Origin() + rest == url.protocol + "//" + (url.host + rest);
    assert pattern.Canonical() == pattern.protocol + "//" + (pattern.host + pattern.Tail());
    SchemeIsLiteral(url, url.host + rest, pattern, pattern.host + pattern.Tail());
    HostConfinement(url.host, rest, pattern.host, pattern.Tail());
    SchemeIsLiteral(url, url.host, pattern, pattern.host);
  }

  lemma OriginOpensTheRest(url: Url, pattern: Url)
    requires url.IsHttp() && pattern.IsHttp() && pattern.Tail() == "/**" && !HasGlobstar(pattern.host)
    requires Glob(url.Origin(), pattern.Origin())
    ensures Glob(url.Canonical(), pattern.Canonical())
  {
    HostHasNoSlash(url);
    HostHasNoSlash(pattern);
    SchemeIsLiteral(url, url.host, pattern, pattern.host);
    HostThenAnything(url.host, url.Tail(), pattern.host);
    SchemeIsLiteral(url, url.host + url.Tail(), pattern, pattern.host + "/**");
    assert url.Canonical() == url.protocol + "//" + (url.host + url.Tail());
    assert pattern.Canonical() == pattern.protocol + "//" + (pattern.host + "/**");
  }

  // A pattern `origin/**` accepts exactly the URLs whose origin matches: nothing is lost by canonicalizing either.
  lemma OriginScopeIsExact(url: Url, pattern: Url)
    requires url.IsHttp() && pattern.IsHttp() && pattern.Tail() == "/**"
    requires !PatternHasGlobstarInAuthority(pattern.Canonical())
    ensures MatchesPattern(url, pattern.Canonical()) <==> Glob(url.Origin(), pattern.Origin())
  {
    if MatchesPattern(url, pattern.Canonical()) {
      OriginConfinement(url, pattern);
    }
    if Glob(url.Origin(), pattern.Origin()) {
      GlobstarCheckReadsTheHost(pattern);
      OriginOpensTheRest(url, pattern);
      assert CanonicalizeHttpURL(url)[0] == url.Canonical();
    }
  }

  ghost predicate IsSafePattern(parse: Parser, pattern: string) {
    match parse(pattern)
    case None => false
    case Some(url) => url.IsHttp() && !PatternHasGlobstarInAuthority(url.Canonical())
  }

  ghost predicate LiesInOriginOf(parse: Parser, url: Url, pattern: string) {
    parse(pattern).Some? && Glob(url.Origin(), parse(pattern).value.Origin())
  }

  /** The whole function: whatever is accepted as an http(s) URL lies in the origin of one of the patterns. */
  lemma AcceptedUrlLiesInAPatternOrigin(parse: Parser, value: string, patterns: seq<string>)
    requires forall i | 0 <= i < |patterns| :: IsSafePattern(parse, patterns[i])
    requires parse(value).Some? && parse(value).value.IsHttp()
    requires IsSimpleURLMatch(parse, value, patterns)
    ensures exists i :: 0 <= i < |patterns| && LiesInOriginOf(parse, parse(value).value, patterns[i])
  {
    var url := parse(value).value;
    forall i | 0 <= i < |patterns| && MatchesPattern(url, CanonicalizePattern(parse, patterns[i]))
      ensures LiesInOriginOf(parse, url, patterns[i])
    {
      SafePatternConfines(parse, url, patterns[i]);
    }
  }

  lemma SafePatternConfines(parse: Parser, url: Url, pattern: string)
    requires url.IsHttp() && IsSafePattern(parse, pattern)
    requires MatchesPattern(url, CanonicalizePattern(parse, pattern))
    ensures LiesInOriginOf(parse, url, pattern)
  {
    var canonical := parse(pattern).value;
    assert CanonicalizePattern(parse, pattern) == canonical.Canonical();
    OriginConfinement(url, canonical);
  }

  // ---------- exactly what is accepted ----------

  ghost predicate IsWeb(url: UrlParts) {
    url.protocol == "http:" || url.protocol == "https:"
  }

  lemma ListOfLiterals(value: string, patterns: seq<string>)
    ensures value in patterns ==> exists i :: 0 <= i < |patterns| && Glob(value, patterns[i])
    ensures (forall i | 0 <= i < |patterns| :: '*' !in patterns[i]) ==>
      ((exists i :: 0 <= i < |patterns| && Glob(value, patterns[i])) <==> value in patterns)
  {
    EqualMatches(value);
    forall i | 0 <= i < |patterns| && '*' !in patterns[i] ensures Glob(value, patterns[i]) <==> value == patterns[i] {
      WildcardFreeIsEquality(value, patterns[i]);
    }
  }

  /**
   What is no URL is refused. A URL of any scheme but the web's is accepted if it is one of the patterns, and among
   patterns without a wildcard only then.
   */
  lemma OtherSchemesAreCompared(parse: Parser, value: string, patterns: seq<string>)
    requires parse(value).Some? ==> !IsWeb(parse(value).value)
    ensures parse(value).None? ==> !IsSimpleURLMatch(parse, value, patterns)
    ensures parse(value).Some? && value in patterns ==> IsSimpleURLMatch(parse, value, patterns)
    ensures (forall i | 0 <= i < |patterns| :: '*' !in patterns[i]) ==>
      (IsSimpleURLMatch(parse, value, patterns) <==> parse(value).Some? && value in patterns)
  {
    ListOfLiterals(value, patterns);
  }

  // The pattern `origin/**` of a web origin whose host has no two stars in a row.
  ghost predicate IsOriginPattern(parse: Parser, pattern: string) {
    match parse(pattern)
    case None => false
    case Some(p) =>
      && IsWeb(p) && p.pathname + p.search + p.hash == "/**"
      && forall i | 0 <= i < |p.host| - 1 :: !(p.host[i] == '*' && p.host[i + 1] == '*')
  }

  ghost predicate HasOriginOf(parse: Parser, url: Url, pattern: string) {
    match parse(pattern)
    case None => false
    case Some(p) => url.protocol == p.protocol && Glob(url.host, p.host)
  }

  /** The same for a host without a wildcard: the origin is the pattern's. */
  ghost predicate IsOriginOf(parse: Parser, url: Url, pattern: string) {
    match parse(pattern)
    case None => false
    case Some(p) => url.protocol == p.protocol && url.host == p.host
  }

  ghost predicate HasPlainHost(parse: Parser, pattern: string) {
    parse(pattern).Some? && '*' !in parse(pattern).value.host
  }

  lemma OriginPatternDecides(parse: Parser, url: Url, pattern: string)
    requires IsWeb(url) && IsOriginPattern(parse, pattern)
    ensures MatchesPattern(url, CanonicalizePattern(parse, pattern)) <==> HasOriginOf(parse, url, pattern)
  {
    var p := parse(pattern).value;
    assert forall i | 0 <= i < |p.host| :: !StarsAt(p.host, i);
    GlobstarCheckReadsTheHost(p);
    OriginScopeIsExact(url, p);
    HostHasNoSlash(url);
    SchemeIsLiteral(url, url.host, p, p.host);
  }

  /** Against origin patterns a web URL is accepted exactly if one has its scheme and a host that matches its own. */
  lemma OriginPatternsDecide(parse: Parser, value: string, patterns: seq<string>)
    requires parse(value).Some? && IsWeb(parse(value).value)
    requires forall i | 0 <= i < |patterns| :: IsOriginPattern(parse, patterns[i])
    ensures IsSimpleURLMatch(parse, value, patterns) <==>
      exists i :: 0 <= i < |patterns| && HasOriginOf(parse, parse(value).value, patterns[i])
    ensures (forall i | 0 <= i < |patterns| :: HasPlainHost(parse, patterns[i])) ==>
      (IsSimpleURLMatch(parse, value, patterns) <==>
       exists i :: 0 <= i < |patterns| && IsOriginOf(parse, parse(value).value, patterns[i]))
  {
    var url := parse(value).value;
    forall i | 0 <= i < |patterns|
      ensures MatchesPattern(url, CanonicalizePattern(parse, patterns[i])) <==> HasOriginOf(parse, url, patterns[i])
    {
      OriginPatternDecides(parse, url, patterns[i]);
    }
    forall i | 0 <= i < |patterns| && HasPlainHost(parse, patterns[i])
      ensures HasOriginOf(parse, url, patterns[i]) <==> IsOriginOf(parse, url, patterns[i])
    {
      WildcardFreeIsEquality(url.host, parse(patterns[i]).value.host);
    }
  }

  /** A pattern that is no URL of the web stays as it was written. */
  ghost predicate IsWritten(parse: Parser, pattern: string) {
    parse(pattern).Some? ==> !IsWeb(parse(pattern).value)
  }

  /** The URL as the browser prints it matches the text, or its bare origin does if nothing else is in it. */
  ghost predicate MatchesText(url: Url, text: string) {
    var origin := url.protocol + "//" + url.host;
    || Glob(origin + (url.pathname + url.search + url.hash), text)
    || (url.pathname == "/" && url.search == "" && url.hash == "" && Glob(origin, text))
  }

  lemma FormsDecide(url: Url, text: string)
    ensures MatchesPattern(url, text) <==> MatchesText(url, text)
  {
    var forms := CanonicalizeHttpURL(url);
    assert forms[0] == url.protocol + "//" + url.host + (url.pathname + url.search + url.hash);
    assert MatchesPattern(url, text) <==> Glob(forms[0], text) || (|forms| == 2 && Glob(forms[1], text));
  }

  /** A web URL is accepted if it matches a pattern as written, and against such patterns only then. */
  lemma WrittenPatternsAreCompared(parse: Parser, value: string, patterns: seq<string>)
    requires parse(value).Some? && IsWeb(parse(value).value)
    ensures (exists i :: 0 <= i < |patterns| && IsWritten(parse, patterns[i]) &&
               MatchesText(parse(value).value, patterns[i])) ==>
      IsSimpleURLMatch(parse, value, patterns)
    ensures (forall i | 0 <= i < |patterns| :: IsWritten(parse, patterns[i])) ==>
      (IsSimpleURLMatch(parse, value, patterns) <==>
       exists i :: 0 <= i < |patterns| && MatchesText(parse(value).value, patterns[i]))
  {
    var url := parse(value).value;
    forall i | 0 <= i < |patterns| && IsWritten(parse, patterns[i])
      ensures MatchesPattern(url, CanonicalizePattern(parse, patterns[i])) <==> MatchesText(url, patterns[i])
    {
      FormsDecide(url, patterns[i]);
    }
  }

  /** So `http://localhost:*`, which is no URL, accepts every port of the host: the bare origin matches. */
  lemma OpenPortAcceptsEveryPort(parse: Parser, value: string, patterns: seq<string>, name: string, port: string)
    requires parse(value).Some? && IsWeb(parse(value).value) && parse(value).value.host == name + ":" + port
    requires var url := parse(value).value; url.pathname == "/" && url.search == "" && url.hash == ""
    requires '*' !in name && parse(value).value.protocol + "//" + name + ":*" in patterns
    requires parse(parse(value).value.protocol + "//" + name + ":*") == None
    ensures IsSimpleURLMatch(parse, value, patterns)
  {
    var url := parse(value).value;
    var behind, pattern := name + ":", url.protocol + "//" + name + ":*";
    HostHasNoSlash(url);
    LiteralWalk(url.host, behind, "*");
    assert url.host == behind + port && url.host[|behind|..] == port;
    assert '/' !in port by { assert forall c | c in port :: c in url.host; }
    assert Glob("", "*");
    assert port[..|port|] == port && port[|port|..] == "";
    StarReaches(port, |port|, "*");
    SchemeIsLiteral(url, url.host, url, behind + "*");
    assert pattern == url.protocol + "//" + (behind + "*");
    assert MatchesText(url, pattern);
    var i :| 0 <= i < |patterns| && patterns[i] == pattern;
    WrittenPatternsAreCompared(parse, value, patterns);
  }

  // ---------- against the raw string ----------

  // Against the raw string a host wildcard does reach past the authority: for every foreign host and every
  // domain literal, `https://evil?domain/` matches `https://*domain/**` although its authority is `evil`.
  lemma RawWildcardLeavesTheAuthority(evil: string, domain: string)
    requires AuthorityLength(evil) == |evil| && AuthorityLength(domain) == |domain| && '*' !in domain
    ensures Glob("https://" + (evil + "?" + domain + "/"), "https://" + ("*" + domain + "/**"))
    ensures AuthorityLength(evil + "?" + domain + "/") == |evil|
  {
    var v, p := evil + "?" + domain + "/", "*" + domain + "/**";
    assert v == evil + ("?" + domain + "/");
    AuthorityOf(evil, "?" + domain + "/");
    DomainBehindQuery(domain);
    var k := |evil| + 1;
    assert v[k..] == domain + "/" && v[..k] == evil + "?";
    StarReaches(v, k, p);
    LiteralWalk("https://" + v, "https://", p);
    assert ("https://" + v)[..8] == "https://" && ("https://" + v)[8..] == v;
  }

  lemma DomainBehindQuery(domain: string)
    requires '*' !in domain
    ensures Glob(domain + "/", "*" + domain + "/**")
  {
    var p := "*" + domain + "/**";
    LiteralWalk(domain + "/", domain + "/", "**");
    assert domain + "/" + "**" == domain + "/**" == p[1..];
    assert (domain + "/")[|domain + "/"|..] == "" && StarsAt("**", 0);
  }
}
