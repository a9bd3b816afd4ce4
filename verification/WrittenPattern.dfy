/**
The write-time check of `packages/kit/src/is-simple-url-match.ts` on a pattern as it is written, against the canonical
pattern the matcher compares.

Behind `http:` or `https:` a WHATWG parser skips any number of slashes, either way round, and reads the authority up
to the next terminator; the check reads it behind the first `://`. What else a parser does to that text (it drops
credentials and a default port and folds case) makes no star.
*/
module WrittenPattern {
  import opened Basics
  import opened SimpleMatch
  import opened UrlMatch

  // ---------- the two texts ----------

  predicate IsSlash(c: char) {
    c == '/' || c == '\\'
  }

  predicate SlashLed(s: string) {
    s != "" && IsSlash(s[0])
  }

  predicate TwoSlashes(s: string) {
    |s| >= 2 && s[0] == '/' && s[1] == '/'
  }

  function SkipSlashes(s: string): (t: string)
    ensures !SlashLed(t)
  {
    if SlashLed(s) then SkipSlashes(s[1..]) else s
  }

  predicate IsScheme(s: string) {
    forall i | 0 <= i < |s| :: s[i] != ':' && s[i] != '*' && !IsTerminator(s[i])
  }

  function Written(scheme: string, rest: string): string {
    scheme + ":" + rest
  }

  /** The text a parser reads the host from. */
  function HostText(rest: string): string {
    Authority(SkipSlashes(rest))
  }

  /** The text the check reads. */
  function TextRead(scheme: string, rest: string): string {
    if TwoSlashes(rest) then Authority(rest[2..])
    else if IndexOfSeparator(rest).Some? then AuthorityText(rest)
    else scheme + ":" + Authority(rest)
  }

  /**
   The host stands where the check does not look: behind a slash more, or less, than the two it expects. Without
   `://` behind the scheme a later one misleads it, unless there happens to be a `**` as well.
   */
  predicate IsHidden(rest: string) {
    if TwoSlashes(rest) then SlashLed(rest[2..])
    else if IndexOfSeparator(rest).Some? then !HasGlobstar(AuthorityText(rest))
    else SlashLed(rest)
  }

  // ---------- what the check reads ----------

  function Later(r: Option<nat>, k: nat): Option<nat> {
    match r case Some(n) => Some(n + k) case None => None
  }

  lemma SeparatorAtOnce(s: string)
    requires s != "" && s[0] == ':'
    ensures IndexOfSeparator(s) == if TwoSlashes(s[1..]) then Some(0) else Later(IndexOfSeparator(s[1..]), 1)
  {
    if |s| >= 3 {
      assert s[..3] == [s[0], s[1], s[2]] && s[1..][0] == s[1] && s[1..][1] == s[2];
    }
  }

  lemma SeparatorLater(s: string)
    requires s != "" && s[0] != ':'
    ensures IndexOfSeparator(s) == Later(IndexOfSeparator(s[1..]), 1)
  {
    if |s| >= 3 {
      assert s[..3][0] == s[0] && "://"[0] == ':';
    }
  }

  lemma OneLetter(scheme: string, rest: string)
    ensures var s := Written(scheme, rest);
      if scheme == "" then s[0] == ':' && s[1..] == rest
      else s[0] == scheme[0] && s[1..] == Written(scheme[1..], rest)
  {
  }

  lemma {:induction false} SeparatorBehind(scheme: string, rest: string)
    requires IsScheme(scheme)
    ensures IndexOfSeparator(Written(scheme, rest)) ==
      if TwoSlashes(rest) then Some(|scheme|) else Later(IndexOfSeparator(rest), |scheme| + 1)
    decreases |scheme|
  {
    OneLetter(scheme, rest);
    if scheme == "" {
      SeparatorAtOnce(Written(scheme, rest));
    } else {
      SeparatorLater(Written(scheme, rest));
      SeparatorBehind(scheme[1..], rest);
    }
  }

  lemma {:induction false} AuthorityThrough(a: string, b: string)
    requires forall i | 0 <= i < |a| :: !IsTerminator(a[i])
    ensures Authority(a + b) == a + Authority(b)
    decreases |a|
  {
    if a == "" {
      assert a + b == b && a + Authority(b) == Authority(b);
    } else {
      assert (a + b)[1..] == a[1..] + b;
      AuthorityThrough(a[1..], b);
      var n := AuthorityLength(a[1..] + b);
      assert (a + b)[..n + 1] == [a[0]] + (a[1..] + b)[..n];
      assert [a[0]] + (a[1..] + Authority(b)) == a + Authority(b);
    }
  }

  lemma DropWritten(scheme: string, rest: string, k: nat)
    requires k <= |rest|
    ensures Written(scheme, rest)[|scheme| + 1 + k..] == rest[k..]
  {
  }

  lemma BehindWritten(scheme: string, rest: string)
    requires IsScheme(scheme)
    ensures BehindSeparator(Written(scheme, rest)) ==
      if TwoSlashes(rest) then rest[2..]
      else if IndexOfSeparator(rest).Some? then BehindSeparator(rest)
      else Written(scheme, rest)
  {
    SeparatorBehind(scheme, rest);
    if TwoSlashes(rest) {
      DropWritten(scheme, rest, 2);
    } else if IndexOfSeparator(rest).Some? {
      DropWritten(scheme, rest, IndexOfSeparator(rest).value + 3);
    }
  }

  lemma CheckReads(scheme: string, rest: string)
    requires IsScheme(scheme)
    ensures AuthorityText(Written(scheme, rest)) == TextRead(scheme, rest)
  {
    BehindWritten(scheme, rest);
    AuthorityThrough(scheme + ":", rest);
  }

  lemma GlobstarBehind(a: string, b: string)
    requires '*' !in a
    ensures HasGlobstar(a + b) <==> HasGlobstar(b)
  {
    forall k | 0 <= k < |a| ensures (a + b)[k] != '*' {
      assert a[k] in a;
    }
    if HasGlobstar(a + b) {
      var i :| 0 <= i < |a + b| && StarsAt(a + b, i);
      assert i >= |a| && StarsAt(b, i - |a|);
    }
    if HasGlobstar(b) {
      var i :| 0 <= i < |b| && StarsAt(b, i);
      assert StarsAt(a + b, |a| + i);
    }
  }

  lemma SlashesAreSkipped(rest: string)
    ensures TwoSlashes(rest) ==> HostText(rest) == HostText(rest[2..])
    ensures !SlashLed(rest) ==> HostText(rest) == Authority(rest)
    ensures SlashLed(rest) ==> Authority(rest) == ""
  {
    if TwoSlashes(rest) {
      assert SlashLed(rest) && SlashLed(rest[1..]) && rest[1..][1..] == rest[2..];
      assert SkipSlashes(rest) == SkipSlashes(rest[1..]) == SkipSlashes(rest[2..]);
    }
  }

  /** Of a pattern whose host carries `**`, the check says so exactly if the host is not hidden. */
  lemma CheckSeesTheHost(scheme: string, rest: string)
    requires IsScheme(scheme) && HasGlobstar(HostText(rest))
    ensures PatternHasGlobstarInAuthority(Written(scheme, rest)) <==> !IsHidden(rest)
  {
    CheckReads(scheme, rest);
    SlashesAreSkipped(rest);
    if TwoSlashes(rest) {
      SlashesAreSkipped(rest[2..]);
    } else if IndexOfSeparator(rest).None? {
      assert '*' !in scheme + ":";
      GlobstarBehind(scheme + ":", Authority(rest));
    }
  }

  // ---------- what a parser reads ----------

  ghost predicate StarsComeFrom(host: string, text: string, i: int) {
    0 <= i && i + |host| <= |text| && forall k | 0 <= k < |host| && host[k] == '*' :: text[i + k] == '*'
  }

  /** The host is a stretch of the text, letter for letter up to case, and none of its stars is made. */
  ghost predicate IsReadFrom(host: string, text: string) {
    exists i :: StarsComeFrom(host, text, i)
  }

  ghost predicate ParsesFrom(parse: Parser, pattern: string, rest: string) {
    parse(pattern).Some? && parse(pattern).value.IsHttp() && IsReadFrom(parse(pattern).value.host, HostText(rest))
  }

  lemma NoStarIsMade(host: string, text: string)
    requires IsReadFrom(host, text) && HasGlobstar(host)
    ensures HasGlobstar(text)
  {
    var i :| StarsComeFrom(host, text, i);
    var k :| 0 <= k < |host| && StarsAt(host, k);
    assert StarsAt(text, i + k);
  }

  lemma {:induction false} AuthorityIsWhole(s: string)
    ensures AuthorityLength(Authority(s)) == |Authority(s)|
  {
    if s != "" && !IsTerminator(s[0]) {
      assert Authority(s)[1..] == Authority(s[1..]);
      AuthorityIsWhole(s[1..]);
    }
  }

  // ---------- when passing the check is enough ----------

  ghost predicate PassingIsEnough(parse: Parser, pattern: string) {
    !PatternHasGlobstarInAuthority(pattern) ==> IsSafePattern(parse, pattern)
  }

  lemma OpenHostIsSeen(parse: Parser, scheme: string, rest: string)
    requires IsScheme(scheme) && ParsesFrom(parse, Written(scheme, rest), rest)
    requires HasGlobstar(HostText(rest)) ==> !IsHidden(rest)
    ensures PassingIsEnough(parse, Written(scheme, rest))
  {
    var url := parse(Written(scheme, rest)).value;
    GlobstarCheckReadsTheHost(url);
    if HasGlobstar(url.host) {
      NoStarIsMade(url.host, HostText(rest));
      CheckSeesTheHost(scheme, rest);
    }
  }

  lemma HiddenHostIsNotSeen(scheme: string, rest: string) returns (parse: Parser)
    requires IsScheme(scheme) && HasGlobstar(HostText(rest)) && IsHidden(rest)
    ensures ParsesFrom(parse, Written(scheme, rest), rest) && !PassingIsEnough(parse, Written(scheme, rest))
  {
    var host := HostText(rest);
    AuthorityIsWhole(SkipSlashes(rest));
    var url: Url := UrlParts("https:", host, "/", "", "");
    parse := _ => Some(url);
    assert StarsComeFrom(host, host, 0);
    CheckSeesTheHost(scheme, rest);
    GlobstarCheckReadsTheHost(url);
  }

  /**
   Whatever parser reads the host from the text: a pattern that passes the check as it is written passes it in
   canonical form too, exactly if no `**` of its host is hidden. Both can be told from the text.
   */
  lemma WrittenCheckIsExact(scheme: string, rest: string)
    requires IsScheme(scheme)
    ensures (forall parse | ParsesFrom(parse, Written(scheme, rest), rest) ::
               PassingIsEnough(parse, Written(scheme, rest))) <==>
      !(HasGlobstar(HostText(rest)) && IsHidden(rest))
  {
    if HasGlobstar(HostText(rest)) && IsHidden(rest) {
      var parse := HiddenHostIsNotSeen(scheme, rest);
    } else {
      forall parse | ParsesFrom(parse, Written(scheme, rest), rest)
        ensures PassingIsEnough(parse, Written(scheme, rest))
      {
        OpenHostIsSeen(parse, scheme, rest);
      }
    }
  }

  // ---------- what passing it means ----------

  /** Written with its host in the open, and read from there. */
  ghost predicate InTheOpen(parse: Parser, pattern: string, scheme: string, rest: string) {
    pattern == Written(scheme, rest) && IsScheme(scheme) && !IsHidden(rest) && ParsesFrom(parse, pattern, rest)
  }

  ghost predicate PassesInTheOpen(parse: Parser, pattern: string) {
    !PatternHasGlobstarInAuthority(pattern) && exists scheme, rest :: InTheOpen(parse, pattern, scheme, rest)
  }

  /** So patterns that pass the check as they are written, with their hosts in the open, confine what is accepted. */
  lemma CheckedPatternsConfine(parse: Parser, value: string, patterns: seq<string>)
    requires forall i | 0 <= i < |patterns| :: PassesInTheOpen(parse, patterns[i])
    requires parse(value).Some? && parse(value).value.IsHttp()
    requires IsSimpleURLMatch(parse, value, patterns)
    ensures exists i :: 0 <= i < |patterns| && LiesInOriginOf(parse, parse(value).value, patterns[i])
  {
    forall i | 0 <= i < |patterns| ensures IsSafePattern(parse, patterns[i]) {
      assert PassesInTheOpen(parse, patterns[i]);
      var scheme, rest :| InTheOpen(parse, patterns[i], scheme, rest);
      OpenHostIsSeen(parse, scheme, rest);
    }
    AcceptedUrlLiesInAPatternOrigin(parse, value, patterns);
  }

  /** A host and what follows it. */
  lemma HostInFront(host: string, tail: string)
    requires host != "" && AuthorityLength(host) == |host| && (tail == "" || IsTerminator(tail[0]))
    ensures !SlashLed(host + tail) && Authority(host + tail) == host == HostText(host + tail)
  {
    AuthorityOf(host, tail);
    assert (host + tail)[0] == host[0] && !IsTerminator(host[0]);
    assert (host + tail)[..|host|] == host;
  }

  lemma OneSlashMore(rest: string)
    ensures SlashLed("/" + rest) && HostText("/" + rest) == HostText(rest)
    ensures TwoSlashes("/" + rest) <==> rest != "" && rest[0] == '/'
  {
    assert ("/" + rest)[1..] == rest;
  }

  function SchemeOf(url: Url): string {
    if url.protocol == "http:" then "http" else "https"
  }

  lemma CanonicalIsWritten(url: Url)
    requires url.IsHttp()
    ensures IsScheme(SchemeOf(url))
    ensures url.Canonical() == Written(SchemeOf(url), "/" + ("/" + (url.host + url.Tail())))
  {
    var behind := url.host + url.Tail();
    assert url.protocol == SchemeOf(url) + ":";
    assert "//" + behind == "/" + ("/" + behind);
    assert url.Canonical() == url.protocol + ("//" + behind);
  }

  lemma HostIsInTheOpen(host: string, tail: string)
    requires host != "" && AuthorityLength(host) == |host| && (tail == "" || IsTerminator(tail[0]))
    ensures var rest := "/" + ("/" + (host + tail));
      !IsHidden(rest) && HostText(rest) == host
  {
    var behind := host + tail;
    HostInFront(host, tail);
    OneSlashMore(behind);
    OneSlashMore("/" + behind);
    assert ("/" + ("/" + behind))[2..] == behind;
  }

  /** A pattern written in its canonical form has its host in the open. */
  lemma CanonicalIsInTheOpen(parse: Parser, url: Url)
    requires url.IsHttp() && parse(url.Canonical()) == Some(url)
    ensures InTheOpen(parse, url.Canonical(), SchemeOf(url), "/" + ("/" + (url.host + url.Tail())))
  {
    HostHasNoSlash(url);
    CanonicalIsWritten(url);
    HostIsInTheOpen(url.host, url.Tail());
    assert StarsComeFrom(url.host, url.host, 0);
  }

  lemma StarredHostAcceptsEverything(url: Url, pattern: Url)
    requires url.IsHttp() && pattern.IsHttp() && url.protocol == pattern.protocol && "**" <= pattern.host
    ensures MatchesPattern(url, pattern.Canonical())
  {
    var x, q := url.host + url.Tail(), pattern.host + pattern.Tail();
    assert q[0] == pattern.host[0] == "**"[0] && q[1] == pattern.host[1] == "**"[1];
    assert StarsAt(q, 0);
    SchemeIsLiteral(url, x, pattern, q);
    assert url.Canonical() == url.protocol + "//" + x && pattern.Canonical() == pattern.protocol + "//" + q;
    assert Glob(CanonicalizeHttpURL(url)[0], pattern.Canonical());
  }

  /** A host that begins with `**` accepts every origin of its scheme; hidden, it passes the check all the same. */
  lemma HiddenHostAcceptsEverything(parse: Parser, scheme: string, rest: string, value: string)
    requires IsScheme(scheme) && HasGlobstar(HostText(rest)) && IsHidden(rest)
    requires parse(Written(scheme, rest)).Some? && parse(value).Some?
    requires var pattern, url := parse(Written(scheme, rest)).value, parse(value).value;
      pattern.IsHttp() && "**" <= pattern.host && url.protocol == pattern.protocol
    ensures !PatternHasGlobstarInAuthority(Written(scheme, rest))
    ensures IsSimpleURLMatch(parse, value, [Written(scheme, rest)])
  {
    var pattern, url := parse(Written(scheme, rest)).value, parse(value).value;
    CheckSeesTheHost(scheme, rest);
    StarredHostAcceptsEverything(url, pattern);
    assert CanonicalizePattern(parse, Written(scheme, rest)) == pattern.Canonical();
    assert MatchesPattern(url, CanonicalizePattern(parse, [Written(scheme, rest)][0]));
  }

  /** One slash too many, or one too few, and the host is hidden. */
  lemma MiscountedSlashesHide(host: string, tail: string)
    requires host != "" && AuthorityLength(host) == |host| && (tail == "" || IsTerminator(tail[0]))
    ensures var one, three := "/" + (host + tail), "/" + ("/" + ("/" + (host + tail)));
      && HostText(three) == host && IsHidden(three)
      && HostText(one) == host && (IndexOfSeparator(one).None? ==> IsHidden(one))
  {
    var behind := host + tail;
    HostInFront(host, tail);
    OneSlashMore(behind);
    OneSlashMore("/" + behind);
    OneSlashMore("/" + ("/" + behind));
    assert ("/" + ("/" + ("/" + behind)))[2..] == "/" + behind;
  }
}
